/** The AVL index as a value: what inserting, removing and rebalancing do to the tree that the
    linked nodes form.  Nodes keep their identity, so a tree also says which node is where. */
module AvlTree {
  import opened Lists

  datatype Tree = Leaf | Node(id: nat, key: int, value: int, height: int, left: Tree, right: Tree)

  function H(t: Tree): int { if t.Leaf? then 0 else t.height }

  function Max(a: int, b: int): int { if a > b then a else b }

  function Balance(t: Tree): int { if t.Leaf? then 0 else H(t.left) - H(t.right) }

  /** The node with its height worked out from its children. */
  function Fix(t: Tree): (r: Tree)
    requires t.Node?
    ensures r.Node?
  {
    t.(height := 1 + Max(H(t.left), H(t.right)))
  }

  function RotateRight(y: Tree): (x: Tree)
    requires y.Node? && y.left.Node?
    ensures x.Node?
  {
    Fix(y.left.(right := Fix(y.(left := y.left.right))))
  }

  function RotateLeft(x: Tree): (y: Tree)
    requires x.Node? && x.right.Node?
    ensures y.Node?
  {
    Fix(x.right.(left := Fix(x.(right := x.right.left))))
  }

  ghost function Keys(t: Tree): set<int> {
    if t.Leaf? then {} else Keys(t.left) + {t.key} + Keys(t.right)
  }

  ghost function Ids(t: Tree): set<nat> {
    if t.Leaf? then {} else Ids(t.left) + {t.id} + Ids(t.right)
  }

  /** The search of simap_get_value. */
  function Get(t: Tree, k: int): Option<int> {
    if t.Leaf? then None else if k < t.key then Get(t.left, k) else if k > t.key then Get(t.right, k) else Some(t.value)
  }

  ghost function Size(t: Tree): nat {
    if t.Leaf? then 0 else Size(t.left) + 1 + Size(t.right)
  }

  /** Every node has its own identity. */
  ghost predicate Distinct(t: Tree) {
    t.Node? ==>
      && Distinct(t.left) && Distinct(t.right)
      && t.id !in Ids(t.left) && t.id !in Ids(t.right) && Ids(t.left) !! Ids(t.right)
  }

  ghost predicate Sorted(t: Tree) {
    t.Node? ==>
      && Sorted(t.left) && Sorted(t.right)
      && (forall k :: k in Keys(t.left) ==> k < t.key) && (forall k :: k in Keys(t.right) ==> t.key < k)
  }

  /** Every stored height is exact. */
  ghost predicate Exact(t: Tree) {
    t.Node? ==> Exact(t.left) && Exact(t.right) && t.height == 1 + Max(H(t.left), H(t.right))
  }

  ghost predicate Balanced(t: Tree) {
    t.Node? ==> Balanced(t.left) && Balanced(t.right) && -1 <= Balance(t) <= 1
  }

  ghost predicate Avl(t: Tree) { Sorted(t) && Exact(t) && Balanced(t) }

  lemma {:induction false} HeightNat(t: Tree)
    requires Exact(t)
    ensures H(t) >= 0 && (t.Node? ==> H(t) >= 1)
  {
    if t.Node? {
      HeightNat(t.left);
      HeightNat(t.right);
    }
  }

  function Fib(n: nat): nat { if n < 2 then n else Fib(n - 1) + Fib(n - 2) }

  /** A tree of height h has at least Fib(h + 2) - 1 nodes. */
  lemma {:induction false} FibBound(t: Tree)
    requires Avl(t)
    ensures H(t) >= 0 && Size(t) + 1 >= Fib(H(t) + 2)
  {
    if t.Node? {
      FibBound(t.left);
      FibBound(t.right);
      var h := H(t);
      assert Fib(h + 2) == Fib(h + 1) + Fib(h);
      FibGrows(h, H(t.left) + 2);
      FibGrows(h, H(t.right) + 2);
    }
  }

  /** Sixteen nodes are never more than five deep. */
  lemma DepthBound(t: Tree)
    requires Avl(t) && Size(t) <= 16
    ensures H(t) <= 5
  {
    FibBound(t);
    assert Fib(8) == 21;
    if H(t) >= 6 {
      FibGrows(8, H(t) + 2);
    }
  }

  lemma {:induction false} FibGrows(a: nat, b: nat)
    requires a <= b
    ensures Fib(a) <= Fib(b)
    decreases b
  {
    if a < b {
      FibGrows(a, b - 1);
      if b >= 2 {
        assert Fib(b) == Fib(b - 1) + Fib(b - 2);
      }
    }
  }

  // Insertion.

  /** The rebalancing of insert_value: which way to turn is decided by the new key. */
  function InsertFix(n: Tree, k: int): (r: Tree)
    requires n.Node?
    ensures r.Node?
  {
    if Balance(n) > 1 && n.left.Node? && k < n.left.key then RotateRight(n)
    else if Balance(n) < -1 && n.right.Node? && k > n.right.key then RotateLeft(n)
    else if Balance(n) > 1 && n.left.Node? && n.left.right.Node? && k > n.left.key then
      RotateRight(n.(left := RotateLeft(n.left)))
    else if Balance(n) < -1 && n.right.Node? && n.right.left.Node? && k < n.right.key then
      RotateLeft(n.(right := RotateRight(n.right)))
    else n
  }

  function Insert(t: Tree, k: int, v: int, id: nat): (r: Tree)
    ensures r.Node?
  {
    if t.Leaf? then Node(id, k, v, 1, Leaf, Leaf)
    else if k < t.key then InsertFix(Fix(t.(left := Insert(t.left, k, v, id))), k)
    else if k > t.key then InsertFix(Fix(t.(right := Insert(t.right, k, v, id))), k)
    else t
  }

  /** What an insertion may do to the height and where the weight then lies. */
  ghost predicate Grown(t: Tree, r: Tree, k: int) {
    && r.Node? && H(t) <= H(r) <= H(t) + 1
    && (t.Node? && H(r) == H(t) + 1 ==>
          r.key == t.key && k != t.key && Balance(r) == if k < t.key then 1 else -1)
  }

  lemma TurnRightOnce(n: Tree)
    requires n.Node? && Exact(n) && Balanced(n.left) && Balanced(n.right) && Balance(n) == 2 && n.left.Node? && Balance(n.left) >= 0
    ensures var r := RotateRight(n);
      Exact(r) && Balanced(r) && H(r) == H(n) - (if Balance(n.left) == 0 then 0 else 1)
  {
    HeightNat(n.right);
    HeightNat(n.left.left);
    HeightNat(n.left.right);
  }

  lemma TurnRightTwice(n: Tree)
    requires n.Node? && Exact(n) && Balanced(n.left) && Balanced(n.right) && Balance(n) == 2 && n.left.Node? && Balance(n.left) < 0
    ensures n.left.right.Node?
    ensures var r := RotateRight(n.(left := RotateLeft(n.left))); Exact(r) && Balanced(r) && H(r) == H(n) - 1
  {
    HeightNat(n.right);
    HeightNat(n.left.left);
    HeightNat(n.left.right);
  }

  /** A node whose left side is two higher is set right by one or two turns. */
  lemma TurnRight(n: Tree)
    requires n.Node? && Exact(n) && Balanced(n.left) && Balanced(n.right) && Balance(n) == 2
    ensures n.left.Node?
    ensures Balance(n.left) >= 0 ==>
      var r := RotateRight(n);
      Exact(r) && Balanced(r) && H(r) == H(n) - (if Balance(n.left) == 0 then 0 else 1)
    ensures Balance(n.left) < 0 ==>
      && n.left.right.Node?
      && var r := RotateRight(n.(left := RotateLeft(n.left)));
      Exact(r) && Balanced(r) && H(r) == H(n) - 1
  {
    hide RotateRight, RotateLeft;
    HeightNat(n.right);
    if Balance(n.left) >= 0 {
      TurnRightOnce(n);
    } else {
      TurnRightTwice(n);
    }
  }

  lemma TurnLeftOnce(n: Tree)
    requires n.Node? && Exact(n) && Balanced(n.right) && Balanced(n.left) && Balance(n) == -2 && n.right.Node? && Balance(n.right) <= 0
    ensures var r := RotateLeft(n);
      Exact(r) && Balanced(r) && H(r) == H(n) - (if Balance(n.right) == 0 then 0 else 1)
  {
    HeightNat(n.left);
    HeightNat(n.right.right);
    HeightNat(n.right.left);
  }

  lemma TurnLeftTwice(n: Tree)
    requires n.Node? && Exact(n) && Balanced(n.right) && Balanced(n.left) && Balance(n) == -2 && n.right.Node? && Balance(n.right) > 0
    ensures n.right.left.Node?
    ensures var r := RotateLeft(n.(right := RotateRight(n.right))); Exact(r) && Balanced(r) && H(r) == H(n) - 1
  {
    HeightNat(n.left);
    HeightNat(n.right.right);
    HeightNat(n.right.left);
  }

  lemma TurnLeft(n: Tree)
    requires n.Node? && Exact(n) && Balanced(n.right) && Balanced(n.left) && Balance(n) == -2
    ensures n.right.Node?
    ensures Balance(n.right) <= 0 ==>
      var r := RotateLeft(n);
      Exact(r) && Balanced(r) && H(r) == H(n) - (if Balance(n.right) == 0 then 0 else 1)
    ensures Balance(n.right) > 0 ==>
      && n.right.left.Node?
      && var r := RotateLeft(n.(right := RotateRight(n.right)));
      Exact(r) && Balanced(r) && H(r) == H(n) - 1
  {
    hide RotateLeft, RotateRight;
    HeightNat(n.left);
    if Balance(n.right) <= 0 {
      TurnLeftOnce(n);
    } else {
      TurnLeftTwice(n);
    }
  }

  lemma FixGrownLeft(t: Tree, l: Tree, k: int)
    requires t.Node? && Exact(t) && Balanced(t) && Exact(l) && Balanced(l) && k < t.key
    requires Grown(t.left, l, k)
    ensures var r := InsertFix(Fix(t.(left := l)), k); Exact(r) && Balanced(r) && Grown(t, r, k)
  {
    hide RotateRight, RotateLeft;
    HeightNat(t.left);
    HeightNat(t.right);
    var n := Fix(t.(left := l));
    if Balance(n) > 1 {
      TurnRight(n);
    }
  }

  lemma FixGrownRight(t: Tree, r: Tree, k: int)
    requires t.Node? && Exact(t) && Balanced(t) && Exact(r) && Balanced(r) && k > t.key
    requires Grown(t.right, r, k)
    ensures var n := InsertFix(Fix(t.(right := r)), k); Exact(n) && Balanced(n) && Grown(t, n, k)
  {
    hide RotateRight, RotateLeft;
    HeightNat(t.left);
    HeightNat(t.right);
    var n := Fix(t.(right := r));
    if Balance(n) < -1 {
      TurnLeft(n);
    }
  }

  /** Insertion keeps heights exact and the tree balanced. */
  lemma {:induction false} InsertBalanced(t: Tree, k: int, v: int, id: nat)
    requires Exact(t) && Balanced(t)
    ensures var r := Insert(t, k, v, id); Exact(r) && Balanced(r) && Grown(t, r, k)
  {
    if t.Node? && k < t.key {
      InsertBalanced(t.left, k, v, id);
      FixGrownLeft(t, Insert(t.left, k, v, id), k);
    } else if t.Node? && k > t.key {
      InsertBalanced(t.right, k, v, id);
      FixGrownRight(t, Insert(t.right, k, v, id), k);
    }
  }

  /** Two trees have the same nodes, and `r` is in order and without repetition if `t` is. */
  ghost predicate SameEntries(t: Tree, r: Tree) {
    && Keys(r) == Keys(t) && Ids(r) == Ids(t) && Size(r) == Size(t)
    && (Sorted(t) ==> Sorted(r)) && (Distinct(t) ==> Distinct(r))
    && (Sorted(t) ==> forall x :: Get(r, x) == Get(t, x))
  }

  lemma RotateRightNodes(y: Tree)
    requires y.Node? && y.left.Node?
    ensures var r := RotateRight(y); Keys(r) == Keys(y) && Ids(r) == Ids(y) && Size(r) == Size(y)
  {
    var x := y.left;
    var y' := Fix(y.(left := x.right));
    assert Keys(y') == Keys(x.right) + {y.key} + Keys(y.right);
    assert Ids(y') == Ids(x.right) + {y.id} + Ids(y.right);
    assert RotateRight(y) == Fix(x.(right := y'));
  }

  lemma RotateRightSorted(y: Tree)
    requires y.Node? && y.left.Node? && Sorted(y)
    ensures Sorted(RotateRight(y)) && y.left.key < y.key
  {
    var x := y.left;
    var y' := Fix(y.(left := x.right));
    assert RotateRight(y) == Fix(x.(right := y'));
    assert x.key in Keys(x);
    forall k | k in Keys(x.right) ensures k < y.key {
      assert k in Keys(x);
    }
    assert Sorted(y');
    forall k | k in Keys(y') ensures x.key < k {
      assert k in Keys(x.right) || k == y.key || k in Keys(y.right);
    }
  }

  lemma RotateRightGet(y: Tree, k: int)
    requires y.Node? && y.left.Node? && y.left.key < y.key
    ensures Get(RotateRight(y), k) == Get(y, k)
  {
  }

  lemma RotateRightDistinct(y: Tree)
    requires y.Node? && y.left.Node? && Distinct(y)
    ensures Distinct(RotateRight(y))
  {
    var x := y.left;
    var y' := Fix(y.(left := x.right));
    assert x.id in Ids(x) && forall k :: k in Ids(x.right) || k in Ids(x.left) ==> k in Ids(x);
    assert Distinct(y') && Ids(y') == Ids(x.right) + {y.id} + Ids(y.right);
    assert RotateRight(y) == Fix(x.(right := y'));
  }

  lemma RotateRightSame(y: Tree)
    requires y.Node? && y.left.Node?
    ensures SameEntries(y, RotateRight(y))
  {
    hide RotateRight, Keys, Ids, Size, Sorted, Distinct, Get;
    RotateRightNodes(y);
    if Sorted(y) {
      RotateRightSorted(y);
      forall k ensures Get(RotateRight(y), k) == Get(y, k) {
        RotateRightGet(y, k);
      }
    }
    if Distinct(y) {
      RotateRightDistinct(y);
    }
  }

  lemma RotateLeftNodes(y: Tree)
    requires y.Node? && y.right.Node?
    ensures var r := RotateLeft(y); Keys(r) == Keys(y) && Ids(r) == Ids(y) && Size(r) == Size(y)
  {
    var x := y.right;
    var y' := Fix(y.(right := x.left));
    assert Keys(y') == Keys(x.left) + {y.key} + Keys(y.left);
    assert Ids(y') == Ids(x.left) + {y.id} + Ids(y.left);
    assert RotateLeft(y) == Fix(x.(left := y'));
  }

  lemma RotateLeftSorted(y: Tree)
    requires y.Node? && y.right.Node? && Sorted(y)
    ensures Sorted(RotateLeft(y)) && y.right.key > y.key
  {
    var x := y.right;
    var y' := Fix(y.(right := x.left));
    assert RotateLeft(y) == Fix(x.(left := y'));
    assert x.key in Keys(x);
    forall k | k in Keys(x.left) ensures k > y.key {
      assert k in Keys(x);
    }
    assert Sorted(y');
    forall k | k in Keys(y') ensures x.key > k {
      assert k in Keys(x.left) || k == y.key || k in Keys(y.left);
    }
  }

  lemma RotateLeftGet(y: Tree, k: int)
    requires y.Node? && y.right.Node? && y.right.key > y.key
    ensures Get(RotateLeft(y), k) == Get(y, k)
  {
  }

  lemma RotateLeftDistinct(y: Tree)
    requires y.Node? && y.right.Node? && Distinct(y)
    ensures Distinct(RotateLeft(y))
  {
    var x := y.right;
    var y' := Fix(y.(right := x.left));
    assert x.id in Ids(x) && forall k :: k in Ids(x.left) || k in Ids(x.right) ==> k in Ids(x);
    assert Distinct(y') && Ids(y') == Ids(x.left) + {y.id} + Ids(y.left);
    assert RotateLeft(y) == Fix(x.(left := y'));
  }

  lemma RotateLeftSame(y: Tree)
    requires y.Node? && y.right.Node?
    ensures SameEntries(y, RotateLeft(y))
  {
    hide RotateLeft, Keys, Ids, Size, Sorted, Distinct, Get;
    RotateLeftNodes(y);
    if Sorted(y) {
      RotateLeftSorted(y);
      forall k ensures Get(RotateLeft(y), k) == Get(y, k) {
        RotateLeftGet(y, k);
      }
    }
    if Distinct(y) {
      RotateLeftDistinct(y);
    }
  }

  lemma SameTrans(a: Tree, b: Tree, c: Tree)
    requires SameEntries(a, b) && SameEntries(b, c)
    ensures SameEntries(a, c)
  {
  }

  lemma SameLeft(n: Tree, l: Tree)
    requires n.Node? && SameEntries(n.left, l)
    ensures SameEntries(n, n.(left := l))
  {
    var r := n.(left := l);
    assert Keys(r) == Keys(l) + {n.key} + Keys(n.right) && Ids(r) == Ids(l) + {n.id} + Ids(n.right);
  }

  lemma SameRight(n: Tree, x: Tree)
    requires n.Node? && SameEntries(n.right, x)
    ensures SameEntries(n, n.(right := x))
  {
    var r := n.(right := x);
    assert Keys(r) == Keys(n.left) + {n.key} + Keys(x) && Ids(r) == Ids(n.left) + {n.id} + Ids(x);
  }

  lemma TwiceRightSame(n: Tree)
    requires n.Node? && n.left.Node? && n.left.right.Node?
    ensures SameEntries(n, RotateRight(n.(left := RotateLeft(n.left))))
  {
    hide SameEntries, RotateRight, RotateLeft;
    var m := n.(left := RotateLeft(n.left));
    RotateLeftSame(n.left);
    SameLeft(n, RotateLeft(n.left));
    RotateRightSame(m);
    SameTrans(n, m, RotateRight(m));
  }

  lemma TwiceLeftSame(n: Tree)
    requires n.Node? && n.right.Node? && n.right.left.Node?
    ensures SameEntries(n, RotateLeft(n.(right := RotateRight(n.right))))
  {
    hide SameEntries, RotateRight, RotateLeft;
    var m := n.(right := RotateRight(n.right));
    RotateRightSame(n.right);
    SameRight(n, RotateRight(n.right));
    RotateLeftSame(m);
    SameTrans(n, m, RotateLeft(m));
  }

  lemma SameSelf(n: Tree)
    ensures SameEntries(n, n)
  {
  }

  lemma InsertFixSame(n: Tree, k: int)
    requires n.Node?
    ensures SameEntries(n, InsertFix(n, k))
  {
    hide SameEntries, RotateRight, RotateLeft;
    SameSelf(n);
    if Balance(n) > 1 && n.left.Node? {
      RotateRightSame(n);
      if n.left.right.Node? {
        TwiceRightSame(n);
      }
    }
    if Balance(n) < -1 && n.right.Node? {
      RotateLeftSame(n);
      if n.right.left.Node? {
        TwiceLeftSame(n);
      }
    }
  }

  lemma {:induction false} GetKeys(t: Tree, k: int)
    requires Sorted(t)
    ensures Get(t, k).Some? <==> k in Keys(t)
  {
    if t.Node? {
      GetKeys(t.left, k);
      GetKeys(t.right, k);
    }
  }

  ghost predicate AddedIds(t: Tree, r: Tree, id: nat, isNew: bool) {
    && Ids(r) == (if isNew then Ids(t) + {id} else Ids(t))
    && Size(r) == Size(t) + (if isNew then 1 else 0)
    && (Distinct(t) && id !in Ids(t) ==> Distinct(r))
  }

  /** `r` is `t` with the entry `k`, `v` added in a new node, if `k` was not there. */
  ghost predicate Added(t: Tree, r: Tree, k: int, v: int, id: nat) {
    && Sorted(r) && Keys(r) == Keys(t) + {k}
    && (forall x :: Get(r, x) == if x == k && k !in Keys(t) then Some(v) else Get(t, x))
    && AddedIds(t, r, id, k !in Keys(t))
  }

  lemma AddedLeftKeys(t: Tree, l: Tree, k: int)
    requires t.Node? && Sorted(t) && k < t.key && Sorted(l) && Keys(l) == Keys(t.left) + {k}
    ensures var r := Fix(t.(left := l)); Sorted(r) && Keys(r) == Keys(t) + {k} && (k in Keys(t) <==> k in Keys(t.left))
  {
    var r := Fix(t.(left := l));
    assert Keys(r) == Keys(l) + {t.key} + Keys(t.right);
    assert k !in Keys(t.right);
  }

  lemma AddedLeftIds(t: Tree, l: Tree, id: nat, isNew: bool)
    requires t.Node? && AddedIds(t.left, l, id, isNew)
    ensures AddedIds(t, Fix(t.(left := l)), id, isNew)
  {
    var r := Fix(t.(left := l));
    assert Ids(r) == Ids(l) + {t.id} + Ids(t.right);
  }

  lemma AddedLeft(t: Tree, l: Tree, k: int, v: int, id: nat)
    requires t.Node? && Sorted(t) && k < t.key && Added(t.left, l, k, v, id)
    ensures Added(t, Fix(t.(left := l)), k, v, id)
  {
    hide AddedIds;
    AddedLeftKeys(t, l, k);
    AddedLeftIds(t, l, id, k !in Keys(t.left));
    hide Keys, Sorted;
    var r := Fix(t.(left := l));
    forall x ensures Get(r, x) == if x == k && k !in Keys(t) then Some(v) else Get(t, x) {
    }
  }

  lemma AddedRightKeys(t: Tree, l: Tree, k: int)
    requires t.Node? && Sorted(t) && k > t.key && Sorted(l) && Keys(l) == Keys(t.right) + {k}
    ensures var r := Fix(t.(right := l)); Sorted(r) && Keys(r) == Keys(t) + {k} && (k in Keys(t) <==> k in Keys(t.right))
  {
    var r := Fix(t.(right := l));
    assert Keys(r) == Keys(l) + {t.key} + Keys(t.left);
    assert k !in Keys(t.left);
  }

  lemma AddedRightIds(t: Tree, l: Tree, id: nat, isNew: bool)
    requires t.Node? && AddedIds(t.right, l, id, isNew)
    ensures AddedIds(t, Fix(t.(right := l)), id, isNew)
  {
    var r := Fix(t.(right := l));
    assert Ids(r) == Ids(l) + {t.id} + Ids(t.left);
  }

  lemma AddedRight(t: Tree, l: Tree, k: int, v: int, id: nat)
    requires t.Node? && Sorted(t) && k > t.key && Added(t.right, l, k, v, id)
    ensures Added(t, Fix(t.(right := l)), k, v, id)
  {
    hide AddedIds;
    AddedRightKeys(t, l, k);
    AddedRightIds(t, l, id, k !in Keys(t.right));
    hide Keys, Sorted;
    var r := Fix(t.(right := l));
    forall x ensures Get(r, x) == if x == k && k !in Keys(t) then Some(v) else Get(t, x) {
    }
  }

  lemma AddedSame(t: Tree, m: Tree, r: Tree, k: int, v: int, id: nat)
    requires Added(t, m, k, v, id) && SameEntries(m, r)
    ensures Added(t, r, k, v, id)
  {
    hide Keys, Ids, Size, Sorted, Distinct, Get;
  }

  /** Insertion adds exactly the given key, and its value if the key is new. */
  lemma {:induction false} InsertAdds(t: Tree, k: int, v: int, id: nat)
    requires Sorted(t)
    ensures Added(t, Insert(t, k, v, id), k, v, id)
  {
    if t.Node? && k < t.key {
      InsertAdds(t.left, k, v, id);
      var l := Insert(t.left, k, v, id);
      hide Added, Fix, InsertFix, SameEntries;
      AddedLeft(t, l, k, v, id);
      InsertFixSame(Fix(t.(left := l)), k);
      AddedSame(t, Fix(t.(left := l)), Insert(t, k, v, id), k, v, id);
    } else if t.Node? && k > t.key {
      InsertAdds(t.right, k, v, id);
      var x := Insert(t.right, k, v, id);
      AddedRight(t, x, k, v, id);
      InsertFixSame(Fix(t.(right := x)), k);
      AddedSame(t, Fix(t.(right := x)), Insert(t, k, v, id), k, v, id);
    } else if t.Node? {
      assert k in Keys(t);
    } else {
      assert Keys(Leaf) == {} && Ids(Leaf) == {};
    }
  }

  // Removal.

  function MinKey(t: Tree): int
    requires t.Node?
  {
    if t.left.Leaf? then t.key else MinKey(t.left)
  }

  /** The rebalancing of remove_value: which way to turn is decided by the child's balance. */
  function RemoveFix(n: Tree): Tree
    requires n.Node?
  {
    if Balance(n) > 1 && n.left.Node? && Balance(n.left) >= 0 then RotateRight(n)
    else if Balance(n) > 1 && n.left.Node? && n.left.right.Node? then RotateRight(n.(left := RotateLeft(n.left)))
    else if Balance(n) < -1 && n.right.Node? && Balance(n.right) <= 0 then RotateLeft(n)
    else if Balance(n) < -1 && n.right.Node? && n.right.left.Node? then RotateLeft(n.(right := RotateRight(n.right)))
    else n
  }

  /** A node with fewer than two children goes away: its only child's contents move up into it. */
  function Unlinked(t: Tree): Tree
    requires t.Node? && (t.left.Leaf? || t.right.Leaf?)
  {
    var temp := if t.left.Node? then t.left else t.right;
    if temp.Leaf? then Leaf else temp.(id := t.id)
  }

  /** remove_value.  A node with two children takes over the key of its successor, but not the value. */
  function Remove(t: Tree, k: int): Tree
    decreases t
  {
    if t.Leaf? then Leaf
    else if k < t.key then RemoveFix(Fix(t.(left := Remove(t.left, k))))
    else if k > t.key then RemoveFix(Fix(t.(right := Remove(t.right, k))))
    else if t.left.Leaf? || t.right.Leaf? then
      var r := Unlinked(t); if r.Leaf? then Leaf else RemoveFix(Fix(r))
    else
      RemoveFix(Fix(t.(key := MinKey(t.right), right := Remove(t.right, MinKey(t.right)))))
  }

  /** The node that is given back to the pool. */
  function FreedId(t: Tree, k: int): nat
    decreases t
  {
    if t.Leaf? then 0
    else if k < t.key then FreedId(t.left, k)
    else if k > t.key then FreedId(t.right, k)
    else if t.left.Node? && t.right.Node? then FreedId(t.right, MinKey(t.right))
    else if t.left.Node? then t.left.id
    else if t.right.Node? then t.right.id
    else t.id
  }

  /** The node of key `k` has two children. */
  ghost predicate TwoSided(t: Tree, k: int) {
    t.Node? && if k < t.key then TwoSided(t.left, k) else if k > t.key then TwoSided(t.right, k) else t.left.Node? && t.right.Node?
  }

  /** The key that follows `k`, where the node of `k` has two children. */
  ghost function Successor(t: Tree, k: int): int {
    if t.Leaf? then 0
    else if k < t.key then Successor(t.left, k)
    else if k > t.key then Successor(t.right, k)
    else if t.right.Node? then MinKey(t.right) else 0
  }

  /** What is found under `x` after `k` has been removed. */
  ghost function AfterRemove(t: Tree, k: int, x: int): Option<int> {
    if x == k then None else if TwoSided(t, k) && x == Successor(t, k) then Get(t, k) else Get(t, x)
  }

  lemma {:induction false} MinKeyLeast(t: Tree)
    requires t.Node? && Sorted(t)
    ensures MinKey(t) in Keys(t) && !TwoSided(t, MinKey(t)) && forall k :: k in Keys(t) ==> MinKey(t) <= k
  {
    if t.left.Node? {
      MinKeyLeast(t.left);
    }
  }

  ghost predicate Shrunk(t: Tree, r: Tree) {
    Exact(r) && Balanced(r) && H(t) - 1 <= H(r) <= H(t)
  }

  lemma FixShrunk(t: Tree, n: Tree)
    requires t.Node? && n.Node? && Exact(t) && Balanced(t) && Exact(n) && Balanced(n.left) && Balanced(n.right)
    requires -2 <= Balance(n) <= 2 && H(t) - 1 <= H(n) <= H(t) && (Balance(n) == 2 || Balance(n) == -2 ==> H(n) == H(t))
    ensures Shrunk(t, RemoveFix(n))
  {
    hide RotateRight, RotateLeft;
    if Balance(n) == 2 {
      TurnRight(n);
    } else if Balance(n) == -2 {
      TurnLeft(n);
    }
  }

  /** Removal keeps heights exact and the tree balanced. */
  lemma {:induction false} RemoveBalanced(t: Tree, k: int)
    requires Exact(t) && Balanced(t)
    ensures Shrunk(t, Remove(t, k)) || t.Leaf?
    decreases t
  {
    hide RemoveFix;
    if t.Node? {
      HeightNat(t.left);
      HeightNat(t.right);
      if k < t.key {
        RemoveBalanced(t.left, k);
        HeightNat(Remove(t.left, k));
        FixShrunk(t, Fix(t.(left := Remove(t.left, k))));
      } else if k > t.key {
        RemoveBalanced(t.right, k);
        HeightNat(Remove(t.right, k));
        FixShrunk(t, Fix(t.(right := Remove(t.right, k))));
      } else if t.left.Node? && t.right.Node? {
        var m := MinKey(t.right);
        RemoveBalanced(t.right, m);
        HeightNat(Remove(t.right, m));
        FixShrunk(t, Fix(t.(key := m, right := Remove(t.right, m))));
      } else if Unlinked(t).Node? {
        FixShrunk(t, Fix(Unlinked(t)));
      }
    }
  }

  lemma RemoveFixSame(n: Tree)
    requires n.Node?
    ensures SameEntries(n, RemoveFix(n))
  {
    hide SameEntries, RotateRight, RotateLeft;
    SameSelf(n);
    if Balance(n) > 1 && n.left.Node? {
      RotateRightSame(n);
      if n.left.right.Node? {
        TwiceRightSame(n);
      }
    }
    if Balance(n) < -1 && n.right.Node? {
      RotateLeftSame(n);
      if n.right.left.Node? {
        TwiceLeftSame(n);
      }
    }
  }

  ghost predicate DroppedIds(t: Tree, r: Tree, k: int) {
    && FreedId(t, k) in Ids(t) && Size(r) == Size(t) - 1
    && (Distinct(t) ==> Distinct(r) && Ids(r) == Ids(t) - {FreedId(t, k)})
  }

  /** `r` is `t` without the key `k`; the successor of `k` has its value if the node had two children. */
  ghost predicate Dropped(t: Tree, r: Tree, k: int) {
    && Sorted(r) && Keys(r) == Keys(t) - {k}
    && (forall x :: Get(r, x) == AfterRemove(t, k, x))
    && DroppedIds(t, r, k)
  }

  lemma DroppedSame(t: Tree, m: Tree, r: Tree, k: int)
    requires Dropped(t, m, k) && SameEntries(m, r)
    ensures Dropped(t, r, k)
  {
    hide Keys, Ids, Size, Sorted, Distinct, Get, AfterRemove;
  }

  lemma AfterRemoveLeft(t: Tree, k: int, x: int)
    requires t.Node? && Sorted(t) && k < t.key && k in Keys(t.left)
    ensures AfterRemove(t, k, x) == if x < t.key then AfterRemove(t.left, k, x) else Get(t, x)
  {
    SuccessorIn(t.left, k);
  }

  lemma AfterRemoveRight(t: Tree, k: int, x: int)
    requires t.Node? && Sorted(t) && k > t.key && k in Keys(t.right)
    ensures AfterRemove(t, k, x) == if x > t.key then AfterRemove(t.right, k, x) else Get(t, x)
  {
    SuccessorIn(t.right, k);
  }

  lemma {:induction false} SuccessorIn(t: Tree, k: int)
    requires Sorted(t)
    ensures TwoSided(t, k) ==> Successor(t, k) in Keys(t) && Successor(t, k) > k && k in Keys(t)
  {
    if t.Node? {
      SuccessorIn(t.left, k);
      SuccessorIn(t.right, k);
      if t.right.Node? {
        MinKeyLeast(t.right);
      }
    }
  }

  lemma FreedBelow(t: Tree, k: int)
    requires t.Node?
    ensures k < t.key ==> FreedId(t, k) == FreedId(t.left, k)
    ensures k > t.key ==> FreedId(t, k) == FreedId(t.right, k)
  {
  }

  lemma DroppedLeft(t: Tree, l: Tree, k: int)
    requires t.Node? && Sorted(t) && k < t.key && k in Keys(t.left) && Dropped(t.left, l, k)
    ensures Dropped(t, Fix(t.(left := l)), k)
  {
    hide Sorted, Keys, Distinct, Ids, Size;
    var r := Fix(t.(left := l));
    DroppedLeftKeys(t, l, k);
    DroppedLeftIds(t, l, k);
    forall x ensures Get(r, x) == AfterRemove(t, k, x) {
      AfterRemoveLeft(t, k, x);
    }
  }

  lemma DroppedLeftKeys(t: Tree, l: Tree, k: int)
    requires t.Node? && Sorted(t) && k < t.key && k in Keys(t.left) && Sorted(l) && Keys(l) == Keys(t.left) - {k}
    ensures var r := Fix(t.(left := l)); Sorted(r) && Keys(r) == Keys(t) - {k} && k in Keys(t)
  {
    var r := Fix(t.(left := l));
    assert Keys(r) == Keys(l) + {t.key} + Keys(t.right);
    assert k !in Keys(t.right);
  }

  lemma DroppedLeftIds(t: Tree, l: Tree, k: int)
    requires t.Node? && k < t.key && DroppedIds(t.left, l, k)
    ensures DroppedIds(t, Fix(t.(left := l)), k)
  {
    hide FreedId, Keys;
    FreedBelow(t, k);
    var r := Fix(t.(left := l));
    assert Ids(r) == Ids(l) + {t.id} + Ids(t.right);
  }

  lemma DroppedRight(t: Tree, l: Tree, k: int)
    requires t.Node? && Sorted(t) && k > t.key && k in Keys(t.right) && Dropped(t.right, l, k)
    ensures Dropped(t, Fix(t.(right := l)), k)
  {
    hide Sorted, Keys, Distinct, Ids, Size;
    var r := Fix(t.(right := l));
    DroppedRightKeys(t, l, k);
    DroppedRightIds(t, l, k);
    forall x ensures Get(r, x) == AfterRemove(t, k, x) {
      AfterRemoveRight(t, k, x);
    }
  }

  lemma DroppedRightKeys(t: Tree, l: Tree, k: int)
    requires t.Node? && Sorted(t) && k > t.key && k in Keys(t.right) && Sorted(l) && Keys(l) == Keys(t.right) - {k}
    ensures var r := Fix(t.(right := l)); Sorted(r) && Keys(r) == Keys(t) - {k} && k in Keys(t)
  {
    var r := Fix(t.(right := l));
    assert Keys(r) == Keys(l) + {t.key} + Keys(t.left);
    assert k !in Keys(t.left);
  }

  lemma DroppedRightIds(t: Tree, l: Tree, k: int)
    requires t.Node? && k > t.key && DroppedIds(t.right, l, k)
    ensures DroppedIds(t, Fix(t.(right := l)), k)
  {
    hide FreedId, Keys;
    FreedBelow(t, k);
    var r := Fix(t.(right := l));
    assert Ids(r) == Ids(l) + {t.id} + Ids(t.left);
  }

  lemma UnlinkedGet(t: Tree, x: int)
    requires t.Node? && Sorted(t) && (t.left.Leaf? || t.right.Leaf?)
    ensures Get(Unlinked(t), x) == if x == t.key then None else Get(t, x)
  {
    var temp := if t.left.Node? then t.left else t.right;
    GetKeys(temp, x);
    assert Get(Unlinked(t), x) == Get(temp, x);
  }

  lemma UnlinkedIds(t: Tree)
    requires t.Node? && (t.left.Leaf? || t.right.Leaf?)
    ensures DroppedIds(t, Unlinked(t), t.key)
  {
    var temp := if t.left.Node? then t.left else t.right;
    assert Ids(t) == Ids(temp) + {t.id};
    if temp.Node? {
      var r := Unlinked(t);
      assert Ids(r) == Ids(temp.left) + {t.id} + Ids(temp.right);
      assert temp.id in Ids(temp) && FreedId(t, t.key) == temp.id;
      if Distinct(t) {
        assert Distinct(temp) && t.id !in Ids(temp);
      }
    }
  }

  lemma UnlinkedKeys(t: Tree)
    requires t.Node? && Sorted(t) && (t.left.Leaf? || t.right.Leaf?)
    ensures Sorted(Unlinked(t)) && Keys(Unlinked(t)) == Keys(t) - {t.key}
  {
    var temp := if t.left.Node? then t.left else t.right;
    assert Keys(t) == Keys(temp) + {t.key} && t.key !in Keys(temp);
  }

  /** The root goes away by itself. */
  lemma DroppedHere(t: Tree)
    requires t.Node? && Sorted(t) && (t.left.Leaf? || t.right.Leaf?)
    ensures Dropped(t, Unlinked(t), t.key)
  {
    hide Unlinked, Keys, Sorted, Get, DroppedIds;
    UnlinkedKeys(t);
    UnlinkedIds(t);
    forall x ensures Get(Unlinked(t), x) == AfterRemove(t, t.key, x) {
      UnlinkedGet(t, x);
    }
  }

  lemma RaisedKeys(t: Tree, x: Tree, m: int)
    requires t.Node? && Sorted(t) && t.right.Node? && m == MinKey(t.right) && Sorted(x) && Keys(x) == Keys(t.right) - {m}
    ensures var r := Fix(t.(key := m, right := x)); Sorted(r) && Keys(r) == Keys(t) - {t.key} && m > t.key
  {
    MinKeyLeast(t.right);
    var r := Fix(t.(key := m, right := x));
    assert Keys(r) == Keys(t.left) + {m} + Keys(x);
  }

  lemma RaisedIds(t: Tree, x: Tree, m: int)
    requires t.Node? && t.left.Node? && t.right.Node? && m == MinKey(t.right) && DroppedIds(t.right, x, m)
    ensures DroppedIds(t, Fix(t.(key := m, right := x)), t.key)
  {
    var r := Fix(t.(key := m, right := x));
    assert FreedId(t, t.key) == FreedId(t.right, m);
    hide FreedId, MinKey;
    assert Ids(r) == Ids(t.left) + {t.id} + Ids(x);
  }

  lemma RaisedGet(t: Tree, x: Tree, m: int, y: int)
    requires t.Node? && Sorted(t) && t.left.Node? && t.right.Node? && m == MinKey(t.right)
    requires Get(x, y) == AfterRemove(t.right, m, y)
    ensures Get(Fix(t.(key := m, right := x)), y) == AfterRemove(t, t.key, y)
  {
    MinKeyLeast(t.right);
    GetKeys(t.right, y);
    GetKeys(t.left, y);
  }

  /** The root takes over the key of its successor, which goes away below it. */
  lemma DroppedAbove(t: Tree, x: Tree, m: int)
    requires t.Node? && Sorted(t) && t.left.Node? && t.right.Node? && m == MinKey(t.right) && Dropped(t.right, x, m)
    ensures Dropped(t, Fix(t.(key := m, right := x)), t.key)
  {
    hide Keys, Sorted, Get, DroppedIds, AfterRemove, Fix;
    RaisedKeys(t, x, m);
    RaisedIds(t, x, m);
    var r := Fix(t.(key := m, right := x));
    forall y ensures Get(r, y) == AfterRemove(t, t.key, y) {
      RaisedGet(t, x, m, y);
    }
  }

  /** Removal takes away exactly the given key. */
  lemma {:induction false} RemoveDrops(t: Tree, k: int)
    requires Sorted(t) && k in Keys(t)
    ensures Dropped(t, Remove(t, k), k)
    decreases t
  {
    hide Dropped, RemoveFix, Fix, SameEntries, Unlinked;
    if k < t.key {
      RemoveDrops(t.left, k);
      var n := Fix(t.(left := Remove(t.left, k)));
      DroppedLeft(t, Remove(t.left, k), k);
      RemoveFixSame(n);
      DroppedSame(t, n, RemoveFix(n), k);
    } else if k > t.key {
      RemoveDrops(t.right, k);
      var n := Fix(t.(right := Remove(t.right, k)));
      DroppedRight(t, Remove(t.right, k), k);
      RemoveFixSame(n);
      DroppedSame(t, n, RemoveFix(n), k);
    } else if t.left.Node? && t.right.Node? {
      var m := MinKey(t.right);
      MinKeyLeast(t.right);
      RemoveDrops(t.right, m);
      var n := Fix(t.(key := m, right := Remove(t.right, m)));
      DroppedAbove(t, Remove(t.right, m), m);
      RemoveFixSame(n);
      DroppedSame(t, n, RemoveFix(n), k);
    } else {
      DroppedHere(t);
      if Unlinked(t).Node? {
        var n := Fix(Unlinked(t));
        FixSame(Unlinked(t));
        RemoveFixSame(n);
        SameTrans(Unlinked(t), n, RemoveFix(n));
        DroppedSame(t, Unlinked(t), RemoveFix(n), k);
      }
    }
  }

  lemma FixSame(t: Tree)
    requires t.Node?
    ensures SameEntries(t, Fix(t))
  {
  }

  /** As a finite map the removal is exact unless the node had two children and its successor held
      another value. */
  lemma RemoveExactly(t: Tree, k: int)
    requires Sorted(t) && k in Keys(t)
    ensures (forall x :: Get(Remove(t, k), x) == if x == k then None else Get(t, x)) <==>
            !(TwoSided(t, k) && Get(t, Successor(t, k)) != Get(t, k))
  {
    hide Sorted, Keys, Get, Remove;
    RemoveDrops(t, k);
    SuccessorIn(t, k);
    if TwoSided(t, k) {
      var s := Successor(t, k);
      assert Get(Remove(t, k), s) == AfterRemove(t, k, s);
    }
  }

  /** A removal that is not exact: key 3 is left with what key 2 had. */
  lemma RemoveSwapsValue()
    ensures var t := Node(0, 2, 20, 2, Node(1, 1, 10, 1, Leaf, Leaf), Node(2, 3, 30, 1, Leaf, Leaf));
      Sorted(t) && Get(t, 3) == Some(30) && Get(Remove(t, 2), 3) == Some(20)
  {
    hide Remove;
    var t := Node(0, 2, 20, 2, Node(1, 1, 10, 1, Leaf, Leaf), Node(2, 3, 30, 1, Leaf, Leaf));
    assert Keys(t) == {1, 2, 3};
    RemoveDrops(t, 2);
    assert Get(Remove(t, 2), 3) == AfterRemove(t, 2, 3);
  }

  /** A middle key first, then one on either side: the middle node has two children. */
  lemma ThreeInserted(a: int, b: int, c: int, x: int, y: int, z: int, i: nat, j: nat, k: nat)
    requires a < b < c
    ensures var t := Insert(Insert(Insert(Leaf, b, x, i), a, y, j), c, z, k);
      TwoSided(t, b) && Successor(t, b) == c && Get(t, b) == Some(x) && Sorted(t) && b in Keys(t)
  {
    var l, r := Node(j, a, y, 1, Leaf, Leaf), Node(k, c, z, 1, Leaf, Leaf);
    var t1 := Node(i, b, x, 1, Leaf, Leaf);
    assert Insert(Leaf, b, x, i) == t1;
    var t2 := Node(i, b, x, 2, l, Leaf);
    assert Insert(Leaf, a, y, j) == l;
    assert Insert(t1, a, y, j) == t2;
    assert Insert(Leaf, c, z, k) == r;
    assert Insert(t2, c, z, k) == Node(i, b, x, 2, l, r);
  }
}
