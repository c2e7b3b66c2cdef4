/** The index of the name server as it lies in memory: nodes from a fixed pool, linked in place
    into the AVL tree of module AvlTree. */
module StringMap {
  import opened Lists
  import opened AvlTree

  datatype Cell = Cell(key: int, value: int, height: int, left: Option<nat>, right: Option<nat>)

  function Root(t: Tree): Option<nat> { if t.Leaf? then None else Some(t.id) }

  /** The linked nodes form the tree `t`. */
  ghost predicate Is(nodes: seq<Cell>, t: Tree) {
    t.Node? ==>
      && t.id < |nodes| && nodes[t.id] == Cell(t.key, t.value, t.height, Root(t.left), Root(t.right))
      && Is(nodes, t.left) && Is(nodes, t.right)
  }

  /** Only nodes in `ids` have changed. */
  ghost predicate Only(nodes: seq<Cell>, nodes': seq<Cell>, ids: set<nat>) {
    |nodes'| == |nodes| && forall i :: 0 <= i < |nodes| && i !in ids ==> nodes'[i] == nodes[i]
  }

  lemma {:induction false} IsApart(nodes: seq<Cell>, nodes': seq<Cell>, t: Tree, ids: set<nat>)
    requires Is(nodes, t) && Only(nodes, nodes', ids) && Ids(t) !! ids
    ensures Is(nodes', t)
  {
    if t.Node? {
      IsApart(nodes, nodes', t.left, ids);
      IsApart(nodes, nodes', t.right, ids);
    }
  }

  lemma OnlyWider(a: seq<Cell>, b: seq<Cell>, ids: set<nat>, more: set<nat>)
    requires Only(a, b, ids) && ids <= more
    ensures Only(a, b, more)
  {
  }

  /** One node is rewritten and its children are in place: the node heads the tree it names. */
  lemma IsNode(nodes: seq<Cell>, nodes': seq<Cell>, t: Tree)
    requires t.Node? && t.id < |nodes| && Is(nodes, t.left) && Is(nodes, t.right)
    requires nodes' == nodes[t.id := Cell(t.key, t.value, t.height, Root(t.left), Root(t.right))]
    requires t.id !in Ids(t.left) && t.id !in Ids(t.right)
    ensures Is(nodes', t)
  {
    IsApart(nodes, nodes', t.left, {t.id});
    IsApart(nodes, nodes', t.right, {t.id});
  }

  class SiMap {
    var nodes: seq<Cell>
    var free: seq<nat>          // the pool's free list, head first
    var root: Option<nat>
    ghost var tree: Tree

    function Height(p: Option<nat>): int
      reads this
      requires p.Some? ==> p.value < |nodes|
    {
      if p.None? then 0 else nodes[p.value].height
    }

    /** Works out the height of node `p` from its children. */
    method FixNode(p: nat, ghost t: Tree)
      requires t.Node? && t.id == p && Is(nodes, t) && Distinct(t)
      modifies `nodes
      ensures Is(nodes, Fix(t)) && Only(old(nodes), nodes, {p})
    {
      var c := nodes[p];
      var l, r := Height(c.left), Height(c.right);
      nodes := nodes[p := c.(height := 1 + if l > r then l else r)];
      IsNode(old(nodes), nodes, Fix(t));
    }

    method RotateRightAt(y: nat, ghost t: Tree) returns (x: nat)
      requires t.Node? && t.id == y && t.left.Node? && Is(nodes, t) && Distinct(t)
      modifies `nodes
      ensures x == RotateRight(t).id && Is(nodes, RotateRight(t)) && Only(old(nodes), nodes, {t.id, t.left.id})
    {
      x := nodes[y].left.value;
      var t2 := nodes[x].right;
      ghost var ty := t.(left := t.left.right);
      ghost var tx := t.left.(right := Fix(ty));
      ghost var a := nodes;
      nodes := nodes[x := nodes[x].(right := Some(y))];
      IsApart(a, nodes, t.left.right, {x});
      IsApart(a, nodes, t.left.left, {x});
      IsApart(a, nodes, t.right, {x});
      ghost var b := nodes;
      nodes := nodes[y := nodes[y].(left := t2)];
      IsNode(b, nodes, ty);
      IsApart(b, nodes, t.left.left, {y});
      ghost var c := nodes;
      FixNode(y, ty);
      IsApart(c, nodes, t.left.left, {y});
      assert Ids(Fix(ty)) == Ids(t.left.right) + {y} + Ids(t.right);
      assert Is(nodes, tx);
      FixNode(x, tx);
    }

    method RotateLeftAt(y: nat, ghost t: Tree) returns (x: nat)
      requires t.Node? && t.id == y && t.right.Node? && Is(nodes, t) && Distinct(t)
      modifies `nodes
      ensures x == RotateLeft(t).id && Is(nodes, RotateLeft(t)) && Only(old(nodes), nodes, {t.id, t.right.id})
    {
      x := nodes[y].right.value;
      var t2 := nodes[x].left;
      ghost var ty := t.(right := t.right.left);
      ghost var tx := t.right.(left := Fix(ty));
      ghost var a := nodes;
      nodes := nodes[x := nodes[x].(left := Some(y))];
      IsApart(a, nodes, t.right.left, {x});
      IsApart(a, nodes, t.right.right, {x});
      IsApart(a, nodes, t.left, {x});
      ghost var b := nodes;
      nodes := nodes[y := nodes[y].(right := t2)];
      IsNode(b, nodes, ty);
      IsApart(b, nodes, t.right.right, {y});
      ghost var c := nodes;
      FixNode(y, ty);
      IsApart(c, nodes, t.right.right, {y});
      assert Ids(Fix(ty)) == Ids(t.right.left) + {y} + Ids(t.left);
      assert Is(nodes, tx);
      FixNode(x, tx);
    }

    /** Node `p` has a new left child; its height is worked out again. */
    method SetLeft(p: nat, l: Option<nat>, ghost t: Tree, ghost lt: Tree)
      requires t.Node? && t.id == p < |nodes| && nodes[p] == Cell(t.key, t.value, t.height, Root(t.left), Root(t.right))
      requires Is(nodes, lt) && l == Root(lt) && Is(nodes, t.right) && Distinct(t.(left := lt))
      modifies `nodes
      ensures Is(nodes, Fix(t.(left := lt))) && Only(old(nodes), nodes, {p})
    {
      nodes := nodes[p := nodes[p].(left := l)];
      IsNode(old(nodes), nodes, t.(left := lt));
      FixNode(p, t.(left := lt));
    }

    /** Node `p` has a new right child; its height is worked out again. */
    method SetRight(p: nat, l: Option<nat>, ghost t: Tree, ghost lt: Tree)
      requires t.Node? && t.id == p < |nodes| && nodes[p] == Cell(t.key, t.value, t.height, Root(t.left), Root(t.right))
      requires Is(nodes, lt) && l == Root(lt) && Is(nodes, t.left) && Distinct(t.(right := lt))
      modifies `nodes
      ensures Is(nodes, Fix(t.(right := lt))) && Only(old(nodes), nodes, {p})
    {
      nodes := nodes[p := nodes[p].(right := l)];
      IsNode(old(nodes), nodes, t.(right := lt));
      FixNode(p, t.(right := lt));
    }

    /** A left turn below and a right turn here. */
    method TurnTwiceRight(p: nat, ghost n: Tree) returns (r: nat)
      requires n.Node? && n.id == p && Is(nodes, n) && Distinct(n) && n.left.Node? && n.left.right.Node?
      modifies `nodes
      ensures var t := RotateRight(n.(left := RotateLeft(n.left)));
        r == t.id && Is(nodes, t) && Only(old(nodes), nodes, Ids(n))
    {
      hide RotateLeft, RotateRight, SameEntries;
      RootIds(n);
      RootIds(n.left);
      ghost var lt := RotateLeft(n.left);
      RotateLeftSame(n.left);
      TurnedLeft(n, lt);
      ghost var a := nodes;
      var l := RotateLeftAt(nodes[p].left.value, n.left);
      IsApart(a, nodes, n.right, {n.left.id, n.left.right.id});
      ghost var b := nodes;
      nodes := nodes[p := nodes[p].(left := Some(l))];
      ghost var m := n.(left := lt);
      IsNode(b, nodes, m);
      ghost var c := nodes;
      r := RotateRightAt(p, m);
      RootIds(m);
      OnlyWider(c, nodes, {p, lt.id}, Ids(n));
    }

    /** A right turn below and a left turn here. */
    method TurnTwiceLeft(p: nat, ghost n: Tree) returns (r: nat)
      requires n.Node? && n.id == p && Is(nodes, n) && Distinct(n) && n.right.Node? && n.right.left.Node?
      modifies `nodes
      ensures var t := RotateLeft(n.(right := RotateRight(n.right)));
        r == t.id && Is(nodes, t) && Only(old(nodes), nodes, Ids(n))
    {
      hide RotateRight, RotateLeft, SameEntries;
      RootIds(n);
      RootIds(n.right);
      ghost var lt := RotateRight(n.right);
      RotateRightSame(n.right);
      TurnedRight(n, lt);
      ghost var a := nodes;
      var l := RotateRightAt(nodes[p].right.value, n.right);
      IsApart(a, nodes, n.left, {n.right.id, n.right.left.id});
      ghost var b := nodes;
      nodes := nodes[p := nodes[p].(right := Some(l))];
      ghost var m := n.(right := lt);
      IsNode(b, nodes, m);
      ghost var c := nodes;
      r := RotateLeftAt(p, m);
      RootIds(m);
      OnlyWider(c, nodes, {p, lt.id}, Ids(n));
    }

    /** The rebalancing of insert_value. */
    method InsertBalance(p: nat, k: int, ghost n: Tree) returns (r: nat)
      requires n.Node? && n.id == p && Is(nodes, n) && Distinct(n)
      requires Balance(n) > 1 ==> n.left.Node? && (k > n.left.key ==> n.left.right.Node?)
      requires Balance(n) < -1 ==> n.right.Node? && (k < n.right.key ==> n.right.left.Node?)
      modifies `nodes
      ensures r == InsertFix(n, k).id && Is(nodes, InsertFix(n, k)) && Only(old(nodes), nodes, Ids(n))
    {
      hide RotateLeft, RotateRight, Is, Distinct;
      RootIds(n);
      KnownNode(nodes, n);
      var c := nodes[p];
      var balance := Height(c.left) - Height(c.right);
      if balance > 1 {
        if k < nodes[c.left.value].key {
          r := RotateRightAt(p, n);
          return;
        }
        if k > nodes[c.left.value].key {
          r := TurnTwiceRight(p, n);
          return;
        }
      }
      if balance < -1 {
        if k > nodes[c.right.value].key {
          r := RotateLeftAt(p, n);
          return;
        }
        if k < nodes[c.right.value].key {
          r := TurnTwiceLeft(p, n);
          return;
        }
      }
      r := p;
    }

    /** insert_value: the subtree at `p`, which is `t`, gets the entry in a node from the pool. */
    method InsertValue(p: Option<nat>, k: int, v: int, ghost t: Tree, ghost id: nat) returns (r: Option<nat>)
      requires Is(nodes, t) && p == Root(t) && Distinct(t) && Avl(t)
      requires free != [] && free[0] == id && id < |nodes| && id !in Ids(t)
      modifies `nodes, `free
      ensures Is(nodes, Insert(t, k, v, id)) && r == Root(Insert(t, k, v, id)) && Only(old(nodes), nodes, Ids(t) + {id})
      ensures free == if k in Keys(t) then old(free) else old(free)[1..]
      decreases t, 1
    {
      if p.None? {
        var node := free[0];
        free := free[1..];
        nodes := nodes[node := Cell(k, v, 1, None, None)];
        return Some(node);
      }
      hide Insert, Avl, Distinct, Ids;
      KnownNode(nodes, t);
      InsertHere(t, k, v, id);
      var q;
      if k < nodes[p.value].key {
        q := InsertLeft(p.value, k, v, t, id);
        return Some(q);
      }
      if k > nodes[p.value].key {
        q := InsertRight(p.value, k, v, t, id);
        return Some(q);
      }
      return p;
    }

    method InsertLeft(p: nat, k: int, v: int, ghost t: Tree, ghost id: nat) returns (r: nat)
      requires t.Node? && t.id == p && Is(nodes, t) && Distinct(t) && Avl(t) && k < t.key
      requires free != [] && free[0] == id && id < |nodes| && id !in Ids(t)
      modifies `nodes, `free
      ensures Is(nodes, Insert(t, k, v, id)) && r == Insert(t, k, v, id).id && Only(old(nodes), nodes, Ids(t) + {id})
      ensures free == if k in Keys(t) then old(free) else old(free)[1..]
      decreases t, 0
    {
      hide Insert, InsertFix, Keys, Avl, Distinct, Ids;
      InsertLeftFacts(t, k, v, id);
      ghost var a, lt := nodes, Insert(t.left, k, v, id);
      ghost var n := Fix(t.(left := lt));
      var l := InsertValue(nodes[p].left, k, v, t.left, id);
      IsApart(a, nodes, t.right, Ids(t.left) + {id});
      SetLeft(p, l, t, lt);
      r := InsertBalance(p, k, n);
    }

    method InsertRight(p: nat, k: int, v: int, ghost t: Tree, ghost id: nat) returns (r: nat)
      requires t.Node? && t.id == p && Is(nodes, t) && Distinct(t) && Avl(t) && k > t.key
      requires free != [] && free[0] == id && id < |nodes| && id !in Ids(t)
      modifies `nodes, `free
      ensures Is(nodes, Insert(t, k, v, id)) && r == Insert(t, k, v, id).id && Only(old(nodes), nodes, Ids(t) + {id})
      ensures free == if k in Keys(t) then old(free) else old(free)[1..]
      decreases t, 0
    {
      hide Insert, InsertFix, Keys, Avl, Distinct, Ids;
      InsertRightFacts(t, k, v, id);
      ghost var a, lt := nodes, Insert(t.right, k, v, id);
      ghost var n := Fix(t.(right := lt));
      var l := InsertValue(nodes[p].right, k, v, t.right, id);
      IsApart(a, nodes, t.left, Ids(t.right) + {id});
      SetRight(p, l, t, lt);
      r := InsertBalance(p, k, n);
    }

    /** The rebalancing of remove_value. */
    method RemoveBalance(p: nat, ghost n: Tree) returns (r: Option<nat>)
      requires n.Node? && n.id == p && Is(nodes, n) && Distinct(n) && Turnable(n)
      modifies `nodes
      ensures Is(nodes, RemoveFix(n)) && r == Root(RemoveFix(n)) && Only(old(nodes), nodes, Ids(n))
    {
      hide RotateLeft, RotateRight, Is, Distinct;
      RootIds(n);
      KnownNode(nodes, n);
      var c := nodes[p];
      var balance := Height(c.left) - Height(c.right);
      var q := p;
      if balance > 1 {
        KnownChild(nodes, n, n.left);
        var l := nodes[c.left.value];
        if Height(l.left) - Height(l.right) >= 0 {
          q := RotateRightAt(p, n);
        } else {
          q := TurnTwiceRight(p, n);
        }
      } else if balance < -1 {
        KnownChild(nodes, n, n.right);
        var x := nodes[c.right.value];
        if Height(x.left) - Height(x.right) <= 0 {
          q := RotateLeftAt(p, n);
        } else {
          q := TurnTwiceLeft(p, n);
        }
      }
      return Some(q);
    }

    /** min_value_node */
    method MinNode(p: nat, ghost t: Tree) returns (m: nat)
      requires t.Node? && t.id == p && Is(nodes, t)
      ensures m < |nodes| && nodes[m].key == MinKey(t)
    {
      m := p;
      ghost var s := t;
      while nodes[m].left.Some?
        invariant s.Node? && s.id == m < |nodes| && Is(nodes, s) && MinKey(s) == MinKey(t)
        decreases s
      {
        m := nodes[m].left.value;
        s := s.left;
      }
    }

    /** remove_value, for a key that is there; one node goes back to the pool. */
    method RemoveValue(p: Option<nat>, k: int, ghost t: Tree) returns (r: Option<nat>)
      requires Is(nodes, t) && p == Root(t) && Distinct(t) && Avl(t) && k in Keys(t)
      modifies `nodes, `free
      ensures Is(nodes, Remove(t, k)) && r == Root(Remove(t, k)) && Only(old(nodes), nodes, Ids(t))
      ensures free == [FreedId(t, k)] + old(free)
      decreases t, 1
    {
      hide Remove, Avl, Distinct, Ids, FreedId;
      KnownNode(nodes, t);
      var c := nodes[p.value];
      if k < c.key {
        r := RemoveLeft(p.value, k, t);
      } else if k > c.key {
        r := RemoveRight(p.value, k, t);
      } else if c.left.None? || c.right.None? {
        r := RemoveOne(p.value, t);
      } else {
        r := RemoveTwo(p.value, t);
      }
    }

    method RemoveLeft(p: nat, k: int, ghost t: Tree) returns (r: Option<nat>)
      requires t.Node? && t.id == p && Is(nodes, t) && Distinct(t) && Avl(t) && k < t.key && k in Keys(t)
      modifies `nodes, `free
      ensures Is(nodes, Remove(t, k)) && r == Root(Remove(t, k)) && Only(old(nodes), nodes, Ids(t))
      ensures free == [FreedId(t, k)] + old(free)
      decreases t, 0
    {
      hide Remove, RemoveFix, Keys, Avl, Distinct, Ids, FreedId;
      RemoveLeftFacts(t, k);
      ghost var a, lt := nodes, Remove(t.left, k);
      var l := RemoveValue(nodes[p].left, k, t.left);
      IsApart(a, nodes, t.right, Ids(t.left));
      SetLeft(p, l, t, lt);
      r := RemoveBalance(p, Fix(t.(left := lt)));
    }

    method RemoveRight(p: nat, k: int, ghost t: Tree) returns (r: Option<nat>)
      requires t.Node? && t.id == p && Is(nodes, t) && Distinct(t) && Avl(t) && k > t.key && k in Keys(t)
      modifies `nodes, `free
      ensures Is(nodes, Remove(t, k)) && r == Root(Remove(t, k)) && Only(old(nodes), nodes, Ids(t))
      ensures free == [FreedId(t, k)] + old(free)
      decreases t, 0
    {
      hide Remove, RemoveFix, Keys, Avl, Distinct, Ids, FreedId;
      RemoveRightFacts(t, k);
      ghost var a, lt := nodes, Remove(t.right, k);
      var l := RemoveValue(nodes[p].right, k, t.right);
      IsApart(a, nodes, t.left, Ids(t.right));
      SetRight(p, l, t, lt);
      r := RemoveBalance(p, Fix(t.(right := lt)));
    }

    /** The node itself goes, or takes over the contents of its only child, which goes instead. */
    method RemoveOne(p: nat, ghost t: Tree) returns (r: Option<nat>)
      requires t.Node? && t.id == p && Is(nodes, t) && Distinct(t) && Avl(t) && (t.left.Leaf? || t.right.Leaf?)
      modifies `nodes, `free
      ensures Is(nodes, Remove(t, t.key)) && r == Root(Remove(t, t.key)) && Only(old(nodes), nodes, Ids(t))
      ensures free == [FreedId(t, t.key)] + old(free)
    {
      hide RemoveFix, Avl;
      var c := nodes[p];
      var temp := if c.left.Some? then c.left else c.right;
      if temp.None? {
        free := [p] + free;
        return None;
      }
      RemoveOneFacts(t);
      ghost var u := Unlinked(t);
      var child := nodes[temp.value];
      nodes := nodes[p := child];
      free := [temp.value] + free;
      IsNode(old(nodes), nodes, u);
      FixNode(p, u);
      r := RemoveBalance(p, Fix(u));
    }

    /** The node takes over the key of its successor, which goes away in the right subtree. */
    method RemoveTwo(p: nat, ghost t: Tree) returns (r: Option<nat>)
      requires t.Node? && t.id == p && Is(nodes, t) && Distinct(t) && Avl(t) && t.left.Node? && t.right.Node?
      modifies `nodes, `free
      ensures Is(nodes, Remove(t, t.key)) && r == Root(Remove(t, t.key)) && Only(old(nodes), nodes, Ids(t))
      ensures free == [FreedId(t, t.key)] + old(free)
      decreases t, 0
    {
      hide Remove, RemoveFix, Keys, Avl, Distinct, Ids, FreedId, MinKey;
      RemoveTwoFacts(t);
      var m := MinNode(nodes[p].right.value, t.right);
      var k := nodes[m].key;
      ghost var t1, rt := t.(key := k), Remove(t.right, k);
      nodes := nodes[p := nodes[p].(key := k)];
      IsApart(old(nodes), nodes, t.left, {p});
      IsApart(old(nodes), nodes, t.right, {p});
      ghost var a := nodes;
      var x := RemoveValue(nodes[p].right, k, t.right);
      IsApart(a, nodes, t.left, Ids(t.right));
      SetRight(p, x, t1, rt);
      r := RemoveBalance(p, Fix(t1.(right := rt)));
    }

    ghost predicate Valid()
      reads this
    {
      && Is(nodes, tree) && root == Root(tree) && Avl(tree) && Distinct(tree)
      && NoDup(free) && |free| + Size(tree) == |nodes|
      && forall i :: i in free <==> 0 <= i < |nodes| && i !in Ids(tree)
    }

    /** simap_init over a fresh pool of `n` nodes. */
    constructor (n: nat)
      ensures Valid() && tree == Leaf && |nodes| == n && |free| == n
    {
      nodes := seq(n, _ => Cell(0, 0, 0, None, None));
      free := seq(n, i => i);
      root, tree := None, Leaf;
      new;
      forall i | 0 <= i < n ensures i in free {
        assert free[i] == i;
      }
    }

    /** simap_get_value: the search finds what the tree holds under the key. */
    method GetValue(k: int) returns (r: Option<int>)
      requires Valid()
      ensures r == Get(tree, k)
    {
      var p := root;
      ghost var t := tree;
      while p.Some?
        invariant Is(nodes, t) && p == Root(t) && Get(t, k) == Get(tree, k)
        decreases t
      {
        var c := nodes[p.value];
        if k < c.key {
          p, t := c.left, t.left;
        } else if k > c.key {
          p, t := c.right, t.right;
        } else {
          return Some(c.value);
        }
      }
      return None;
    }

    /** simap_set_value: a new key is added unless the pool is empty; a known key is refused. */
    method SetValue(k: int, v: int) returns (code: Code)
      requires Valid()
      modifies this
      ensures Valid() && |nodes| == |old(nodes)|
      ensures code == if old(free) == [] then Again else if k in Keys(old(tree)) then Busy else Ok
      ensures code != Ok ==> tree == old(tree) && free == old(free)
      ensures code == Ok ==>
        && old(free) != [] && tree == Insert(old(tree), k, v, old(free)[0]) && |free| == |old(free)| - 1
        && Keys(tree) == Keys(old(tree)) + {k}
        && forall x :: Get(tree, x) == if x == k then Some(v) else Get(old(tree), x)
    {
      hide Is, Distinct, Avl, Insert, AvlTree.Sorted, Exact, Balanced, Ids, Keys, Size;
      if free == [] {
        return Again;
      }
      var found := GetValue(k);
      AvlParts(tree);
      GetKeys(tree, k);
      if found.Some? {
        return Busy;
      }
      ghost var id := free[0];
      InsertKeeps(tree, k, v, id);
      var r := InsertValue(root, k, v, tree, id);
      root := r;
      tree := Insert(tree, k, v, id);
      PoolTaken(old(free), |nodes|, Ids(old(tree)), Ids(tree));
      return Ok;
    }

    /** simap_clear: the key goes, and its node goes back to the pool. */
    method Clear(k: int) returns (code: Code)
      requires Valid()
      modifies this
      ensures Valid() && |nodes| == |old(nodes)|
      ensures code == if k in Keys(old(tree)) then Ok else NoEntry
      ensures code != Ok ==> tree == old(tree) && free == old(free)
      ensures code == Ok ==>
        && tree == Remove(old(tree), k) && |free| == |old(free)| + 1
        && Keys(tree) == Keys(old(tree)) - {k}
        && forall x :: Get(tree, x) == AfterRemove(old(tree), k, x)
    {
      hide Is, Distinct, Avl, Remove, AvlTree.Sorted, Exact, Balanced, Ids, Keys, Size, AfterRemove, FreedId;
      var found := GetValue(k);
      AvlParts(tree);
      GetKeys(tree, k);
      if found.None? {
        return NoEntry;
      }
      RemoveKeeps(tree, k);
      IdsInside(nodes, tree);
      var r := RemoveValue(root, k, tree);
      root := r;
      tree := Remove(tree, k);
      PoolGiven(old(free), |nodes|, Ids(old(tree)), Ids(tree), FreedId(old(tree), k));
      return Ok;
    }

    /** No search in a pool of sixteen nodes takes more than five steps down. */
    lemma Shallow()
      requires Valid() && |nodes| == 16
      ensures H(tree) <= 5
    {
      DepthBound(tree);
    }
  }

  datatype Code = Ok | Again | Busy | NoEntry

  lemma {:induction false} IdsInside(nodes: seq<Cell>, t: Tree)
    requires Is(nodes, t)
    ensures forall i :: i in Ids(t) ==> i < |nodes|
  {
    if t.Node? {
      IdsInside(nodes, t.left);
      IdsInside(nodes, t.right);
    }
  }

  lemma AvlParts(t: Tree)
    requires Avl(t)
    ensures AvlTree.Sorted(t) && Exact(t) && Balanced(t)
  {
  }

  lemma InsertKeeps(t: Tree, k: int, v: int, id: nat)
    requires Avl(t) && k !in Keys(t) && Distinct(t) && id !in Ids(t)
    ensures var r := Insert(t, k, v, id);
      && Avl(r) && Distinct(r) && Keys(r) == Keys(t) + {k} && Ids(r) == Ids(t) + {id} && Size(r) == Size(t) + 1
      && forall x :: Get(r, x) == if x == k then Some(v) else Get(t, x)
  {
    hide Insert, Keys, Ids, Size, Get, AvlTree.Sorted, Exact, Balanced, Distinct;
    InsertAdds(t, k, v, id);
    InsertBalanced(t, k, v, id);
  }

  lemma RemoveKeeps(t: Tree, k: int)
    requires Avl(t) && k in Keys(t) && Distinct(t)
    ensures var r := Remove(t, k);
      && Avl(r) && Distinct(r) && Keys(r) == Keys(t) - {k} && Ids(r) == Ids(t) - {FreedId(t, k)} && FreedId(t, k) in Ids(t)
      && Size(r) == Size(t) - 1 && forall x :: Get(r, x) == AfterRemove(t, k, x)
  {
    hide Remove, Ids, Size, Get, AvlTree.Sorted, Exact, Balanced, Distinct, FreedId, AfterRemove;
    RemoveDrops(t, k);
    RemoveBalanced(t, k);
  }

  lemma PoolTaken(free: seq<nat>, n: nat, ids: set<nat>, ids': set<nat>)
    requires NoDup(free) && free != [] && (forall i :: i in free <==> 0 <= i < n && i !in ids) && ids' == ids + {free[0]}
    ensures NoDup(free[1..]) && forall i :: i in free[1..] <==> 0 <= i < n && i !in ids'
  {
    assert free == [free[0]] + free[1..];
    assert free[0] !in free[1..];
  }

  lemma PoolGiven(free: seq<nat>, n: nat, ids: set<nat>, ids': set<nat>, id: nat)
    requires NoDup(free) && (forall i :: i in free <==> 0 <= i < n && i !in ids) && id in ids && id < n && ids' == ids - {id}
    ensures NoDup([id] + free) && forall i :: i in [id] + free <==> 0 <= i < n && i !in ids'
  {
    assert id !in free;
  }

  /** The turns that remove_value may ask for can be made. */
  ghost predicate Turnable(n: Tree)
    requires n.Node?
  {
    && (Balance(n) > 1 ==> n.left.Node? && (Balance(n.left) < 0 ==> n.left.right.Node?))
    && (Balance(n) < -1 ==> n.right.Node? && (Balance(n.right) > 0 ==> n.right.left.Node?))
  }

  lemma TurnableIf(n: Tree)
    requires n.Node? && Exact(n.left) && Exact(n.right)
    ensures Turnable(n)
  {
    HeightNat(n.left);
    HeightNat(n.right);
    if n.left.Node? {
      HeightNat(n.left.left);
    }
    if n.right.Node? {
      HeightNat(n.right.right);
    }
  }

  lemma KnownChild(nodes: seq<Cell>, n: Tree, c: Tree)
    requires n.Node? && Is(nodes, n) && c.Node? && (c == n.left || c == n.right)
    ensures c.id < |nodes| && nodes[c.id] == Cell(c.key, c.value, c.height, Root(c.left), Root(c.right))
    ensures c.left.Node? ==> c.left.id < |nodes| && nodes[c.left.id].height == H(c.left)
    ensures c.right.Node? ==> c.right.id < |nodes| && nodes[c.right.id].height == H(c.right)
  {
    KnownNode(nodes, c);
  }

  lemma RemoveLeftFacts(t: Tree, k: int)
    requires t.Node? && Distinct(t) && Avl(t) && k < t.key && k in Keys(t)
    ensures Avl(t.left) && Distinct(t.left) && k in Keys(t.left) && t.id in Ids(t) && FreedId(t, k) == FreedId(t.left, k)
    ensures Ids(t.left) <= Ids(t) && t.id !in Ids(t.left) && Ids(t.right) !! Ids(t.left)
    ensures var lt := Remove(t.left, k);
      var n := Fix(t.(left := lt));
      Distinct(t.(left := lt)) && Distinct(n) && Ids(n) <= Ids(t) && Remove(t, k) == RemoveFix(n) && Turnable(n)
  {
    hide RemoveFix, FreedId;
    var lt := Remove(t.left, k);
    assert k !in Keys(t.right);
    FreedBelow(t, k);
    RemoveDrops(t.left, k);
    RemoveBalanced(t.left, k);
    HeightNat(t.right);
    assert Ids(t.(left := lt)) == Ids(lt) + {t.id} + Ids(t.right);
    TurnableIf(Fix(t.(left := lt)));
  }

  lemma RemoveRightFacts(t: Tree, k: int)
    requires t.Node? && Distinct(t) && Avl(t) && k > t.key && k in Keys(t)
    ensures Avl(t.right) && Distinct(t.right) && k in Keys(t.right) && t.id in Ids(t) && FreedId(t, k) == FreedId(t.right, k)
    ensures Ids(t.right) <= Ids(t) && t.id !in Ids(t.right) && Ids(t.left) !! Ids(t.right)
    ensures var lt := Remove(t.right, k);
      var n := Fix(t.(right := lt));
      Distinct(t.(right := lt)) && Distinct(n) && Ids(n) <= Ids(t) && Remove(t, k) == RemoveFix(n) && Turnable(n)
  {
    hide RemoveFix, FreedId;
    var lt := Remove(t.right, k);
    assert k !in Keys(t.left);
    FreedBelow(t, k);
    RemoveDrops(t.right, k);
    RemoveBalanced(t.right, k);
    HeightNat(t.left);
    assert Ids(t.(right := lt)) == Ids(lt) + {t.id} + Ids(t.left);
    TurnableIf(Fix(t.(right := lt)));
  }

  lemma RemoveOneFacts(t: Tree)
    requires t.Node? && Distinct(t) && Avl(t) && (t.left.Leaf? || t.right.Leaf?) && (t.left.Node? || t.right.Node?)
    ensures var u := Unlinked(t);
      && u.Node? && Distinct(u) && Distinct(Fix(u)) && Ids(Fix(u)) <= Ids(t) && t.id in Ids(t) && Turnable(Fix(u))
      && t.id !in Ids(u.left) && t.id !in Ids(u.right) && Remove(t, t.key) == RemoveFix(Fix(u))
  {
    hide RemoveFix, Turnable, AvlTree.Sorted, Balanced, Keys, DroppedIds;
    UnlinkedIds(t);
    var temp := if t.left.Node? then t.left else t.right;
    var u := Unlinked(t);
    assert u == temp.(id := t.id) && Exact(temp);
    assert Ids(t) == Ids(temp) + {t.id} && Ids(temp) == Ids(temp.left) + {temp.id} + Ids(temp.right);
    assert Ids(Fix(u)) == Ids(u) == Ids(temp.left) + {t.id} + Ids(temp.right);
    TurnableIf(Fix(u));
  }

  lemma RemoveTwoFacts(t: Tree)
    requires t.Node? && Distinct(t) && Avl(t) && t.left.Node? && t.right.Node?
    ensures Avl(t.right) && Distinct(t.right) && t.id in Ids(t) && Ids(t.right) <= Ids(t)
    ensures t.id !in Ids(t.right) && t.id !in Ids(t.left) && Ids(t.left) !! Ids(t.right)
    ensures var m := MinKey(t.right);
      var rt := Remove(t.right, m);
      var n := Fix(t.(key := m, right := rt));
      && m in Keys(t.right) && FreedId(t, t.key) == FreedId(t.right, m)
      && Distinct(t.(key := m, right := rt)) && Distinct(n) && Ids(n) <= Ids(t) && Remove(t, t.key) == RemoveFix(n) && Turnable(n)
  {
    hide RemoveFix;
    var m := MinKey(t.right);
    MinKeyLeast(t.right);
    var rt := Remove(t.right, m);
    RemoveDrops(t.right, m);
    RemoveBalanced(t.right, m);
    assert Ids(t.(key := m, right := rt)) == Ids(t.left) + {t.id} + Ids(rt);
    TurnableIf(Fix(t.(key := m, right := rt)));
  }

  /** What descending to the left needs to know. */
  lemma InsertLeftFacts(t: Tree, k: int, v: int, id: nat)
    requires t.Node? && Distinct(t) && Avl(t) && k < t.key && id !in Ids(t)
    ensures Avl(t.left) && Distinct(t.left) && id !in Ids(t.left) && id != t.id && t.id in Ids(t)
    ensures Ids(t.left) <= Ids(t) && t.id !in Ids(t.left) && Ids(t.right) !! (Ids(t.left) + {id})
    ensures k in Keys(t) <==> k in Keys(t.left)
    ensures var lt := Insert(t.left, k, v, id);
      var n := Fix(t.(left := lt));
      && Distinct(t.(left := lt)) && Distinct(n) && Ids(n) <= Ids(t) + {id} && Insert(t, k, v, id) == InsertFix(n, k)
      && (Balance(n) > 1 ==> n.left.Node? && (k > n.left.key ==> n.left.right.Node?))
      && (Balance(n) < -1 ==> n.right.Node? && (k < n.right.key ==> n.right.left.Node?))
  {
    hide InsertFix;
    var lt := Insert(t.left, k, v, id);
    InsertAdds(t.left, k, v, id);
    InsertBalanced(t.left, k, v, id);
    HeightNat(t.left);
    HeightNat(t.right);
    HeightNat(lt.left);
    HeightNat(lt.right);
    assert Ids(t.(left := lt)) == Ids(lt) + {t.id} + Ids(t.right);
    assert Ids(Fix(t.(left := lt))) == Ids(t.(left := lt));
    assert k !in Keys(t.right);
  }

  /** What descending to the right needs to know. */
  lemma InsertRightFacts(t: Tree, k: int, v: int, id: nat)
    requires t.Node? && Distinct(t) && Avl(t) && k > t.key && id !in Ids(t)
    ensures Avl(t.right) && Distinct(t.right) && id !in Ids(t.right) && id != t.id && t.id in Ids(t)
    ensures Ids(t.right) <= Ids(t) && t.id !in Ids(t.right) && Ids(t.left) !! (Ids(t.right) + {id})
    ensures k in Keys(t) <==> k in Keys(t.right)
    ensures var lt := Insert(t.right, k, v, id);
      var n := Fix(t.(right := lt));
      && Distinct(t.(right := lt)) && Distinct(n) && Ids(n) <= Ids(t) + {id} && Insert(t, k, v, id) == InsertFix(n, k)
      && (Balance(n) > 1 ==> n.left.Node? && (k > n.left.key ==> n.left.right.Node?))
      && (Balance(n) < -1 ==> n.right.Node? && (k < n.right.key ==> n.right.left.Node?))
  {
    hide InsertFix;
    var lt := Insert(t.right, k, v, id);
    InsertAdds(t.right, k, v, id);
    InsertBalanced(t.right, k, v, id);
    HeightNat(t.right);
    HeightNat(t.left);
    HeightNat(lt.right);
    HeightNat(lt.left);
    assert Ids(t.(right := lt)) == Ids(lt) + {t.id} + Ids(t.left);
    assert Ids(Fix(t.(right := lt))) == Ids(t.(right := lt));
    assert k !in Keys(t.left);
  }

  lemma InsertHere(t: Tree, k: int, v: int, id: nat)
    requires t.Node?
    ensures k == t.key ==> Insert(t, k, v, id) == t && k in Keys(t)
  {
  }

  lemma TurnedLeft(n: Tree, lt: Tree)
    requires n.Node? && Distinct(n) && SameEntries(n.left, lt)
    ensures Distinct(n.(left := lt)) && Ids(n.(left := lt)) == Ids(n)
  {
    assert Ids(n.(left := lt)) == Ids(lt) + {n.id} + Ids(n.right);
  }

  lemma TurnedRight(n: Tree, lt: Tree)
    requires n.Node? && Distinct(n) && SameEntries(n.right, lt)
    ensures Distinct(n.(right := lt)) && Ids(n.(right := lt)) == Ids(n)
  {
    assert Ids(n.(right := lt)) == Ids(lt) + {n.id} + Ids(n.left);
  }

  lemma RootIds(n: Tree)
    ensures n.Node? ==> n.id in Ids(n) && (n.left.Node? ==> n.left.id in Ids(n)) && (n.right.Node? ==> n.right.id in Ids(n))
  {
  }

  lemma KnownNode(nodes: seq<Cell>, n: Tree)
    requires n.Node? && Is(nodes, n)
    ensures n.id < |nodes| && nodes[n.id] == Cell(n.key, n.value, n.height, Root(n.left), Root(n.right))
    ensures n.left.Node? ==> n.left.id < |nodes| && nodes[n.left.id].key == n.left.key && nodes[n.left.id].height == H(n.left)
    ensures n.right.Node? ==> n.right.id < |nodes| && nodes[n.right.id].key == n.right.key && nodes[n.right.id].height == H(n.right)
  {
  }
}
