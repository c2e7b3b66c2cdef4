/** Circular doubly linked lists at the level of next/prev pointers, and the sequences they
    stand for.  The kernel's thread lists, wait queues and timer ring and the queues of the
    synchronisation service are all rings of this kind. */
module Ring {
  import opened Lists

  class Node {
    var next: Node?
    var prev: Node?
    var key: int        // deadline or expiry of the timer or thread that embeds the node

    constructor (key: int)
      ensures this.key == key
    {
      this.key := key;
      next, prev := null, null;
    }
  }

  function Succ(n: nat, i: nat): nat
    requires i < n
  {
    if i + 1 == n then 0 else i + 1
  }

  function Pred(n: nat, i: nat): nat
    requires i < n
  {
    if i == 0 then n - 1 else i - 1
  }

  /** `head` is the entry pointer of a ring whose nodes are, in order, `s`: the head is element
      0 and next and prev are mutually inverse. */
  ghost predicate IsRing(head: Node?, s: seq<Node>)
    reads s
  {
    && head == (if s == [] then null else s[0])
    && NoDup(s)
    && (forall i {:trigger s[i].next} :: 0 <= i < |s| ==> s[i].next == s[Succ(|s|, i)])
    && (forall i {:trigger s[i].prev} :: 0 <= i < |s| ==> s[i].prev == s[Pred(|s|, i)])
  }

  ghost function Keys(s: seq<Node>): (d: seq<int>)
    reads s
    ensures |d| == |s| && forall i :: 0 <= i < |s| ==> d[i] == s[i].key
  {
    seq(|s|, i requires 0 <= i < |s| reads s => s[i].key)
  }

  /** The links of `s` after `obj` has been tied in before element `k` (before the head, as the
      new tail, when `k` is the length). */
  ghost predicate TiedIn(s: seq<Node>, k: nat, obj: Node)
    requires k <= |s| && |s| > 0
    reads s, obj
  {
    var q := if k == |s| then 0 else k;
    var p := Pred(|s|, q);
    && obj.next == s[q] && obj.prev == s[p]
    && s[p].next == obj && s[q].prev == obj
    && (forall i {:trigger s[i].next} :: 0 <= i < |s| && i != p ==> s[i].next == s[Succ(|s|, i)])
    && (forall i {:trigger s[i].prev} :: 0 <= i < |s| && i != q ==> s[i].prev == s[Pred(|s|, i)])
  }

  lemma TiedInAt(s: seq<Node>, k: nat, obj: Node, i: nat)
    requires k <= |s| && 0 < |s| && i <= |s| && TiedIn(s, k, obj)
    ensures var t := InsertAt(s, k, obj);
            t[i].next == t[Succ(|t|, i)] && t[i].prev == t[Pred(|t|, i)]
  {
    var t := InsertAt(s, k, obj);
    assert |t| == |s| + 1;
    assert t[i] == if i < k then s[i] else if i == k then obj else s[i - 1];
    var u := Succ(|t|, i);
    assert t[u] == if u < k then s[u] else if u == k then obj else s[u - 1];
    var v := Pred(|t|, i);
    assert t[v] == if v < k then s[v] else if v == k then obj else s[v - 1];
  }

  lemma TiedInIsRing(s: seq<Node>, k: nat, obj: Node)
    requires NoDup(s) && obj !in s && k <= |s| && 0 < |s|
    requires TiedIn(s, k, obj)
    ensures IsRing(if k == 0 then obj else s[0], InsertAt(s, k, obj))
  {
    hide TiedIn;
    var t := InsertAt(s, k, obj);
    assert NoDup(t);
    forall i | 0 <= i < |t| ensures t[i].next == t[Succ(|t|, i)] && t[i].prev == t[Pred(|t|, i)] {
      TiedInAt(s, k, obj, i);
    }
  }

  /** The links of `s` after element `k` has been cut out. */
  ghost predicate CutOut(s: seq<Node>, k: nat)
    requires k < |s|
    reads s
  {
    var p, q := Pred(|s|, k), Succ(|s|, k);
    && s[p].next == s[q] && s[q].prev == s[p]
    && (forall i {:trigger s[i].next} :: 0 <= i < |s| && i != p ==> s[i].next == s[Succ(|s|, i)])
    && (forall i {:trigger s[i].prev} :: 0 <= i < |s| && i != q ==> s[i].prev == s[Pred(|s|, i)])
  }

  lemma CutOutAt(s: seq<Node>, k: nat, i: nat)
    requires k < |s| && 1 < |s| && CutOut(s, k) && i < |s| - 1
    ensures var t := s[..k] + s[k + 1..];
            t[i].next == t[Succ(|t|, i)] && t[i].prev == t[Pred(|t|, i)]
  {
    var t := s[..k] + s[k + 1..];
    assert |t| == |s| - 1;
    assert t[i] == if i < k then s[i] else s[i + 1];
    var u := Succ(|t|, i);
    assert t[u] == if u < k then s[u] else s[u + 1];
    var v := Pred(|t|, i);
    assert t[v] == if v < k then s[v] else s[v + 1];
  }

  lemma CutOutIsRing(s: seq<Node>, k: nat)
    requires k < |s| && 1 < |s| && NoDup(s) && CutOut(s, k)
    ensures IsRing(if k == 0 then s[1] else s[0], Without(s, s[k]))
  {
    hide CutOut;
    WithoutAt(s, k);
    var t := s[..k] + s[k + 1..];
    forall i | 0 <= i < |t| ensures t[i].next == t[Succ(|t|, i)] && t[i].prev == t[Pred(|t|, i)] {
      CutOutAt(s, k, i);
    }
  }

  /** Appends one node and returns the head. */
  method CdlAdd(head: Node?, obj: Node, ghost s: seq<Node>) returns (r: Node)
    requires IsRing(head, s) && obj !in s
    modifies s`next, s`prev, obj`next, obj`prev
    ensures IsRing(r, s + [obj])
  {
    assert InsertAt(s, |s|, obj) == s + [obj];
    if head == null {
      obj.next := obj;
      obj.prev := obj;
      return obj;
    } else if head.next == head {
      obj.next := head;
      obj.prev := head;
      head.next := obj;
      head.prev := obj;
      TiedInIsRing(s, |s|, obj);
      return head;
    }
    obj.next := head;
    obj.prev := head.prev;
    head.prev.next := obj;
    head.prev := obj;
    TiedInIsRing(s, |s|, obj);
    return head;
  }

  /** Unlinks exactly the given node and returns the new head. */
  method CdlRemove(head: Node?, obj: Node, ghost s: seq<Node>) returns (r: Node?)
    requires IsRing(head, s) && (s != [] ==> obj in s)
    modifies s`next, s`prev
    ensures IsRing(r, Without(s, obj))
  {
    if head == null {
      return null;
    }
    ghost var k :| 0 <= k < |s| && s[k] == obj;
    if head == obj {
      if head.next == head && head.prev == head {
        assert |s| == 1;
        return null;
      } else {
        var newHead := head.next;
        newHead.prev := head.prev;
        head.prev.next := newHead;
        r := newHead;
      }
    } else {
      obj.prev.next := obj.next;
      obj.next.prev := obj.prev;
      r := head;
    }
    CutOutIsRing(s, k);
  }

  method Alone(node: Node)
    modifies node`next, node`prev
    ensures IsRing(node, [node])
  {
    node.next := node;
    node.prev := node;
  }

  lemma RingHead(head: Node?, s: seq<Node>)
    requires IsRing(head, s)
    ensures head == null <==> s == []
    ensures head != null ==> head == s[0] && head.prev == s[|s| - 1] && (head.next == head <==> |s| == 1)
  {
  }

  /** Ties `node` in before `cursor`, element `k` of the ring (or the head, for a new tail). */
  method LinkBefore(cursor: Node, node: Node, ghost s: seq<Node>, ghost k: nat)
    requires s != [] && IsRing(s[0], s) && node !in s && k <= |s|
    requires cursor == s[if k == |s| then 0 else k]
    modifies s`next, s`prev, node`next, node`prev
    ensures IsRing(if k == 0 then node else s[0], InsertAt(s, k, node))
  {
    node.next := cursor;
    node.prev := cursor.prev;
    cursor.prev.next := node;
    cursor.prev := node;
    TiedInIsRing(s, k, node);
  }

  /** Links a timer into the ring before the first strictly later deadline. */
  method TimerInsert(head: Node?, node: Node, ghost s: seq<Node>) returns (r: Node)
    requires IsRing(head, s) && node !in s
    modifies s`next, s`prev, node`next, node`prev
    ensures IsRing(r, InsertAt(s, TimerPosition(old(Keys(s)), old(node.key)), node))
  {
    hide IsRing;
    RingHead(head, s);
    if head == null {
      Alone(node);
      assert InsertAt(s, 0, node) == [node];
      return node;
    }
    ghost var k;
    var cursor, wrapped;
    cursor, wrapped, k := TimerCursor(head, node.key, s);
    LinkBefore(cursor, node, s, k);
    return if !wrapped && cursor == head then node else head;
  }

  /** The scan of the timer ring: the first strictly later timer, or once around to the head. */
  method TimerCursor(head: Node, key: int, ghost s: seq<Node>) returns (cursor: Node, wrapped: bool, ghost k: nat)
    requires IsRing(head, s)
    ensures k == TimerPosition(Keys(s), key) && (wrapped <==> k == |s|)
    ensures cursor == s[if wrapped then 0 else k]
    ensures wrapped || (cursor == head <==> k == 0)
  {
    cursor, wrapped, k := head, false, 0;
    while !wrapped && cursor.key <= key
      invariant 0 <= k <= |s| && cursor == s[if k == |s| then 0 else k]
      invariant wrapped <==> k == |s|
      invariant forall i :: 0 <= i < k ==> s[i].key <= key
      decreases |s| - k
    {
      cursor := cursor.next;
      k := k + 1;
      wrapped := cursor == head;
    }
    TimerPositionUnique(Keys(s), key, k);
  }

  /** Links a sleeper into the sleep list; the scan never compares with the tail. */
  method SleepInsert(head: Node?, node: Node, ghost s: seq<Node>) returns (r: Node)
    requires IsRing(head, s) && node !in s
    modifies s`next, s`prev, node`next, node`prev
    ensures IsRing(r, InsertAt(s, SleepPosition(old(Keys(s)), old(node.key)), node))
  {
    hide IsRing;
    RingHead(head, s);
    if head == null {
      Alone(node);
      assert InsertAt(s, 0, node) == [node];
      return node;
    } else if head.next == head {
      assert Keys(s)[0] == head.key;
      LinkBefore(head, node, s, if head.key > node.key then 0 else 1);
      return if head.key > node.key then node else head;
    }
    var tail := head.prev;
    ghost var k;
    var cursor;
    cursor, k := SleepCursor(head, tail, node.key, s);
    if cursor == tail {
      assert InsertAt(s, |s|, node) == s + [node];
      r := CdlAdd(head, node, s);
    } else {
      LinkBefore(cursor, node, s, k);
      r := if cursor == head then node else head;
    }
  }

  /** The scan of the sleep list: the first later sleeper, or the tail. */
  method SleepCursor(head: Node, tail: Node, key: int, ghost s: seq<Node>) returns (cursor: Node, ghost k: nat)
    requires IsRing(head, s) && tail == head.prev
    ensures k < |s| && cursor == s[k] && (cursor == tail <==> k == |s| - 1)
    ensures SleepScan(Keys(s), key, 0) == if cursor == tail then |s| else k
  {
    cursor, k := head, 0;
    while cursor != tail && cursor.key <= key
      invariant 0 <= k < |s| && cursor == s[k]
      invariant SleepScan(Keys(s), key, 0) == SleepScan(Keys(s), key, k)
      decreases |s| - k
    {
      cursor := cursor.next;
      k := k + 1;
    }
  }

  /** Appends without the one-element special case. */
  method DblistInsertTail(head: Node?, item: Node, ghost s: seq<Node>) returns (r: Node)
    requires IsRing(head, s) && item !in s
    modifies s`next, s`prev, item`next, item`prev
    ensures IsRing(r, s + [item])
  {
    assert InsertAt(s, |s|, item) == s + [item];
    if head == null {
      item.next := item;
      item.prev := item;
      return item;
    }
    item.next := head;
    item.prev := head.prev;
    head.prev.next := item;
    head.prev := item;
    TiedInIsRing(s, |s|, item);
    return head;
  }

  method DblistRemoveHead(head: Node?, ghost s: seq<Node>) returns (r: Node?)
    requires IsRing(head, s)
    modifies s`next, s`prev
    ensures IsRing(r, if s == [] then [] else s[1..])
  {
    if head == null {
      return null;
    }
    if head.next == head {
      return null;
    }
    var next := head.next;
    head.prev.next := next;
    next.prev := head.prev;
    CutOutIsRing(s, 0);
    return next;
  }

  /** A counted list header: the kernel's thread_list_t and wait queues. */
  class ListHead {
    var head: Node?
    var count: nat
    ghost var nodes: seq<Node>
    ghost var footprint: set<Node>

    ghost predicate Valid()
      reads this, footprint
    {
      && footprint == (set n | n in nodes)
      && IsRing(head, nodes)
      && count == |nodes|
    }

    constructor ()
      ensures Valid() && nodes == []
    {
      head, count, nodes, footprint := null, 0, [], {};
    }

    method Add(obj: Node)
      requires Valid() && obj !in footprint
      modifies this, footprint, obj
      ensures Valid() && nodes == old(nodes) + [obj] && footprint == old(footprint) + {obj}
      ensures forall a :: a in old(footprint) ==> Before(nodes, a, obj)
    {
      head := CdlAdd(head, obj, nodes);
      count := count + 1;
      nodes := nodes + [obj];
      footprint := footprint + {obj};
    }

    method Remove(obj: Node)
      requires Valid() && obj in footprint
      modifies this, footprint
      ensures Valid() && nodes == Without(old(nodes), obj) && footprint == old(footprint) - {obj}
      ensures forall a, b :: a in footprint && b in footprint ==> (Before(nodes, a, b) <==> Before(old(nodes), a, b))
    {
      head := CdlRemove(head, obj, nodes);
      count := count - 1;
      nodes := Without(nodes, obj);
      footprint := footprint - {obj};
      forall a, b | a in footprint && b in footprint ensures Before(nodes, a, b) <==> Before(old(nodes), a, b) {
        WithoutKeepsOrder(old(nodes), obj, a, b);
      }
    }
  }

  /** Moving a node between two rings over disjoint nodes: the source loses exactly that node,
      the destination gains it at the tail, and any third ring that shares no node with them
      is left alone. */
  method ChangeState(from: ListHead, to: ListHead, obj: Node, third: ListHead)
    requires from.Valid() && to.Valid() && third.Valid()
    requires from != to && from != third && to != third
    requires from.footprint !! to.footprint !! third.footprint
    requires obj in from.footprint
    modifies from, to, from.footprint, to.footprint
    ensures from.Valid() && to.Valid() && third.Valid()
    ensures from.nodes == Without(old(from.nodes), obj)
    ensures to.nodes == old(to.nodes) + [obj]
    ensures from.footprint == old(from.footprint) - {obj} && to.footprint == old(to.footprint) + {obj}
  {
    from.Remove(obj);
    to.Add(obj);
  }
}
