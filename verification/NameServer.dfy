/** The name server: a table of bindings and an AVL index over their names that must agree. */
module NameServer {
  import opened Lists
  import opened Circular
  import A = AvlTree
  import M = StringMap

  type Word = w: nat | w < 0x1_0000_0000
  type Byte = b: nat | b < 256

  const SERVICES := 16
  const NAME_LEN := 16

  /** A C string of at most 16 bytes, not empty. */
  predicate NameOk(name: seq<Byte>) { 1 <= |name| <= NAME_LEN && 0 !in name }

  lemma NameOkIs(name: seq<Byte>)
    ensures !NameOk(name) <==> |name| == 0 || |name| > 16 || 0 in name
  {
  }

  function Head(s: seq<Byte>): Byte { if s == [] then 0 else s[0] }

  function Tail(s: seq<Byte>): seq<Byte> { if s == [] then [] else s[1..] }

  /** strncmp over the first `n` bytes. */
  function Compare(a: seq<Byte>, b: seq<Byte>, n: nat): int {
    if n == 0 then 0
    else if Head(a) != Head(b) then (Head(a) as int) - (Head(b) as int)
    else if Head(a) == 0 then 0
    else Compare(Tail(a), Tail(b), n - 1)
  }

  function Pow(n: nat): (p: nat)
    ensures p > 0
  {
    if n == 0 then 1 else 256 * Pow(n - 1)
  }

  lemma MulMono(a: int, b: int, p: int)
    requires a <= b && p >= 0
    ensures a * p <= b * p
  {
    assert (b - a) * p >= 0;
    assert (b - a) * p == b * p - a * p;
  }

  /** A digit and a rest below the base position. */
  function Digit(h: nat, p: nat, c: nat): (r: nat)
    requires h <= 255 && c < p
    ensures r < 256 * p
  {
    MulMono(h, 255, p);
    h * p + c
  }

  lemma DigitOrder(x: nat, y: nat, p: nat, c: nat, d: nat)
    requires x <= 255 && y <= 255 && c < p && d < p
    ensures x < y ==> Digit(x, p, c) < Digit(y, p, d)
    ensures x == y ==> Digit(x, p, c) - Digit(y, p, d) == c - d
  {
    if x < y {
      MulMono(x + 1, y, p);
      assert (x + 1) * p == x * p + p;
    }
  }

  /** The first `n` bytes read as one number; the index orders names by it. */
  function Code(s: seq<Byte>, n: nat): (c: nat)
    ensures c < Pow(n)
  {
    if n == 0 then 0 else Digit(Head(s), Pow(n - 1), Code(Tail(s), n - 1))
  }

  /** The order of the codes is the order of strncmp. */
  lemma {:induction false} CodeOrder(a: seq<Byte>, b: seq<Byte>, n: nat)
    requires 0 !in a && 0 !in b
    ensures Compare(a, b, n) < 0 <==> Code(a, n) < Code(b, n)
    ensures Compare(a, b, n) == 0 <==> Code(a, n) == Code(b, n)
  {
    hide Digit;
    if n > 0 {
      var p, c, d := Pow(n - 1), Code(Tail(a), n - 1), Code(Tail(b), n - 1);
      DigitOrder(Head(a), Head(b), p, c, d);
      DigitOrder(Head(b), Head(a), p, d, c);
      if Head(a) == 0 {
        assert a == [];
      }
      if Head(b) == 0 {
        assert b == [];
      }
      if Head(a) == Head(b) != 0 {
        CodeOrder(Tail(a), Tail(b), n - 1);
      }
    }
  }

  lemma {:induction false} CompareEqual(a: seq<Byte>, b: seq<Byte>, n: nat)
    requires 0 !in a && 0 !in b && |a| <= n && |b| <= n && Compare(a, b, n) == 0
    ensures a == b
  {
    if n > 0 && a != [] && b != [] {
      CompareEqual(a[1..], b[1..], n - 1);
      assert a == [a[0]] + a[1..] && b == [b[0]] + b[1..];
    }
  }

  function Key(name: seq<Byte>): int { Code(name, NAME_LEN) }

  /** Different names have different keys. */
  lemma KeyInjective(a: seq<Byte>, b: seq<Byte>)
    requires NameOk(a) && NameOk(b) && Key(a) == Key(b)
    ensures a == b
  {
    CodeOrder(a, b, NAME_LEN);
    CompareEqual(a, b, NAME_LEN);
  }

  datatype Binding = Binding(inUse: bool, id: Word, vid: Word, name: seq<Byte>)
  datatype Answer = Ok | Invalid | Duplicate | Capacity | NotFound

  const UNUSED := Binding(false, 0, 0, [])

  /** Bound names and ids are proper and unique. */
  ghost predicate TableOk(table: seq<Binding>) {
    && |table| == SERVICES
    && (forall i :: 0 <= i < SERVICES && table[i].inUse ==> NameOk(table[i].name) && table[i].id != 0)
    && (forall i, j :: 0 <= i < j < SERVICES && table[i].inUse && table[j].inUse ==>
          table[i].id != table[j].id && table[i].name != table[j].name)
  }

  /** The keys of the bound names. */
  ghost function KeySet(table: seq<Binding>): set<int> {
    set i | 0 <= i < |table| && table[i].inUse :: Key(table[i].name)
  }

  ghost predicate IdUsed(table: seq<Binding>, id: Word) {
    exists i :: 0 <= i < |table| && table[i].inUse && table[i].id == id
  }

  ghost predicate NameUsed(table: seq<Binding>, name: seq<Byte>) {
    exists i :: 0 <= i < |table| && table[i].inUse && table[i].name == name
  }

  lemma KeySetBind(table: seq<Binding>, j: nat, b: Binding)
    requires TableOk(table) && j < SERVICES && !table[j].inUse && b.inUse && NameOk(b.name) && b.id != 0
    requires !IdUsed(table, b.id) && !NameUsed(table, b.name)
    ensures TableOk(table[j := b]) && KeySet(table[j := b]) == KeySet(table) + {Key(b.name)} && Key(b.name) !in KeySet(table)
  {
    hide Key, NameOk;
    var t := table[j := b];
    assert t[j] == b;
    forall k ensures k in KeySet(t) <==> k in KeySet(table) + {Key(b.name)} {
      if k in KeySet(table) {
        var i :| 0 <= i < |table| && table[i].inUse && k == Key(table[i].name);
        assert t[i] == table[i];
      }
    }
    if Key(b.name) in KeySet(table) {
      var i :| 0 <= i < |table| && table[i].inUse && Key(b.name) == Key(table[i].name);
      KeyInjective(b.name, table[i].name);
      assert false;
    }
  }

  lemma KeySetRelease(table: seq<Binding>, j: nat)
    requires TableOk(table) && j < SERVICES && table[j].inUse
    ensures TableOk(table[j := UNUSED]) && KeySet(table[j := UNUSED]) == KeySet(table) - {Key(table[j].name)}
    ensures Key(table[j].name) in KeySet(table)
  {
    hide Key, NameOk;
    var t := table[j := UNUSED];
    forall k ensures k in KeySet(t) <==> k in KeySet(table) - {Key(table[j].name)} {
      if k in KeySet(t) {
        var i :| 0 <= i < |t| && t[i].inUse && k == Key(t[i].name);
        assert t[i] == table[i] && i != j;
        if k == Key(table[j].name) {
          KeyInjective(table[i].name, table[j].name);
        }
      }
      if k in KeySet(table) && k != Key(table[j].name) {
        var i :| 0 <= i < |table| && table[i].inUse && k == Key(table[i].name);
        assert t[i] == table[i];
      }
    }
  }

  lemma KeySetVid(table: seq<Binding>, j: nat, vid: Word)
    requires TableOk(table) && j < SERVICES
    ensures TableOk(table[j := table[j].(vid := vid)]) && KeySet(table[j := table[j].(vid := vid)]) == KeySet(table)
  {
    hide Key, NameOk;
    var t := table[j := table[j].(vid := vid)];
    assert forall i :: 0 <= i < |table| ==> t[i].inUse == table[i].inUse && t[i].name == table[i].name && t[i].id == table[i].id;
  }

  /** As many nodes as keys. */
  lemma {:induction false} SizeKeys(t: A.Tree)
    requires A.Sorted(t)
    ensures A.Size(t) == |A.Keys(t)|
  {
    if t.Node? {
      SizeKeys(t.left);
      SizeKeys(t.right);
      assert A.Keys(t.left) !! {t.key} && {t.key} !! A.Keys(t.right);
      assert A.Keys(t.left) !! A.Keys(t.right) by {
        forall k | k in A.Keys(t.left) ensures k !in A.Keys(t.right) {
          assert k < t.key;
        }
      }
    }
  }

  lemma {:induction false} KeySetSize(table: seq<Binding>)
    ensures |KeySet(table)| <= |table|
    ensures (exists i :: 0 <= i < |table| && !table[i].inUse) ==> |KeySet(table)| < |table|
  {
    hide Key;
    if table == [] {
      assert KeySet(table) == {};
    } else {
      var n := |table| - 1;
      var front := table[..n];
      KeySetSize(front);
      var last := if table[n].inUse then {Key(table[n].name)} else {};
      forall k ensures k in KeySet(table) <==> k in KeySet(front) + last {
        if k in KeySet(front) {
          var i :| 0 <= i < n && front[i].inUse && k == Key(front[i].name);
          assert table[i] == front[i];
        }
        if k in KeySet(table) {
          var i :| 0 <= i < |table| && table[i].inUse && k == Key(table[i].name);
          assert i < n ==> front[i] == table[i];
        }
      }
      assert KeySet(table) == KeySet(front) + last;
      if i :| 0 <= i < |table| && !table[i].inUse {
        assert i < n ==> !front[i].inUse;
      }
    }
  }

  /** The index has the id of every bound name. */
  ghost predicate Agrees(table: seq<Binding>, tree: A.Tree) {
    forall i :: 0 <= i < |table| && table[i].inUse ==> A.Get(tree, Key(table[i].name)) == Some(table[i].id as int)
  }

  lemma AgreesBind(table: seq<Binding>, tree: A.Tree, tree': A.Tree, j: nat, b: Binding)
    requires TableOk(table) && Agrees(table, tree) && j < SERVICES && NameOk(b.name) && !NameUsed(table, b.name)
    requires forall x :: A.Get(tree', x) == if x == Key(b.name) then Some(b.id as int) else A.Get(tree, x)
    ensures Agrees(table[j := b], tree')
  {
    hide Key, NameOk, A.Get;
    forall i | 0 <= i < |table| && table[i].inUse && i != j ensures Key(table[i].name) != Key(b.name) {
      if Key(table[i].name) == Key(b.name) {
        KeyInjective(table[i].name, b.name);
      }
    }
  }

  /** A release keeps index and table in agreement exactly if the node of the name had not two
      children: otherwise the name that follows is left with the id that was released. */
  lemma AgreesRelease(table: seq<Binding>, tree: A.Tree, tree': A.Tree, j: nat)
    requires TableOk(table) && Agrees(table, tree) && j < SERVICES && table[j].inUse
    requires A.Sorted(tree) && A.Keys(tree) == KeySet(table)
    requires forall x :: A.Get(tree', x) == A.AfterRemove(tree, Key(table[j].name), x)
    ensures Agrees(table[j := UNUSED], tree') <==> !A.TwoSided(tree, Key(table[j].name))
  {
    hide Key, NameOk, A.Get, A.Keys, A.Sorted, A.TwoSided, A.Successor;
    var k, table' := Key(table[j].name), table[j := UNUSED];
    KeySetRelease(table, j);
    A.SuccessorIn(tree, k);
    forall i | 0 <= i < |table| && table[i].inUse && i != j ensures Key(table[i].name) != k {
      if Key(table[i].name) == k {
        KeyInjective(table[i].name, table[j].name);
      }
    }
    if A.TwoSided(tree, k) {
      var i :| 0 <= i < |table| && table[i].inUse && A.Successor(tree, k) == Key(table[i].name);
      assert i != j && table'[i] == table[i] && table[i].id != table[j].id;
      assert A.Get(tree', Key(table[i].name)) == Some(table[j].id as int);
    } else {
      forall i | 0 <= i < |table'| && table'[i].inUse ensures A.Get(tree', Key(table'[i].name)) == Some(table'[i].id as int) {
        assert i != j && table'[i] == table[i];
      }
    }
  }

  lemma NamedKey(table: seq<Binding>, name: seq<Byte>)
    requires TableOk(table) && NameOk(name)
    ensures Key(name) in KeySet(table) <==> FindName(table, name, 0).Some?
  {
    hide Key, NameOk;
    if Key(name) in KeySet(table) {
      var i :| 0 <= i < |table| && table[i].inUse && Key(name) == Key(table[i].name);
      KeyInjective(name, table[i].name);
    }
  }

  /** Under agreement the index leads from a bound name to its binding. */
  lemma AgreedName(table: seq<Binding>, tree: A.Tree, name: seq<Byte>)
    requires TableOk(table) && Agrees(table, tree) && NameUsed(table, name)
    ensures var i := FindName(table, name, 0);
      i.Some? && A.Get(tree, Key(name)) == Some(table[i.value].id as int) && !NameUsed(table[i.value := UNUSED], name)
  {
    hide Key, NameOk, A.Get;
  }

  /** The id that the index has for a bound name leads to that name's binding exactly if it is its id. */
  lemma LedTo(table: seq<Binding>, id: Word, i: nat)
    requires TableOk(table) && i < SERVICES && table[i].inUse
    ensures FindId(table, id, 0) == Some(i) <==> id == table[i].id
    ensures FindId(table, 0, 0).None?
  {
    hide NameOk;
  }

  const LAST_ID := 0xFFFF_FFFF

  ghost function IdSet(table: seq<Binding>): set<nat> {
    set i | 0 <= i < |table| && table[i].inUse :: table[i].id as nat
  }

  lemma {:induction false} IdSetSize(table: seq<Binding>)
    ensures |IdSet(table)| <= |table|
  {
    if table == [] {
      assert IdSet(table) == {};
    } else {
      var n := |table| - 1;
      var front := table[..n];
      IdSetSize(front);
      var last: set<nat> := if table[n].inUse then {table[n].id as nat} else {};
      assert IdSet(table) == IdSet(front) + last;
    }
  }

  /** The first binding in use with that id, from entry `i` on. */
  function FindId(table: seq<Binding>, id: Word, i: nat): (r: Option<nat>)
    requires i <= |table|
    ensures r.Some? ==>
      && i <= r.value < |table| && table[r.value].inUse && table[r.value].id == id
      && forall j :: i <= j < r.value ==> !(table[j].inUse && table[j].id == id)
    ensures r.None? ==> forall j :: i <= j < |table| ==> !(table[j].inUse && table[j].id == id)
    decreases |table| - i
  {
    if i == |table| then None
    else if table[i].inUse && table[i].id == id then Some(i)
    else FindId(table, id, i + 1)
  }

  /** The first binding in use with that name, from entry `i` on. */
  function FindName(table: seq<Binding>, name: seq<Byte>, i: nat): (r: Option<nat>)
    requires i <= |table|
    ensures r.Some? ==>
      && i <= r.value < |table| && table[r.value].inUse && table[r.value].name == name
      && forall j :: i <= j < r.value ==> !(table[j].inUse && table[j].name == name)
    ensures r.None? ==> forall j :: i <= j < |table| ==> !(table[j].inUse && table[j].name == name)
    decreases |table| - i
  {
    if i == |table| then None
    else if table[i].inUse && table[i].name == name then Some(i)
    else FindName(table, name, i + 1)
  }

  /** The first entry not in use, from entry `i` on. */
  function FindUnused(table: seq<Binding>, i: nat): (r: Option<nat>)
    requires i <= |table|
    ensures r.Some? ==> i <= r.value < |table| && !table[r.value].inUse && forall j :: i <= j < r.value ==> table[j].inUse
    ensures r.None? ==> forall j :: i <= j < |table| ==> table[j].inUse
    decreases |table| - i
  {
    if i == |table| then None else if !table[i].inUse then Some(i) else FindUnused(table, i + 1)
  }

  class Server {
    var table: seq<Binding>
    var nextId: Word
    const index: M.SiMap

    ghost predicate Valid()
      reads this, index
    {
      && TableOk(table) && nextId > 0
      && index.Valid() && |index.nodes| == SERVICES
      && A.Keys(index.tree) == KeySet(table)
    }

    constructor ()
      ensures Valid() && fresh(index) && table == seq(SERVICES, _ => UNUSED) && nextId == 1
      ensures index.tree == A.Leaf && Agrees(table, index.tree)
    {
      index := new M.SiMap(SERVICES);
      table := seq(SERVICES, _ => UNUSED);
      nextId := 1;
    }

    /** binding_by_id */
    method ById(id: Word) returns (r: Option<nat>)
      ensures r == if id == 0 then None else FindId(table, id, 0)
    {
      if id == 0 {
        return None;
      }
      var i := 0;
      while i < |table|
        invariant i <= |table| && FindId(table, id, 0) == FindId(table, id, i)
      {
        if table[i].inUse && table[i].id == id {
          return Some(i);
        }
        i := i + 1;
      }
      return None;
    }

    /** binding_by_name, which compares at most 16 bytes. */
    method ByName(name: seq<Byte>) returns (r: Option<nat>)
      requires TableOk(table)
      ensures r == if NameOk(name) then FindName(table, name, 0) else None
    {
      hide Compare;
      if !NameOk(name) {
        return None;
      }
      var i := 0;
      while i < |table|
        invariant i <= |table| && FindName(table, name, 0) == FindName(table, name, i)
      {
        if table[i].inUse {
          SameName(table[i].name, name);
        }
        if table[i].inUse && Compare(table[i].name, name, NAME_LEN) == 0 {
          return Some(i);
        }
        i := i + 1;
      }
      return None;
    }

    /** allocate_service_id: among 16 bindings an unused id is found long before 64 tries. */
    method AllocateId() returns (id: Word)
      requires |table| == SERVICES && nextId > 0
      modifies `nextId
      ensures id != 0 && !IdUsed(table, id) && nextId > 0
      ensures exists k ::
        && 0 <= k <= SERVICES && id == Tried(old(nextId), k, LAST_ID)
        && (forall j :: 0 <= j < k ==> Tried(old(nextId), j, LAST_ID) in IdSet(table)) && nextId == Next(id, LAST_ID)
    {
      ghost var s := nextId;
      var retry := 0;
      id := 0;
      while retry < SERVICES * 4 && id == 0
        invariant nextId > 0 && (id != 0 ==> !IdUsed(table, id))
        invariant id != 0 ==> exists k ::
          && 0 <= k <= SERVICES && id == Tried(s, k, LAST_ID)
          && (forall j :: 0 <= j < k ==> Tried(s, j, LAST_ID) in IdSet(table)) && nextId == Next(id, LAST_ID)
        invariant id == 0 ==> retry <= SERVICES && nextId == Tried(s, retry, LAST_ID)
        invariant id == 0 ==> forall j :: 0 <= j < retry ==> Tried(s, j, LAST_ID) in IdSet(table)
        decreases SERVICES * 4 - retry
      {
        var candidate := nextId;
        TriedNext(s, retry, LAST_ID);
        nextId := if nextId == 0xFFFF_FFFF then 1 else nextId + 1;
        var r := ById(candidate);
        if r.None? {
          id := candidate;
        } else {
          assert table[r.value].id as nat in IdSet(table);
          IdSetSize(table);
          TriedBound(s, retry + 1, LAST_ID, IdSet(table));
        }
        retry := retry + 1;
      }
    }

    /** The search of binding_alloc. */
    method FirstUnused() returns (r: Option<nat>)
      ensures r == FindUnused(table, 0)
    {
      var i := 0;
      while i < |table|
        invariant i <= |table| && FindUnused(table, 0) == FindUnused(table, i)
      {
        if !table[i].inUse {
          return Some(i);
        }
        i := i + 1;
      }
      return None;
    }

    /** The index takes a new name; its pool cannot be exhausted, since the table had room. */
    method IndexName(name: seq<Byte>, id: Word)
      requires index.Valid() && |index.nodes| == SERVICES && |A.Keys(index.tree)| < SERVICES && Key(name) !in A.Keys(index.tree)
      modifies index
      ensures index.Valid() && |index.nodes| == SERVICES && A.Keys(index.tree) == A.Keys(old(index.tree)) + {Key(name)}
      ensures exists n :: index.tree == A.Insert(old(index.tree), Key(name), id, n)
      ensures forall x :: A.Get(index.tree, x) == if x == Key(name) then Some(id as int) else A.Get(old(index.tree), x)
    {
      hide Key, A.Keys, A.Get, A.Insert;
      M.AvlParts(index.tree);
      SizeKeys(index.tree);
      var code := index.SetValue(Key(name), id);
    }

    /** A known name gets a new thread behind it, unless another id is asked for. */
    method Rebind(i: nat, id: Word, caller: Word) returns (answer: Answer, given: Word)
      requires Valid() && i < SERVICES && table[i].inUse
      modifies `table
      ensures Valid()
      ensures if id != 0 && id != old(table)[i].id then answer == Duplicate && given == id && table == old(table)
              else answer == Ok && given == old(table)[i].id && table == old(table)[i := old(table)[i].(vid := caller)]
      ensures Agrees(old(table), index.tree) ==> Agrees(table, index.tree)
    {
      hide Key, A.Get, KeySet, TableOk, A.Keys;
      KnownTable(table);
      var b := table[i];
      if id != 0 && id != b.id {
        return Duplicate, id;
      }
      KeySetVid(table, i, caller);
      table := table[i := b.(vid := caller)];
      return Ok, b.id;
    }

    /** A new name takes entry `j`, with the id asked for or an unused one. */
    method Bind(j: nat, name: seq<Byte>, id: Word, caller: Word) returns (answer: Answer, given: Word)
      requires Valid() && j < SERVICES && !table[j].inUse && NameOk(name) && !NameUsed(table, name) && (id != 0 ==> !IdUsed(table, id))
      modifies this, index
      ensures Valid() && answer == Ok && given != 0 && (id != 0 ==> given == id) && !IdUsed(old(table), given)
      ensures exists n :: index.tree == A.Insert(old(index.tree), Key(name), given, n)
      ensures forall x :: A.Get(index.tree, x) == if x == Key(name) then Some(given as int) else A.Get(old(index.tree), x)
      ensures table == old(table)[j := Binding(true, given, caller, name)]
      ensures Agrees(old(table), old(index.tree)) ==> Agrees(table, index.tree)
    {
      hide Key, KeySet, TableOk, NameOk, NameUsed, IdUsed, Agrees, A.Keys, A.Get, A.Insert;
      KnownTable(table);
      KeySetSize(table);
      table := table[j := Binding(true, 0, 0, [])];
      given := id;
      if id == 0 {
        given := AllocateId();
        UnusedElsewhere(old(table), j, given);
      }
      KeySetBind(old(table), j, Binding(true, given, caller, name));
      var entry := if given == 0 then UNUSED else Binding(true, given, caller, name);
      table := table[j := entry];
      answer := if given == 0 then Capacity else Ok;
      assert table == old(table)[j := Binding(true, given, caller, name)];
      IndexName(name, given);
      if Agrees(old(table), old(index.tree)) {
        AgreesBind(old(table), old(index.tree), index.tree, j, Binding(true, given, caller, name));
      }
    }

    /** handle_register.  `id` is the service id asked for, 0 meaning any; the answer carries the one
        the name has afterwards. */
    method Register(name: seq<Byte>, id: Word, caller: Word) returns (answer: Answer, given: Word)
      requires Valid()
      modifies this, index
      ensures Valid()
      ensures answer == Invalid <==> |name| == 0 || |name| > 16 || 0 in name
      ensures !NameOk(name) ==> answer == Invalid && table == old(table)
      ensures NameOk(name) ==>
        match FindName(old(table), name, 0)
        case Some(i) =>
          if id != 0 && id != old(table)[i].id then answer == Duplicate && table == old(table)
          else answer == Ok && given == old(table)[i].id && table == old(table)[i := old(table)[i].(vid := caller)]
        case None =>
          if id != 0 && IdUsed(old(table), id) then answer == Duplicate && table == old(table)
          else match FindUnused(old(table), 0)
            case None => answer == Capacity && table == old(table)
            case Some(j) =>
              && answer == Ok && given != 0 && (id != 0 ==> given == id) && !IdUsed(old(table), given)
              && table == old(table)[j := Binding(true, given, caller, name)]
              && (forall x :: A.Get(index.tree, x) == if x == Key(name) then Some(given as int) else A.Get(old(index.tree), x))
              && exists n :: index.tree == A.Insert(old(index.tree), Key(name), given, n)
      ensures Agrees(old(table), old(index.tree)) ==> Agrees(table, index.tree)
    {
      hide Key, KeySet, NameOk, Agrees, A.Keys, A.Get, A.Insert;
      given := id;
      NameOkIs(name);
      if !NameOk(name) {
        return Invalid, given;
      }
      var i := ByName(name);
      if i.Some? {
        answer, given := Rebind(i.value, id, caller);
        return;
      }
      var other := ById(id);
      if other.Some? {
        return Duplicate, given;
      }
      var j := FirstUnused();
      if j.None? {
        return Capacity, given;
      }
      answer, given := Bind(j.value, name, id, caller);
    }

    /** handle_resolve_name */
    method ResolveName(name: seq<Byte>) returns (answer: Answer, id: Word, vid: Word)
      requires Valid()
      ensures answer == if |name| == 0 || |name| > 16 || 0 in name then Invalid else if NameUsed(table, name) then Ok else NotFound
      ensures answer == Ok ==> forall i :: 0 <= i < SERVICES && table[i].inUse && table[i].name == name ==>
        id == table[i].id && vid == table[i].vid
    {
      hide Key, KeySet, NameOk, A.Keys;
      NameOkIs(name);
      if !NameOk(name) {
        return Invalid, 0, 0;
      }
      var i := ByName(name);
      if i.None? {
        return NotFound, 0, 0;
      }
      return Ok, table[i.value].id, table[i.value].vid;
    }

    /** handle_resolve_id */
    method ResolveId(id: Word) returns (answer: Answer, vid: Word)
      requires Valid()
      ensures answer == if IdUsed(table, id) then Ok else NotFound
      ensures answer == Ok ==> forall i :: 0 <= i < SERVICES && table[i].inUse && table[i].id == id ==> vid == table[i].vid
    {
      hide Key, KeySet, NameOk, A.Keys;
      var i := ById(id);
      if i.None? {
        return NotFound, 0;
      }
      return Ok, table[i.value].vid;
    }

    /** The binding in entry `i` goes, and its name leaves the index with it. */
    method Release(i: nat)
      requires Valid() && i < SERVICES && table[i].inUse
      modifies `table, index
      ensures Valid() && table == old(table)[i := UNUSED]
      ensures |old(table)| == SERVICES && index.tree == A.Remove(old(index.tree), Key(old(table)[i].name))
      ensures Agrees(old(table), old(index.tree)) ==>
        (Agrees(table, index.tree) <==> !A.TwoSided(old(index.tree), Key(old(table)[i].name)))
    {
      hide Key, KeySet, TableOk, Agrees, A.Keys, A.Get, A.AfterRemove, A.Remove, A.TwoSided;
      KnownTable(table);
      KeySetRelease(table, i);
      M.AvlParts(index.tree);
      var code := index.Clear(Key(table[i].name));
      if Agrees(table, old(index.tree)) {
        AgreesRelease(table, old(index.tree), index.tree, i);
      }
      table := table[i := UNUSED];
    }

    /** handle_unregister: by id, or by the id that the index has for the name. */
    method Unregister(name: seq<Byte>, id: Word) returns (answer: Answer)
      requires Valid()
      modifies `table, index
      ensures Valid()
      ensures var target := if id != 0 then Some(id as int) else if NameOk(name) then A.Get(old(index.tree), Key(name)) else None;
        var i := if target.Some? && 0 < target.value <= LAST_ID then FindId(old(table), target.value, 0) else None;
        if i.Some? then
          && answer == Ok && table == old(table)[i.value := UNUSED]
          && index.tree == A.Remove(old(index.tree), Key(old(table)[i.value].name))
          && (Agrees(old(table), old(index.tree)) ==>
                (Agrees(table, index.tree) <==> !A.TwoSided(old(index.tree), Key(old(table)[i.value].name))))
        else answer == NotFound && table == old(table) && index.tree == old(index.tree)
      ensures id == 0 && NameOk(name) ==>
        match FindName(old(table), name, 0)
        case Some(i) =>
          (answer == Ok && table == old(table)[i := UNUSED]) <==> A.Get(old(index.tree), Key(name)) == Some(old(table)[i].id as int)
        case None => answer == NotFound
      ensures id == 0 && NameOk(name) && NameUsed(old(table), name) && Agrees(old(table), old(index.tree)) ==>
        answer == Ok && !NameUsed(table, name)
    {
      hide Key, KeySet, NameOk, TableOk, Agrees, NameUsed, A.Keys, A.Get, A.Remove, A.TwoSided;
      KnownTable(table);
      if NameUsed(table, name) && Agrees(table, index.tree) {
        AgreedName(table, index.tree, name);
      }
      var i: Option<nat> := None;
      if id != 0 {
        i := ById(id);
      } else if NameOk(name) {
        var stored := index.GetValue(Key(name));
        NamedKey(table, name);
        M.AvlParts(index.tree);
        A.GetKeys(index.tree, Key(name));
        ghost var j := FindName(table, name, 0);
        if j.Some? {
          LedTo(table, if 0 <= stored.value <= LAST_ID then stored.value else 0, j.value);
        }
        if stored.Some? && 0 <= stored.value <= LAST_ID {
          i := ById(stored.value);
        }
      }
      if i.None? {
        return NotFound;
      }
      Release(i.value);
      ghost var bound := FindName(old(table), name, 0);
      assert bound.Some? && bound != i ==> table[bound.value] == old(table)[bound.value] && table[bound.value].inUse;
      return Ok;
    }
  }

  const A_NAME: seq<Byte> := [97]
  const B_NAME: seq<Byte> := [98]
  const C_NAME: seq<Byte> := [99]
  const D_NAME: seq<Byte> := [100]

  lemma Names()
    ensures NameOk(A_NAME) && NameOk(B_NAME) && NameOk(C_NAME) && NameOk(D_NAME)
    ensures Key(A_NAME) < Key(B_NAME) < Key(C_NAME) && Key(C_NAME) != Key(D_NAME)
  {
    hide Code;
    CodeOrder(A_NAME, B_NAME, NAME_LEN);
    CodeOrder(B_NAME, C_NAME, NAME_LEN);
    CodeOrder(C_NAME, D_NAME, NAME_LEN);
  }

  /** Three names are registered, the one in the middle first. */
  method Registered() returns (s: Server, b: Word, a: Word, c: Word)
    ensures fresh(s) && fresh(s.index) && s.Valid() && b != a && b != c && b != 0
    ensures s.table == seq(SERVICES, _ => UNUSED)[0 := Binding(true, b, 1, B_NAME)][1 := Binding(true, a, 2, A_NAME)]
                         [2 := Binding(true, c, 3, C_NAME)]
    ensures A.Sorted(s.index.tree) && A.TwoSided(s.index.tree, Key(B_NAME)) && A.Successor(s.index.tree, Key(B_NAME)) == Key(C_NAME)
    ensures Key(B_NAME) in A.Keys(s.index.tree) && A.Get(s.index.tree, Key(B_NAME)) == Some(b as int)
  {
    hide Key, KeySet, NameOk, TableOk, Agrees, FindUnused, A.Keys, A.Get, A.Insert, A.TwoSided, A.Successor, A.Sorted;
    Names();
    s := new Server();
    var answer;
    FirstFree(s.table, 0);
    answer, b := s.Register(B_NAME, 0, 1);
    ghost var t1, k1 := s.table, s.index.tree;
    ghost var n1 :| k1 == A.Insert(A.Leaf, Key(B_NAME), b, n1);
    FirstFree(s.table, 1);
    answer, a := s.Register(A_NAME, 0, 2);
    ghost var k2 := s.index.tree;
    ghost var n2 :| k2 == A.Insert(k1, Key(A_NAME), a, n2);
    assert t1[0].inUse && s.table[0] == t1[0];
    FirstFree(s.table, 2);
    answer, c := s.Register(C_NAME, 0, 3);
    ghost var n3 :| s.index.tree == A.Insert(k2, Key(C_NAME), c, n3);
    A.ThreeInserted(Key(A_NAME), Key(B_NAME), Key(C_NAME), b, a, c, n1, n2, n3);
  }

  /** The one in the middle is unregistered by its id, which the index then has for the last one. */
  method Confused() returns (s: Server, b: Word, a: Word, c: Word)
    ensures fresh(s) && fresh(s.index) && s.Valid() && b != a && b != c && b != 0
    ensures s.table == seq(SERVICES, _ => UNUSED)[1 := Binding(true, a, 2, A_NAME)][2 := Binding(true, c, 3, C_NAME)]
    ensures A.Get(s.index.tree, Key(C_NAME)) == Some(b as int)
  {
    hide Key, KeySet, NameOk, TableOk, Agrees, A.Keys, A.Get, A.Remove, A.TwoSided, A.Successor, A.Sorted;
    Names();
    s, b, a, c := Registered();
    ghost var tree := s.index.tree;
    LeadsFirst(s.table, b);
    var answer := s.Unregister([], b);
    A.RemoveDrops(tree, Key(B_NAME));
    assert A.Get(s.index.tree, Key(C_NAME)) == A.AfterRemove(tree, Key(B_NAME), Key(C_NAME));
  }

  /** Unregistering by name gone wrong.  After "b", "a" and "c" have been registered and "b" has been
      unregistered by its id, "c", though bound, is not found; and once the id has been given to "d",
      unregistering "c" unregisters "d". */
  method Misled() returns (s: Server, first: Answer, second: Answer)
    ensures fresh(s) && fresh(s.index) && s.Valid()
    ensures first == NotFound && second == Ok && NameUsed(s.table, C_NAME) && !NameUsed(s.table, D_NAME)
  {
    hide Key, KeySet, NameOk, TableOk, Agrees, FindUnused, A.Keys, A.Get, A.Insert, A.Remove, A.TwoSided;
    Names();
    var b, a, c, d, answer;
    s, b, a, c := Confused();
    assert FindId(s.table, b, 0).None?;
    first := s.Unregister(C_NAME, 0);
    FirstFree(s.table, 0);
    answer, d := s.Register(D_NAME, b, 4);
    LeadsFirst(s.table, b);
    second := s.Unregister(C_NAME, 0);
    assert s.table[2].inUse && s.table[2].name == C_NAME;
  }

  lemma LeadsFirst(table: seq<Binding>, id: Word)
    requires table != [] && table[0].inUse && table[0].id == id
    ensures FindId(table, id, 0) == Some(0)
  {
  }

  lemma FirstFree(table: seq<Binding>, j: nat)
    requires j < |table| && !table[j].inUse && forall i :: 0 <= i < j ==> table[i].inUse
    ensures FindUnused(table, 0) == Some(j)
  {
    FreeFrom(table, 0, j);
  }

  lemma {:induction false} FreeFrom(table: seq<Binding>, i: nat, j: nat)
    requires i <= j < |table| && !table[j].inUse && forall k :: i <= k < j ==> table[k].inUse
    ensures FindUnused(table, i) == Some(j)
    decreases j - i
  {
    if i < j {
      FreeFrom(table, i + 1, j);
    }
  }

  lemma KnownTable(table: seq<Binding>)
    requires TableOk(table)
    ensures |table| == SERVICES
  {
  }

  lemma UnusedElsewhere(table: seq<Binding>, j: nat, id: Word)
    requires j < |table| && !table[j].inUse && !IdUsed(table[j := Binding(true, 0, 0, [])], id)
    ensures !IdUsed(table, id)
  {
    var t := table[j := Binding(true, 0, 0, [])];
    assert forall i :: 0 <= i < |table| && table[i].inUse ==> t[i] == table[i];
  }

  lemma SameName(a: seq<Byte>, b: seq<Byte>)
    requires NameOk(a) && NameOk(b)
    ensures Compare(a, b, NAME_LEN) == 0 <==> a == b
  {
    CodeOrder(a, b, NAME_LEN);
    if Compare(a, b, NAME_LEN) == 0 {
      CompareEqual(a, b, NAME_LEN);
    }
  }
}
