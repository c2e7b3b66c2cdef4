/** The hashed index from virtual thread ids to thread slots. */
module VidIndex {
  import opened Lists
  import opened KernelState
  import opened Circular

  datatype VidItem = VidItem(pid: Pid, vid: Word)

  function FoldBytes(w: bv32): bv32 {
    ((w >> 24) & 0xFF) ^ ((w >> 16) & 0xFF) ^ ((w >> 8) & 0xFF) ^ (w & 0xFF)
  }

  /** The exclusive or of the four bytes, as an 8-bit value. */
  function Hash(v: Word): (h: nat)
    ensures h < 256
  {
    (FoldBytes(v as bv32) as nat) % 256
  }

  const AUTO_LIMIT := 65536

  const LAST_AUTO := AUTO_LIMIT - 1

  ghost predicate Injective(m: map<Word, Pid>) {
    forall v, w :: v in m && w in m && m[v] == m[w] ==> v == w
  }

  /** An injective map into the 32 thread slots that misses one of them has fewer than 32 keys. */
  lemma {:induction false} InjectiveSize(m: map<Word, Pid>, used: set<Pid>)
    requires Injective(m) && forall v :: v in m ==> m[v] in used
    ensures |m| <= |used|
    decreases |m|
  {
    if v :| v in m {
      var rest := m - {v};
      assert |rest| == |m| - 1;
      InjectiveSize(rest, used - {m[v]});
    }
  }

  lemma {:induction false} BelowCard(n: nat, s: set<nat>)
    requires forall x :: x in s ==> x < n
    ensures |s| <= n
  {
    if n > 0 {
      BelowCard(n - 1, s - {n - 1});
    } else {
      assert s == {};
    }
  }

  /** Chain `h` holds exactly one item for each indexed id that hashes to `h`. */
  ghost predicate ChainOk(chain: seq<VidItem>, h: nat, index: map<Word, Pid>) {
    && NoDup(chain)
    && forall it: VidItem :: it in chain <==> it.vid in index && index[it.vid] == it.pid && Hash(it.vid) == h
  }

  ghost predicate Chains(slots: seq<seq<VidItem>>, index: map<Word, Pid>) {
    && |slots| == 256
    && forall h :: 0 <= h < 256 ==> ChainOk(slots[h], h, index)
  }

  lemma ChainsInsert(slots: seq<seq<VidItem>>, index: map<Word, Pid>, pid: Pid, v: Word)
    requires Chains(slots, index) && v !in index
    ensures Chains(slots[Hash(v) := [VidItem(pid, v)] + slots[Hash(v)]], index[v := pid])
  {
    hide Hash;
    var slots', index' := slots[Hash(v) := [VidItem(pid, v)] + slots[Hash(v)]], index[v := pid];
    forall g | 0 <= g < 256 ensures ChainOk(slots'[g], g, index') {
      assert ChainOk(slots[g], g, index);
    }
  }

  lemma ChainsRemove(slots: seq<seq<VidItem>>, index: map<Word, Pid>, h: nat, it: VidItem)
    requires Chains(slots, index) && h < 256 && it in slots[h]
    ensures Chains(slots[h := Without(slots[h], it)], index - {it.vid})
  {
    hide Hash;
    assert ChainOk(slots[h], h, index);
    var slots', index' := slots[h := Without(slots[h], it)], index - {it.vid};
    forall g | 0 <= g < 256 ensures ChainOk(slots'[g], g, index') {
      assert ChainOk(slots[g], g, index);
    }
  }

  class VidTable {
    var slots: seq<seq<VidItem>>    // one chain per hash value
    var freeItems: nat              // items left in the pool
    var nextId: nat
    ghost var index: map<Word, Pid>

    ghost predicate Valid()
      reads this
    {
      && |slots| == 256 && 1 <= nextId < AUTO_LIMIT
      && Chains(slots, index)
      && Injective(index)
      && freeItems + |index| == 32
    }

    constructor ()
      ensures Valid() && index == map[]
    {
      slots := seq(256, _ => []);
      freeItems, nextId, index := 32, 1, map[];
    }

    /** The chain walk finds exactly what is indexed. */
    method Lookup(v: Word) returns (r: Option<Pid>)
      requires Valid()
      ensures r == if v in index then Some(index[v]) else None
    {
      hide Hash;
      var chain := slots[Hash(v)];
      assert ChainOk(chain, Hash(v), index);
      assert v in index ==> VidItem(index[v], v) in chain;
      var i := 0;
      while i < |chain|
        invariant i <= |chain|
        invariant forall j :: 0 <= j < i ==> chain[j].vid != v
      {
        if chain[i].vid == v {
          assert chain[i] in chain;
          return Some(chain[i].pid);
        }
        i := i + 1;
      }
      return None;
    }

    lemma PoolNotEmpty(pid: Pid)
      requires Valid() && pid !in index.Values
      ensures freeItems > 0
    {
      hide Chains;
      var all: set<nat> := index.Values + {pid};
      BelowCard(32, all);
      InjectiveSize(index, index.Values);
    }

    /** Binds an unused id to an unbound thread; the pool cannot be empty then. */
    method Insert(pid: Pid, v: Word) returns (panic: bool)
      requires Valid() && v !in index && pid !in index.Values
      modifies this
      ensures Valid() && index == old(index)[v := pid] && nextId == old(nextId)
      ensures !panic && freeItems == old(freeItems) - 1
    {
      hide Hash;
      hide Chains;
      PoolNotEmpty(pid);
      if freeItems == 0 {
        return true;
      }
      ChainsInsert(slots, index, pid, v);
      freeItems := freeItems - 1;
      slots := slots[Hash(v) := [VidItem(pid, v)] + slots[Hash(v)]];
      index := index[v := pid];
      return false;
    }

    /** Unbinds a thread, if it is bound at all. */
    method Remove(pid: Pid, v: Word)
      requires Valid() && (pid in index.Values ==> v in index && index[v] == pid)
      modifies this
      ensures Valid() && nextId == old(nextId)
      ensures index == if pid in old(index.Values) then old(index) - {v} else old(index)
    {
      hide Hash;
      var h := Hash(v);
      var i := Find(h, pid);
      assert ChainOk(slots[h], h, index);
      assert pid in index.Values ==> VidItem(pid, v) in slots[h];
      if i == |slots[h]| {
        return;
      }
      var it := slots[h][i];
      assert it in slots[h] && it.pid in index.Values;
      hide Chains;
      hide ChainOk;
      WithoutAt(slots[h], i);
      ChainsRemove(slots, index, h, it);
      slots := slots[h := slots[h][..i] + slots[h][i + 1..]];
      freeItems := freeItems + 1;
      index := index - {v};
    }

    method Find(h: nat, pid: Pid) returns (i: nat)
      requires |slots| == 256 && h < 256
      ensures i <= |slots[h]| && (i < |slots[h]| ==> slots[h][i].pid == pid)
      ensures forall j :: 0 <= j < i ==> slots[h][j].pid != pid
    {
      i := 0;
      while i < |slots[h]| && slots[h][i].pid != pid
        invariant i <= |slots[h]|
        invariant forall j :: 0 <= j < i ==> slots[h][j].pid != pid
      {
        i := i + 1;
      }
    }

    /** The search for an unused id: it takes the first unused one in circular order and ends
        because at most 32 ids are taken. */
    method FreshVid() returns (v: Word, ghost k: nat)
      requires Valid()
      modifies `nextId
      ensures Valid() && nextId == Next(v, LAST_AUTO)
      ensures 1 <= v < AUTO_LIMIT && v !in index
      ensures 1 <= old(nextId) <= LAST_AUTO && v == Tried(old(nextId), k, LAST_AUTO) && k <= 32
      ensures forall j :: 0 <= j < k ==> Tried(old(nextId), j, LAST_AUTO) in index
    {
      hide Chains;
      ghost var s := nextId;
      TriedNext(s, 0, LAST_AUTO);
      k := 0;
      v := nextId;
      nextId := Next(nextId, LAST_AUTO);
      var r := Lookup(v);
      while r.Some?
        invariant Valid() && nextId == Next(v, LAST_AUTO) && v == Tried(s, k, LAST_AUTO) && 1 <= v < AUTO_LIMIT
        invariant r == if v in index then Some(index[v]) else None
        invariant forall j :: 0 <= j < k ==> Tried(s, j, LAST_AUTO) in index
        invariant k <= 32
        decreases 33 - k
      {
        AtMost32();
        TriedBound(s, k + 1, LAST_AUTO, index.Keys);
        TriedNext(s, k, LAST_AUTO);
        k := k + 1;
        v := nextId;
        nextId := Next(nextId, LAST_AUTO);
        r := Lookup(v);
      }
    }

    lemma AtMost32()
      requires Valid()
      ensures |index.Keys| <= 32
    {
      hide Chains;
      InjectiveSize(index, index.Values);
      BelowCard(32, index.Values);
    }
  }
}
