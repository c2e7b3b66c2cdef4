/** The futex slot table: open addressing with linear probing and no deletion. */
module FutexTable {
  import opened Lists
  import opened KernelState

  const SLOTS := 64

  function Mix(k0: bv32): bv32 {
    var k1 := k0 ^ (k0 >> 4);
    var k2 := k1 ^ (k1 >> 9);
    k2 ^ (k2 >> 16)
  }

  function Hash(key: Word): (h: nat)
    ensures h < SLOTS
  {
    (Mix(key as bv32) as nat) % SLOTS
  }

  /** The slot looked at in step `i` of the probe that starts at `start`. */
  function Probe(start: nat, i: nat): (idx: nat)
    ensures idx < SLOTS
  {
    (start + i) % SLOTS
  }

  /** The step of the probe for `key` that looks at `slot`. */
  function Step(key: Word, slot: nat): (i: nat)
    requires slot < SLOTS
    ensures i < SLOTS && Probe(Hash(key), i) == slot
  {
    hide Hash;
    (slot - Hash(key)) % SLOTS
  }

  type Keys = seq<Option<Word>>

  ghost predicate Occupied(keys: Keys, start: nat, n: nat)
    requires |keys| == SLOTS
  {
    forall j :: 0 <= j < n ==> keys[Probe(start, j)].Some?
  }

  /** Keys are unique and the probe path to each is occupied. */
  ghost predicate Probing(keys: Keys) {
    && |keys| == SLOTS
    && (forall a, b :: 0 <= a < b < SLOTS && keys[a].Some? ==> keys[a] != keys[b])
    && (forall a :: 0 <= a < SLOTS && keys[a].Some?
          ==> Occupied(keys, Hash(keys[a].value), Step(keys[a].value, a)))
  }

  /** The slot of a key that has one. */
  ghost function SlotOf(keys: Keys, key: Word): (a: nat)
    requires Some(key) in keys
    ensures a < |keys| && keys[a] == Some(key)
  {
    var a :| 0 <= a < |keys| && keys[a] == Some(key);
    a
  }

  lemma OneSlot(keys: Keys, key: Word, a: nat)
    requires Probing(keys) && a < SLOTS && keys[a] == Some(key)
    ensures SlotOf(keys, key) == a
  {
    hide Hash, Step, Occupied;
    var b := SlotOf(keys, key);
    assert keys[b] == Some(key);
  }

  /** The table grows at free slots only: a key keeps its slot for ever. */
  ghost predicate Grows(from: Keys, to: Keys) {
    |from| == |to| && forall a :: 0 <= a < |from| && from[a].Some? ==> to[a] == from[a]
  }

  lemma OccupiedGrows(from: Keys, to: Keys, start: nat, n: nat)
    requires |from| == SLOTS && Grows(from, to) && Occupied(from, start, n)
    ensures Occupied(to, start, n)
  {
    hide Probe;
    forall j | 0 <= j < n ensures to[Probe(start, j)].Some? {
      assert from[Probe(start, j)].Some?;
    }
  }

  /** Claiming the first free slot of the probe path keeps every key reachable. */
  lemma ClaimKeepsProbing(keys: Keys, key: Word, idx: nat)
    requires Probing(keys) && Some(key) !in keys && idx < SLOTS && keys[idx].None?
    requires Occupied(keys, Hash(key), Step(key, idx))
    ensures Probing(keys[idx := Some(key)])
  {
    hide Hash;
    hide Occupied;
    hide Step;
    var keys' := keys[idx := Some(key)];
    forall a | 0 <= a < SLOTS && keys'[a].Some?
      ensures Occupied(keys', Hash(keys'[a].value), Step(keys'[a].value, a))
    {
      OccupiedGrows(keys, keys', Hash(keys'[a].value), Step(keys'[a].value, a));
    }
  }

  class Table {
    var keys: Keys

    ghost predicate Valid()
      reads this
    {
      Probing(keys)
    }

    constructor ()
      ensures Valid() && keys == seq(SLOTS, _ => None)
    {
      keys := seq(SLOTS, _ => None);
    }

    /** The slot of an address.  Without `create` the table is only read and the slot is found
        exactly when the address has one; with `create` only a full table refuses. */
    method GetQueue(addr: Word, create: bool) returns (slot: Option<nat>)
      requires Valid()
      modifies this
      ensures Valid() && Grows(old(keys), keys)
      ensures slot.Some? ==> slot.value < SLOTS && keys[slot.value] == Some(addr) && slot.value == SlotOf(keys, addr)
      ensures addr == 0 || !create || Some(addr) in old(keys) ==> keys == old(keys)
      ensures addr == 0 ==> slot.None?
      ensures addr != 0 && !create ==> (slot.Some? <==> Some(addr) in old(keys))
      ensures addr != 0 && create ==> (slot.Some? <==> Some(addr) in old(keys) || None in old(keys))
      ensures addr != 0 && create && slot.Some? ==> keys == old(keys)[slot.value := Some(addr)]
    {
      hide Hash;
      if addr == 0 {
        return None;
      }
      var start := Hash(addr);
      var i := 0;
      while i < SLOTS
        invariant i <= SLOTS && keys == old(keys)
        invariant Occupied(keys, start, i)
        invariant forall j :: 0 <= j < i ==> keys[Probe(start, j)] != Some(addr)
      {
        hide Probe;
        var idx := Probe(start, i);
        if keys[idx] == Some(addr) {
          OneSlot(keys, addr, idx);
          return Some(idx);
        }
        if keys[idx].None? {
          NotBeyond(keys, addr, i);
          if create {
            StepOfProbe(addr, i);
            ClaimKeepsProbing(keys, addr, idx);
            keys := keys[idx := Some(addr)];
            OneSlot(keys, addr, idx);
            return Some(idx);
          }
          return None;
        }
        i := i + 1;
      }
      NotBeyond(keys, addr, SLOTS);
      Full(keys, addr);
      return None;
    }
  }

  lemma StepOfProbe(key: Word, i: nat)
    requires i < SLOTS
    ensures Step(key, Probe(Hash(key), i)) == i
  {
    hide Hash;
  }

  /** A free slot on the path, or a whole round, rules the key out. */
  lemma NotBeyond(keys: Keys, key: Word, i: nat)
    requires Probing(keys) && i <= SLOTS
    requires i < SLOTS ==> keys[Probe(Hash(key), i)].None?
    requires forall j :: 0 <= j < i ==> keys[Probe(Hash(key), j)] != Some(key)
    ensures Some(key) !in keys
  {
    hide Hash;
    hide Probe;
    forall a | 0 <= a < SLOTS ensures keys[a] != Some(key) {
      var n := Step(key, a);
      assert Probe(Hash(key), n) == a;
    }
  }

  lemma Full(keys: Keys, key: Word)
    requires |keys| == SLOTS && Occupied(keys, Hash(key), SLOTS)
    ensures None !in keys
  {
    hide Hash;
    forall a | 0 <= a < SLOTS ensures keys[a].Some? {
      assert Probe(Hash(key), Step(key, a)) == a;
    }
  }
}
