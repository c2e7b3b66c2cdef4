/** Ids handed out in a circle 1 .. m, 0 staying reserved: what a search for an unused one tries. */
module Circular {

  /** The id tried after `v`. */
  function Next(v: nat, m: nat): nat {
    if v + 1 > m then 1 else v + 1
  }

  /** The id reached from `s` after `k` tries. */
  ghost function Tried(s: nat, k: nat, m: nat): nat
    requires 1 <= s <= m
  {
    if s + k <= m then s + k else s + k - m
  }

  lemma TriedNext(s: nat, k: nat, m: nat)
    requires 1 <= s <= m && k < m
    ensures Tried(s, 0, m) == s && 1 <= Tried(s, k, m) <= m && Tried(s, k + 1, m) == Next(Tried(s, k, m), m)
  {
  }

  /** The first `k` ids tried from `s`: so many different ones. */
  ghost function TriedSet(s: nat, k: nat, m: nat): (ids: set<nat>)
    requires 1 <= s <= m && k <= m
    ensures |ids| == k && forall v :: v in ids <==> exists j :: 0 <= j < k && v == Tried(s, j, m)
  {
    if k == 0 then {}
    else
      assert forall j :: 0 <= j < k - 1 ==> Tried(s, j, m) != Tried(s, k - 1, m);
      TriedSet(s, k - 1, m) + {Tried(s, k - 1, m)}
  }

  lemma {:induction false} SubsetCard<T>(a: set<T>, b: set<T>)
    requires a <= b
    ensures |a| <= |b|
  {
    if x :| x in a {
      SubsetCard(a - {x}, b - {x});
    }
  }

  /** Ids all in use are no more than the ids in use. */
  lemma TriedBound(s: nat, k: nat, m: nat, used: set<nat>)
    requires 1 <= s <= m && k <= m && forall j :: 0 <= j < k ==> Tried(s, j, m) in used
    ensures k <= |used|
  {
    SubsetCard(TriedSet(s, k, m), used);
  }
}
