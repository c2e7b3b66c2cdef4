/** Pure sequence vocabulary shared by the linked-list refinement and the kernel model:
    what appending, unlinking and ordered insertion mean for the order of a list. */
module Lists {

  datatype Option<+T> = None | Some(value: T)

  ghost predicate NoDup<T>(s: seq<T>) {
    forall i, j :: 0 <= i < j < |s| ==> s[i] != s[j]
  }

  /** `s` without the first occurrence of `x`; all the others keep their order. */
  function Without<T(==)>(s: seq<T>, x: T): (r: seq<T>)
    ensures x in s ==> |r| == |s| - 1
    ensures x !in s ==> r == s
    ensures forall y :: y in r ==> y in s
    ensures forall y :: y in s && y != x ==> y in r
    ensures NoDup(s) ==> x !in r && NoDup(r)
  {
    if s == [] then []
    else if s[0] == x then s[1..]
    else
      assert NoDup(s) ==> NoDup(s[1..]) && s[0] !in s[1..];
      [s[0]] + Without(s[1..], x)
  }

  lemma {:induction false} WithoutAt<T>(s: seq<T>, k: nat)
    requires k < |s| && NoDup(s)
    ensures Without(s, s[k]) == s[..k] + s[k + 1..]
  {
    if k > 0 {
      WithoutAt(s[1..], k - 1);
      assert s[1..][..k - 1] == s[1..k];
      assert s[..k] == [s[0]] + s[1..k];
      assert s[1..][k..] == s[k + 1..];
    }
  }

  /** `a` stands before `b` in `s`. */
  ghost predicate Before<T>(s: seq<T>, a: T, b: T) {
    exists i, j :: 0 <= i < j < |s| && s[i] == a && s[j] == b
  }

  lemma BeforeCons<T>(s: seq<T>, a: T, b: T)
    requires s != []
    ensures Before(s, a, b) <==> (s[0] == a && b in s[1..]) || Before(s[1..], a, b)
  {
    var t := s[1..];
    if Before(s, a, b) {
      var i, j :| 0 <= i < j < |s| && s[i] == a && s[j] == b;
      assert t[j - 1] == b;
      if i > 0 { assert t[i - 1] == a; }
    }
    if s[0] == a && b in t {
      var j :| 0 <= j < |t| && t[j] == b;
      assert s[j + 1] == b;
    }
    if Before(t, a, b) {
      var i, j :| 0 <= i < j < |t| && t[i] == a && t[j] == b;
      assert s[i + 1] == a && s[j + 1] == b;
    }
  }

  /** FIFO: unlinking any third element keeps the relative order of the two that stay. */
  lemma {:induction false} WithoutKeepsOrder<T>(s: seq<T>, x: T, a: T, b: T)
    requires a != x && b != x
    ensures Before(s, a, b) <==> Before(Without(s, x), a, b)
  {
    if s != [] {
      BeforeCons(s, a, b);
      if s[0] != x {
        var r := Without(s, x);
        assert r[1..] == Without(s[1..], x);
        BeforeCons(r, a, b);
        WithoutKeepsOrder(s[1..], x, a, b);
      }
    }
  }

  ghost predicate Sorted(d: seq<int>) {
    forall i, j :: 0 <= i < j < |d| ==> d[i] <= d[j]
  }

  function InsertAt<T>(s: seq<T>, k: nat, x: T): seq<T>
    requires k <= |s|
  {
    s[..k] + [x] + s[k..]
  }

  lemma InsertedOnce<T>(s: seq<T>, k: nat, x: T)
    requires k <= |s|
    ensures forall y :: y in InsertAt(s, k, x) <==> y in s || y == x
    ensures x !in s && NoDup(s) ==> NoDup(InsertAt(s, k, x))
  {
    assert s == s[..k] + s[k..];
    var r := InsertAt(s, k, x);
    assert forall i :: 0 <= i < |r| ==> r[i] == if i < k then s[i] else if i == k then x else s[i - 1];
  }

  /** Where the timer ring puts a new deadline: before the first strictly later one. */
  function TimerPosition(d: seq<int>, x: int): (k: nat)
    ensures k <= |d|
    ensures forall i :: 0 <= i < k ==> d[i] <= x
    ensures k < |d| ==> x < d[k]
  {
    if d == [] || x < d[0] then 0 else 1 + TimerPosition(d[1..], x)
  }

  lemma TimerPositionUnique(d: seq<int>, x: int, k: nat)
    requires k <= |d|
    requires forall i :: 0 <= i < k ==> d[i] <= x
    requires k < |d| ==> x < d[k]
    ensures k == TimerPosition(d, x)
  {
  }

  lemma SortedCut(d: seq<int>, k: nat)
    requires Sorted(d) && k < |d|
    ensures Sorted(d[..k] + d[k + 1..])
  {
  }

  /** Ordered insertion keeps a sorted ring sorted, and a newcomer goes behind its equals. */
  lemma TimerInsertSorted(d: seq<int>, x: int)
    requires Sorted(d)
    ensures Sorted(InsertAt(d, TimerPosition(d, x), x))
  {
  }

  /** Where the sleep list puts a new expiry: with two or more sleepers the scan stops at the
      tail without looking at it, and falls back to appending. */
  function SleepPosition(d: seq<int>, x: int): (k: nat)
    ensures k <= |d|
  {
    if |d| == 0 then 0
    else if |d| == 1 then if d[0] > x then 0 else 1
    else SleepScan(d, x, 0)
  }

  function SleepScan(d: seq<int>, x: int, i: nat): (k: nat)
    requires i < |d|
    ensures i <= k <= |d|
    ensures forall j :: i <= j < k && j < |d| - 1 ==> d[j] <= x
    ensures k < |d| ==> k < |d| - 1 && d[k] > x
    decreases |d| - i
  {
    if i == |d| - 1 then |d|
    else if d[i] > x then i
    else SleepScan(d, x, i + 1)
  }

  /** The one case in which the sleep list loses its order. */
  predicate OvertakesOnlyTheTail(d: seq<int>, x: int) {
    |d| >= 2 && d[|d| - 1] > x && forall i :: 0 <= i < |d| - 1 ==> d[i] <= x
  }

  /** Sleep insertion keeps a sorted list sorted exactly when the newcomer does not have to
      overtake the tail alone. */
  lemma SleepInsertSortedIff(d: seq<int>, x: int)
    requires Sorted(d)
    ensures Sorted(InsertAt(d, SleepPosition(d, x), x)) <==> !OvertakesOnlyTheTail(d, x)
  {
    var k := SleepPosition(d, x);
    var r := InsertAt(d, k, x);
    if OvertakesOnlyTheTail(d, x) {
      assert r[|d| - 1] == d[|d| - 1] && r[|d|] == x;
    }
  }

  lemma SleepOrderCounterexample()
    ensures InsertAt([10, 30], SleepPosition([10, 30], 20), 20) == [10, 30, 20]
  {
    assert SleepScan([10, 30], 20, 1) == 2;
  }
}
