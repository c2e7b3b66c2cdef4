/** Kernel timers: the timer table, the ring of armed timers in deadline order, and what
    draining the due timers up to `now` amounts to. */
module TimerTable {
  import opened Lists
  import opened KernelState

  datatype Timer = Timer(id: Word, owner: Word, deadline: int, period: int, flags: Word,
                         pending: nat, inUse: bool, armed: bool)

  const TIMERS := 32
  const UNUSED := Timer(0, 0, 0, 0, 0, 0, false, false)

  predicate Repeats(t: Timer) {
    t.flags % 2 == 1 && t.period > 0
  }

  /** How often a timer still fires when time has come to `now`. */
  function Remaining(t: Timer, now: int): nat {
    if !t.armed || t.deadline > now then 0
    else if Repeats(t) then (now - t.deadline) / t.period + 1
    else 1
  }

  /** A due timer after one firing: a periodic one is armed again one period later. */
  function Fired(t: Timer): Timer {
    if Repeats(t) then t.(deadline := t.deadline + t.period, armed := true) else t.(armed := false)
  }

  /** A timer after all its firings up to `now`. */
  function AfterTick(t: Timer, now: int): Timer {
    if Remaining(t, now) == 0 then t
    else if Repeats(t) then t.(deadline := t.deadline + Remaining(t, now) * t.period)
    else t.(armed := false)
  }

  lemma NextMultiple(d: int, p: int, now: int)
    requires p > 0 && d <= now
    ensures var n := (now - d) / p + 1; now < d + n * p <= now + p
  {
    var q := (now - d) / p;
    assert now - d == q * p + (now - d) % p;
    assert (q + 1) * p == q * p + p;
  }

  /** What a tick makes of a timer, from its fields: one that is due, asked to repeat by the low bit of its
      flags and given a period fires once for every period begun since its deadline and is armed for the
      first one after `now`. */
  lemma PeriodicTick(t: Timer, now: int)
    requires t.armed && t.deadline <= now && t.flags % 2 == 1 && t.period > 0
    ensures Remaining(t, now) == (now - t.deadline) / t.period + 1
    ensures var t' := AfterTick(t, now);
      && t' == t.(deadline := t'.deadline) && now < t'.deadline <= now + t.period
      && t'.deadline == t.deadline + ((now - t.deadline) / t.period + 1) * t.period
  {
    NextMultiple(t.deadline, t.period, now);
  }

  /** Any other that is due fires once and is armed no more, and what is not due stays as it is. */
  lemma OneShotTick(t: Timer, now: int)
    requires !(t.armed && t.deadline <= now && t.flags % 2 == 1 && t.period > 0)
    ensures t.armed && t.deadline <= now ==> Remaining(t, now) == 1 && AfterTick(t, now) == t.(armed := false)
    ensures !t.armed || t.deadline > now ==> Remaining(t, now) == 0 && AfterTick(t, now) == t
  {
  }

  lemma DivUnique(a: int, p: int, q: int)
    requires p > 0 && 0 <= a - q * p < p
    ensures a / p == q
  {
    var d := a / p - q;
    assert a - q * p == d * p + a % p;
    assert d >= 1 ==> d * p >= p;
    assert d <= -1 ==> d * p <= -p;
  }

  lemma DivStep(a: nat, p: nat)
    requires p > 0
    ensures a >= p ==> (a - p) / p == a / p - 1
    ensures a < p ==> a / p == 0
    ensures 0 <= a - (a / p) * p < p
  {
    var q := a / p;
    assert a - q * p == a % p;
    assert a - p - (q - 1) * p == a % p;
    DivUnique(a - p, p, q - 1);
    if a < p {
      DivUnique(a, p, 0);
    }
  }

  /** One firing uses up exactly one of the remaining ones and does not change where they lead. */
  lemma FiredOnce(t: Timer, now: int)
    requires Remaining(t, now) > 0
    ensures Remaining(Fired(t), now) == Remaining(t, now) - 1
    ensures AfterTick(Fired(t), now) == AfterTick(t, now)
  {
    if Repeats(t) {
      DivStep(now - t.deadline, t.period);
      var n := Remaining(t, now);
      assert (n - 1) * t.period + t.period == n * t.period;
    }
  }

  /** After the tick nothing is due any more. */
  lemma AfterTickNotDue(t: Timer, now: int)
    ensures Remaining(AfterTick(t, now), now) == 0
  {
    if Remaining(t, now) > 0 && Repeats(t) {
      DivStep(now - t.deadline, t.period);
    }
  }

  /** The firings still to come, over the whole table: the measure of the drain loop. */
  function Total(ts: seq<Timer>, now: int): nat {
    if ts == [] then 0 else Total(ts[..|ts| - 1], now) + Remaining(ts[|ts| - 1], now)
  }

  lemma {:induction false} TotalUpdate(ts: seq<Timer>, i: nat, t: Timer, now: int)
    requires i < |ts|
    ensures Total(ts[i := t], now) == Total(ts, now) - Remaining(ts[i], now) + Remaining(t, now)
  {
    var n := |ts| - 1;
    if i == n {
      assert ts[i := t][..n] == ts[..n];
    } else {
      assert ts[i := t][..n] == ts[..n][i := t];
      TotalUpdate(ts[..n], i, t, now);
    }
  }

  ghost predicate Armed(ts: seq<Timer>, ring: seq<nat>) {
    && |ts| == TIMERS
    && NoDup(ring)
    && (forall i :: i in ring <==> 0 <= i < TIMERS && ts[i].armed)
    && (forall i :: 0 <= i < TIMERS && ts[i].armed ==> ts[i].inUse && ts[i].deadline > 0)
  }

  function Deadlines(ts: seq<Timer>, ring: seq<nat>): (d: seq<int>)
    requires |ts| == TIMERS && InRange(ring)
    ensures |d| == |ring| && forall k :: 0 <= k < |ring| ==> d[k] == ts[ring[k]].deadline
  {
    seq(|ring|, k requires 0 <= k < |ring| => ts[ring[k]].deadline)
  }

  /** The ring holds exactly the armed timers, in deadline order. */
  ghost predicate RingOk(ts: seq<Timer>, ring: seq<nat>) {
    && Armed(ts, ring)
    && InRange(ring)
    && Sorted(Deadlines(ts, ring))
  }

  lemma ArmedRemove(ts: seq<Timer>, ring: seq<nat>, i: nat, t: Timer)
    requires Armed(ts, ring) && i < TIMERS && !t.armed
    ensures Armed(ts[i := t], Without(ring, i))
  {
    hide Without;
    hide NoDup;
  }

  lemma ArmedInsert(ts: seq<Timer>, ring: seq<nat>, i: nat, k: nat)
    requires Armed(ts, ring) && i < TIMERS && !ts[i].armed && ts[i].inUse && ts[i].deadline > 0 && k <= |ring|
    ensures Armed(ts[i := ts[i].(armed := true)], InsertAt(ring, k, i))
  {
    assert ring == ring[..k] + ring[k..];
    assert forall j :: j in InsertAt(ring, k, i) <==> j in ring || j == i;
  }

  predicate InRange(ring: seq<nat>) {
    forall k :: 0 <= k < |ring| ==> ring[k] < TIMERS
  }

  lemma DeadlinesCut(ts: seq<Timer>, ring: seq<nat>, k: nat, t: Timer)
    requires |ts| == TIMERS && InRange(ring) && NoDup(ring) && k < |ring|
    ensures var ring', d := ring[..k] + ring[k + 1..], Deadlines(ts, ring);
            InRange(ring') && Deadlines(ts[ring[k] := t], ring') == d[..k] + d[k + 1..]
  {
    var ring' := ring[..k] + ring[k + 1..];
    assert forall j :: 0 <= j < |ring'| ==> ring'[j] == ring[if j < k then j else j + 1] && ring'[j] != ring[k];
  }

  /** Unarming a timer and taking it off the ring; its other fields may change too. */
  lemma RingRemove(ts: seq<Timer>, ring: seq<nat>, i: nat, t: Timer)
    requires RingOk(ts, ring) && i < TIMERS && !t.armed
    ensures RingOk(ts[i := t], Without(ring, i))
  {
    hide Without, Sorted;
    ArmedRemove(ts, ring, i, t);
    if i in ring {
      var k :| 0 <= k < |ring| && ring[k] == i;
      WithoutAt(ring, k);
      DeadlinesCut(ts, ring, k, t);
      var d := Deadlines(ts, ring);
      SortedCut(d, k);
    } else {
      assert Deadlines(ts[i := t], ring) == Deadlines(ts, ring);
    }
  }

  /** Arming an unarmed timer at its place in the ring. */
  lemma RingInsert(ts: seq<Timer>, ring: seq<nat>, i: nat)
    requires RingOk(ts, ring) && i < TIMERS && !ts[i].armed && ts[i].inUse && ts[i].deadline > 0
    ensures RingOk(ts[i := ts[i].(armed := true)], InsertAt(ring, TimerPosition(Deadlines(ts, ring), ts[i].deadline), i))
  {
    hide TimerPosition;
    var d := Deadlines(ts, ring);
    var k := TimerPosition(d, ts[i].deadline);
    ArmedInsert(ts, ring, i, k);
    TimerInsertSorted(d, ts[i].deadline);
    hide Armed;
    hide Sorted;
    assert Deadlines(ts[i := ts[i].(armed := true)], InsertAt(ring, k, i)) == InsertAt(d, k, ts[i].deadline);
  }

  /** How often timer `i` occurs in a log of firings. */
  function Count(log: seq<nat>, i: nat): nat {
    if log == [] then 0 else Count(log[..|log| - 1], i) + if log[|log| - 1] == i then 1 else 0
  }

  lemma {:induction false} CountIs(log: seq<nat>, i: nat)
    ensures Count(log, i) == multiset(log)[i]
  {
    if log != [] {
      var n := |log| - 1;
      CountIs(log[..n], i);
      assert log == log[..n] + [log[n]];
    }
  }

  lemma CountSnoc(log: seq<nat>, i: nat, j: nat)
    ensures Count(log + [i], j) == Count(log, j) + if i == j then 1 else 0
  {
    assert (log + [i])[..|log|] == log;
  }

  /** When the firing number `n` of a timer is due. */
  function FiringTime(t: Timer, n: nat): int {
    t.deadline + if Repeats(t) then n * t.period else 0
  }

  /** What a timer that was `t0` with waiters `q0` has come to after `n` firings: each firing is
      one waiter gone or, with nobody left waiting, one pending fire. */
  ghost predicate Progress(t0: Timer, q0: seq<Pid>, t: Timer, q: seq<Pid>, n: nat, now: int) {
    && n + Remaining(t, now) == Remaining(t0, now)
    && AfterTick(t, now).(pending := 0) == AfterTick(t0, now).(pending := 0)
    && t.period == t0.period && t.flags == t0.flags && t.deadline == FiringTime(t0, n)
    && (n <= |q0| ==> q == q0[n..] && t.pending == t0.pending)
    && (n > |q0| ==> q == [] && t.pending == t0.pending + n - |q0|)
  }

  /** One firing of a timer, with `q` waiting on it. */
  function FiredWith(t: Timer, q: seq<Pid>): Timer {
    if q == [] then Fired(t).(pending := t.pending + 1) else Fired(t)
  }

  lemma ProgressStart(t: Timer, q: seq<Pid>, now: int)
    ensures Progress(t, q, t, q, 0, now)
  {
    assert 0 * t.period == 0;
  }

  lemma ProgressStep(t0: Timer, q0: seq<Pid>, t: Timer, q: seq<Pid>, n: nat, now: int)
    requires Progress(t0, q0, t, q, n, now) && Remaining(t, now) > 0
    ensures Progress(t0, q0, FiredWith(t, q), if q == [] then [] else q[1..], n + 1, now)
  {
    FiredOnce(t, now);
    assert Repeats(t) ==> n == Remaining(t0, now) - Remaining(t, now);
    assert (n + 1) * t0.period == n * t0.period + t0.period;
    var t' := FiredWith(t, q);
    assert Remaining(t', now) == Remaining(Fired(t), now);
    assert AfterTick(t', now).(pending := 0) == AfterTick(Fired(t), now).(pending := 0);
    if !Repeats(t) {
      assert Remaining(t0, now) <= 1 && n == 0;
    }
  }

  ghost predicate Chronicle(t0: seq<Timer>, log: seq<nat>, times: seq<int>, now: int)
    requires |t0| == TIMERS
  {
    && |log| == |times| && InRange(log) && Sorted(times)
    && (forall k :: 0 <= k < |times| ==> times[k] <= now)
    && (forall k :: 0 <= k < |times| ==> times[k] == FiringTime(t0[log[k]], Count(log[..k], log[k])))
  }

  /** What a chronicle tells, from the fields of the timers: the firings come in the order of their times,
      none later than `now`, and each was due at the deadline of its timer, or as many periods later as
      that timer had already fired. */
  lemma ChronicleMeans(t0: seq<Timer>, log: seq<nat>, times: seq<int>, now: int, k: nat)
    requires |t0| == TIMERS && Chronicle(t0, log, times, now) && k < |log|
    ensures |times| == |log| && log[k] < TIMERS && times[k] <= now && (k > 0 ==> times[k - 1] <= times[k])
    ensures var t := t0[log[k]];
      times[k] == if t.flags % 2 == 1 && t.period > 0 then t.deadline + multiset(log[..k])[log[k]] * t.period else t.deadline
  {
    CountIs(log[..k], log[k]);
  }

  /** Nothing armed is due before what has already fired. */
  ghost predicate NoneBefore(ts: seq<Timer>, times: seq<int>) {
    forall k, i :: 0 <= k < |times| && 0 <= i < |ts| && ts[i].armed ==> times[k] <= ts[i].deadline
  }

  /** The firings `log`, at the times `times`, have led from the timers `t0` with waiters in `q0`
      to the timers `ts` with waiters in `q`. */
  ghost predicate Drain(t0: seq<Timer>, q0: Rings, ts: seq<Timer>, q: Rings, log: seq<nat>, times: seq<int>, now: int) {
    && |t0| == |ts| == TIMERS
    && Chronicle(t0, log, times, now)
    && NoneBefore(ts, times)
    && (forall i :: 0 <= i < TIMERS ==>
          Progress(t0[i], At(q0, TimerRing(i)), ts[i], At(q, TimerRing(i)), Count(log, i), now))
  }

  lemma DrainStart(ts: seq<Timer>, q: Rings, now: int)
    requires |ts| == TIMERS
    ensures Drain(ts, q, ts, q, [], [], now)
  {
    forall i | 0 <= i < TIMERS ensures Progress(ts[i], At(q, TimerRing(i)), ts[i], At(q, TimerRing(i)), Count([], i), now) {
      ProgressStart(ts[i], At(q, TimerRing(i)), now);
    }
  }

  lemma DrainProgress(t0: seq<Timer>, q0: Rings, ts: seq<Timer>, q: Rings, ts': seq<Timer>, q': Rings,
                      log: seq<nat>, times: seq<int>, now: int, i: nat, j: nat)
    requires Drain(t0, q0, ts, q, log, times, now) && i < TIMERS && j < TIMERS
    requires Remaining(ts[i], now) > 0
    requires ts' == ts[i := FiredWith(ts[i], At(q, TimerRing(i)))]
    requires At(q', TimerRing(i)) == var w := At(q, TimerRing(i)); if w == [] then [] else w[1..]
    requires i != j ==> At(q', TimerRing(j)) == At(q, TimerRing(j))
    ensures Progress(t0[j], At(q0, TimerRing(j)), ts'[j], At(q', TimerRing(j)), Count(log + [i], j), now)
  {
    hide At, Progress, Remaining, FiredWith, Count, Chronicle, NoneBefore;
    CountSnoc(log, i, j);
    if i == j {
      ProgressStep(t0[i], At(q0, TimerRing(i)), ts[i], At(q, TimerRing(i)), Count(log, i), now);
    }
  }

  lemma ProgressTime(t0: Timer, q0: seq<Pid>, t: Timer, q: seq<Pid>, n: nat, now: int)
    requires Progress(t0, q0, t, q, n, now)
    ensures t.deadline == FiringTime(t0, n)
  {
  }

  lemma ChronicleStep(t0: seq<Timer>, log: seq<nat>, times: seq<int>, now: int, i: nat, when: int)
    requires |t0| == TIMERS && Chronicle(t0, log, times, now) && i < TIMERS && when <= now
    requires when == FiringTime(t0[i], Count(log, i)) && forall k :: 0 <= k < |times| ==> times[k] <= when
    ensures Chronicle(t0, log + [i], times + [when], now)
  {
    hide Count, FiringTime;
    var log', times' := log + [i], times + [when];
    forall k | 0 <= k < |times'| ensures times'[k] == FiringTime(t0[log'[k]], Count(log'[..k], log'[k])) {
      assert log'[..k] == log[..k];
      assert k == |log| ==> log[..k] == log;
    }
  }

  lemma NoneBeforeStep(ts: seq<Timer>, times: seq<int>, i: nat, q: seq<Pid>)
    requires NoneBefore(ts, times) && i < |ts| && ts[i].armed
    requires forall j :: 0 <= j < |ts| && ts[j].armed ==> ts[i].deadline <= ts[j].deadline
    ensures NoneBefore(ts[i := FiredWith(ts[i], q)], times + [ts[i].deadline])
    ensures forall k :: 0 <= k < |times| ==> times[k] <= ts[i].deadline
  {
    assert FiredWith(ts[i], q).deadline >= ts[i].deadline;
  }

  /** The earliest due timer fires: the next entry of the log. */
  lemma DrainStep(t0: seq<Timer>, q0: Rings, ts: seq<Timer>, q: Rings, ts': seq<Timer>, q': Rings,
                  log: seq<nat>, times: seq<int>, now: int, i: nat)
    requires Drain(t0, q0, ts, q, log, times, now) && i < TIMERS
    requires ts[i].armed && ts[i].deadline <= now && Remaining(ts[i], now) > 0
    requires forall j :: 0 <= j < TIMERS && ts[j].armed ==> ts[i].deadline <= ts[j].deadline
    requires ts' == ts[i := FiredWith(ts[i], At(q, TimerRing(i)))]
    requires At(q', TimerRing(i)) == var w := At(q, TimerRing(i)); if w == [] then [] else w[1..]
    requires forall j :: 0 <= j < TIMERS && j != i ==> At(q', TimerRing(j)) == At(q, TimerRing(j))
    ensures Drain(t0, q0, ts', q', log + [i], times + [ts[i].deadline], now)
  {
    hide At, Count, Progress, Chronicle, NoneBefore, Remaining, FiredWith, FiringTime;
    ProgressTime(t0[i], At(q0, TimerRing(i)), ts[i], At(q, TimerRing(i)), Count(log, i), now);
    NoneBeforeStep(ts, times, i, At(q, TimerRing(i)));
    ChronicleStep(t0, log, times, now, i, ts[i].deadline);
    forall j | 0 <= j < TIMERS
      ensures Progress(t0[j], At(q0, TimerRing(j)), ts'[j], At(q', TimerRing(j)), Count(log + [i], j), now)
    {
      DrainProgress(t0, q0, ts, q, ts', q', log, times, now, i, j);
    }
  }

  /** Whom the firings `log` wake: each firing the oldest thread still waiting on that timer. */
  function WokenBy(q0: Rings, log: seq<nat>): seq<Pid> {
    if log == [] then []
    else
      var n := |log| - 1;
      var w, c := At(q0, TimerRing(log[n])), Count(log[..n], log[n]);
      WokenBy(q0, log[..n]) + if c < |w| then [w[c]] else []
  }

  lemma WokenByStep(t0: seq<Timer>, q0: Rings, ts: seq<Timer>, q: Rings, log: seq<nat>, times: seq<int>, now: int, i: nat)
    requires Drain(t0, q0, ts, q, log, times, now) && i < TIMERS
    ensures WokenBy(q0, log + [i]) == WokenBy(q0, log) + var w := At(q, TimerRing(i)); if w == [] then [] else [w[0]]
  {
    hide At, Count, Chronicle, NoneBefore;
    assert (log + [i])[..|log|] == log;
    assert Progress(t0[i], At(q0, TimerRing(i)), ts[i], At(q, TimerRing(i)), Count(log, i), now);
  }

  lemma WokenByNone(q0: Rings)
    ensures WokenBy(q0, []) == []
  {
  }

  lemma DueRemains(t: Timer, now: int)
    requires t.armed && t.deadline <= now
    ensures Remaining(t, now) > 0
  {
    if Repeats(t) {
      DivStep(now - t.deadline, t.period);
    }
  }

  /** The measure of the drain loop goes down by one with every firing. */
  lemma FiredTotal(ts: seq<Timer>, i: nat, q: seq<Pid>, now: int)
    requires i < |ts| && Remaining(ts[i], now) > 0
    ensures Total(ts[i := FiredWith(ts[i], q)], now) == Total(ts, now) - 1
  {
    TotalUpdate(ts, i, FiredWith(ts[i], q), now);
    FiredOnce(ts[i], now);
    assert Remaining(FiredWith(ts[i], q), now) == Remaining(Fired(ts[i]), now);
  }

  lemma FiredUnarmed(t: Timer, q: seq<Pid>)
    ensures FiredWith(t.(armed := false), q) == FiredWith(t, q)
  {
  }

  lemma DrainLog(t0: seq<Timer>, q0: Rings, ts: seq<Timer>, q: Rings, log: seq<nat>, times: seq<int>, now: int)
    requires Drain(t0, q0, ts, q, log, times, now)
    ensures |t0| == |ts| == TIMERS && Chronicle(t0, log, times, now)
  {
  }

  /** The head of the ring is the earliest armed timer. */
  lemma HeadEarliest(ts: seq<Timer>, ring: seq<nat>)
    requires RingOk(ts, ring) && ring != []
    ensures ring[0] < TIMERS && ts[ring[0]].armed && ts[ring[0]].inUse && ts[ring[0]].deadline > 0
    ensures forall j :: 0 <= j < TIMERS && ts[j].armed ==> ts[ring[0]].deadline <= ts[j].deadline
  {
    var d := Deadlines(ts, ring);
    assert ring[0] in ring;
    forall j | 0 <= j < TIMERS && ts[j].armed ensures ts[ring[0]].deadline <= ts[j].deadline {
      assert j in ring;
      var k :| 0 <= k < |ring| && ring[k] == j;
      assert d[0] <= d[k];
    }
  }

  /** With no timer left that is due, every timer has fired exactly as often as it had to, and
      nothing is due. */
  lemma DrainDone(t0: seq<Timer>, q0: Rings, ts: seq<Timer>, q: Rings, log: seq<nat>, times: seq<int>, now: int, i: nat)
    requires Drain(t0, q0, ts, q, log, times, now) && i < TIMERS
    requires ts[i].armed ==> ts[i].deadline > now
    ensures Count(log, i) == Remaining(t0[i], now)
    ensures var n, w := Remaining(t0[i], now), At(q0, TimerRing(i));
      && At(q, TimerRing(i)) == w[if n <= |w| then n else |w|..]
      && ts[i] == AfterTick(t0[i], now).(pending := t0[i].pending + if n <= |w| then 0 else n - |w|)
  {
    hide At, Count;
    assert Progress(t0[i], At(q0, TimerRing(i)), ts[i], At(q, TimerRing(i)), Count(log, i), now);
    assert AfterTick(ts[i], now) == ts[i];
  }

  /** The first timer in use with an id, from entry `i` on. */
  function FirstFrom(ts: seq<Timer>, id: Word, i: nat): (r: Option<nat>)
    requires i <= |ts|
    ensures r.Some? ==>
      && i <= r.value < |ts| && ts[r.value].inUse && ts[r.value].id == id
      && forall j :: i <= j < r.value && ts[j].inUse ==> ts[j].id != id
    ensures r.None? ==> forall j :: i <= j < |ts| && ts[j].inUse ==> ts[j].id != id
    decreases |ts| - i
  {
    if i == |ts| then None
    else if ts[i].inUse && ts[i].id == id then Some(i)
    else FirstFrom(ts, id, i + 1)
  }

  /** The earliest deadline of an armed timer from `i` on. */
  function Earliest(ts: seq<Timer>, i: nat): (r: Option<int>)
    requires i <= |ts|
    ensures r.None? <==> forall j :: i <= j < |ts| ==> !ts[j].armed
    ensures r.Some? ==>
      && (exists j :: i <= j < |ts| && ts[j].armed && ts[j].deadline == r.value)
      && forall j :: i <= j < |ts| && ts[j].armed ==> r.value <= ts[j].deadline
    decreases |ts| - i
  {
    if i == |ts| then None
    else
      match Earliest(ts, i + 1)
      case None => if ts[i].armed then Some(ts[i].deadline) else None
      case Some(d) => if ts[i].armed && ts[i].deadline < d then Some(ts[i].deadline) else Some(d)
  }

  class Table {
    var timers: seq<Timer>
    var ring: seq<nat>
    var nextSeq: Word

    ghost predicate Valid()
      reads this
    {
      |timers| == TIMERS && RingOk(timers, ring) && nextSeq > 0
    }

    constructor ()
      ensures Valid() && ring == [] && nextSeq == 1 && timers == seq(TIMERS, _ => UNUSED)
    {
      timers, ring, nextSeq := seq(TIMERS, _ => UNUSED), [], 1;
    }

    method Remove(i: nat)
      requires Valid() && i < TIMERS
      modifies `timers, `ring
      ensures Valid() && ring == Without(old(ring), i)
      ensures timers == old(timers)[i := old(timers)[i].(armed := false)]
    {
      RingRemove(timers, ring, i, timers[i].(armed := false));
      if !timers[i].armed {
        return;
      }
      hide RingOk;
      ring := Without(ring, i);
      timers := timers[i := timers[i].(armed := false)];
    }

    method Insert(i: nat)
      requires Valid() && i < TIMERS && !timers[i].armed && timers[i].inUse && timers[i].deadline > 0
      modifies `timers, `ring
      ensures Valid() && InRange(old(ring)) && |old(timers)| == TIMERS
      ensures ring == InsertAt(old(ring), TimerPosition(Deadlines(old(timers), old(ring)), old(timers)[i].deadline), i)
      ensures timers == old(timers)[i := old(timers)[i].(armed := true)]
    {
      RingInsert(timers, ring, i);
      var k := TimerPosition(Deadlines(timers, ring), timers[i].deadline);
      hide RingOk;
      ring := InsertAt(ring, k, i);
      timers := timers[i := timers[i].(armed := true)];
    }

    /** The first timer in use with that id. */
    method Lookup(id: Word) returns (r: Option<nat>)
      requires Valid()
      ensures r == FirstFrom(timers, id, 0)
    {
      hide RingOk;
      for i := 0 to TIMERS
        invariant FirstFrom(timers, id, 0) == FirstFrom(timers, id, i)
      {
        if timers[i].inUse && timers[i].id == id {
          return Some(i);
        }
      }
      return None;
    }

    /** Takes the first unused entry; the sequence number skips 0 when it wraps. */
    method Alloc(owner: Word) returns (r: Option<nat>)
      requires Valid()
      modifies this
      ensures Valid() && ring == old(ring)
      ensures r.None? ==> timers == old(timers) && nextSeq == old(nextSeq)
      ensures r.None? <==> forall j :: 0 <= j < TIMERS ==> old(timers)[j].inUse
      ensures r.Some? ==>
        && r.value < TIMERS && !old(timers)[r.value].inUse
        && (forall j :: 0 <= j < r.value ==> old(timers)[j].inUse)
        && timers == old(timers)[r.value := Timer(old(nextSeq), owner, 0, 0, 0, 0, true, false)]
        && nextSeq == (if old(nextSeq) == 0xFFFF_FFFF then 1 else old(nextSeq) + 1)
    {
      for i := 0 to TIMERS
        invariant timers == old(timers) && nextSeq == old(nextSeq) && ring == old(ring)
        invariant forall j :: 0 <= j < i ==> timers[j].inUse
      {
        if !timers[i].inUse {
          var t := Timer(nextSeq, owner, 0, 0, 0, 0, true, false);
          RingRemove(timers, ring, i, t);
          assert i !in ring;
          hide RingOk;
          timers := timers[i := t];
          nextSeq := if nextSeq == 0xFFFF_FFFF then 1 else nextSeq + 1;
          return Some(i);
        }
      }
      return None;
    }

    /** Rewrites an unarmed entry: the field updates of release, arm and fire. */
    method Set(i: nat, t: Timer)
      requires Valid() && i < TIMERS && !timers[i].armed && !t.armed
      modifies `timers
      ensures Valid() && timers == old(timers)[i := t]
    {
      RingRemove(timers, ring, i, t);
      hide RingOk;
      timers := timers[i := t];
    }

    /** The pending count does not touch the ring. */
    method SetPending(i: nat, pending: nat)
      requires Valid() && i < TIMERS
      modifies `timers
      ensures Valid() && timers == old(timers)[i := old(timers)[i].(pending := pending)]
    {
      RingPending(timers, ring, i, pending);
      hide RingOk;
      timers := timers[i := timers[i].(pending := pending)];
    }
  }

  lemma RingPending(ts: seq<Timer>, ring: seq<nat>, i: nat, pending: nat)
    requires RingOk(ts, ring) && i < TIMERS
    ensures RingOk(ts[i := ts[i].(pending := pending)], ring)
  {
    assert Deadlines(ts[i := ts[i].(pending := pending)], ring) == Deadlines(ts, ring);
  }
}
