/** The scheduling state of the kernel and the invariant that every thread has one home.

    The thread table is kept column by column (one sequence per TCB field), the kernel's
    circular lists are the sequences they stand for (module Ring), each under its own name. */
module KernelState {
  import opened Lists

  type Pid = t: nat | t < 32
  type Priority = p: nat | p < 8
  type Word = w: nat | w < 0x1_0000_0000

  datatype ThreadState =
    | Free | Running | Ready | WaitingMsg | WaitingRead | WaitingReply
    | WaitingSync | Sleep | Zombie | PendingJoin | Stopped

  datatype PortState = WaitListen | PortReady

  /** Every circular list of threads. */
  datatype RingId =
    | FreeRing | ReadyRing(priority: Priority) | WaitRing | SleepRing | SyncSleepRing
    | StoppedRing | ZombieRing
    | PendingRing(owner: Pid) | ReplyRing(owner: Pid)
    | FutexRing(slot: nat) | TimerRing(index: nat)

  /** Where a thread lives.  `Limbo` only occurs in the middle of a kernel operation. */
  datatype Home = InRing(ring: RingId) | Joining(target: Pid) | OnCore(core: nat) | Limbo

  type Rings = map<RingId, seq<Pid>>

  function At(rings: Rings, r: RingId): seq<Pid> {
    if r in rings then rings[r] else []
  }

  function Put(rings: Rings, r: RingId, s: seq<Pid>): (rings': Rings)
    ensures forall q :: At(rings', q) == if q == r then s else At(rings, q)
  {
    rings[r := s]
  }

  predicate IsQueue(r: RingId) {
    r.FutexRing? || r.TimerRing?
  }

  /** The state id that each list stamps on the threads put into it. */
  function StateOf(r: RingId): ThreadState {
    match r
    case FreeRing => Free
    case ReadyRing(_) => Ready
    case WaitRing => WaitingMsg
    case SleepRing => Sleep
    case StoppedRing => Stopped
    case ZombieRing => Zombie
    case PendingRing(_) => WaitingRead
    case ReplyRing(_) => WaitingReply
    case _ => WaitingSync
  }

  /** The columns and lists that decide where threads are. */
  datatype Sched = Sched(state: seq<ThreadState>, priority: seq<Priority>, port: seq<PortState>, timeout: seq<bool>,
                         queue: seq<Option<RingId>>, joiner: seq<Option<Pid>>,
                         running: seq<Option<Pid>>, rings: Rings,
                         ghost leaving: Option<nat>, ghost home: seq<Home>)

  /** Every column has one entry per thread. */
  ghost predicate Shaped(k: Sched) {
    |k.state| == |k.priority| == |k.port| == |k.timeout| == |k.queue| == |k.joiner| == |k.home| == 32
  }

  /** What `home[t]` says about the columns and lists. */
  ghost predicate HomeHolds(k: Sched, t: Pid)
    requires Shaped(k)
  {
    match k.home[t]
    case InRing(r) =>
      && !r.SyncSleepRing?
      && t in At(k.rings, r)
      && k.state[t] == StateOf(r)
      && (r.ReadyRing? ==> r.priority == k.priority[t])
      && k.queue[t] == (if IsQueue(r) then Some(r) else None)
    case Joining(o) => k.joiner[o] == Some(t) && k.state[t] == PendingJoin && k.queue[t] == None
    case OnCore(c) =>
      c < |k.running| && k.running[c] == Some(t) && k.leaving != Some(c) && k.state[t] == Running && k.queue[t] == None
    case Limbo => k.queue[t] == None
  }

  /** Every list holds each of its threads once, and only threads whose home it is. */
  ghost predicate Listed(rings: Rings, home: seq<Home>)
    requires |home| == 32
  {
    && (forall r :: NoDup(At(rings, r)))
    && (forall r, t: Pid :: t in At(rings, r) && !r.SyncSleepRing? ==> home[t] == InRing(r))
  }

  /** Each thread is in the one place its home names and in no other; a thread is on the
      timeout list exactly when its timeout flag is set, and then it waits in some queue.
      `leaving` is the core, if any, whose running thread has moved on before the slot is
      cleared. */
  ghost predicate Homes(k: Sched) {
    && Shaped(k)
    && Listed(k.rings, k.home)
    && (forall t: Pid :: t in At(k.rings, SyncSleepRing) <==> k.timeout[t])
    && (forall t: Pid :: k.timeout[t] ==> k.home[t].Limbo? || (k.home[t].InRing? && IsQueue(k.home[t].ring)))
    && (forall t: Pid {:trigger k.home[t]} :: HomeHolds(k, t))
    && (forall o: Pid :: k.joiner[o].Some? ==> k.home[k.joiner[o].value] == Joining(o))
    && (forall c :: 0 <= c < |k.running| && k.running[c].Some? && k.leaving != Some(c)
          ==> k.home[k.running[c].value] == OnCore(c))
  }

  ghost predicate Dead(k: Sched, t: Pid)
    requires Shaped(k)
  {
    k.home[t] == InRing(FreeRing) || k.home[t] == InRing(ZombieRing)
  }

  /** Nobody waits on a dead thread, and nobody queues for a thread that is ready to receive. */
  ghost predicate Ports(k: Sched)
    requires Shaped(k)
  {
    && (forall t: Pid :: Dead(k, t) ==>
          At(k.rings, PendingRing(t)) == [] && At(k.rings, ReplyRing(t)) == [] && k.joiner[t].None? && k.port[t].WaitListen?)
    && (forall t: Pid :: k.port[t].PortReady? ==> At(k.rings, PendingRing(t)) == [])
    && (forall t: Pid :: k.home[t] == InRing(WaitRing) ==> k.port[t].PortReady?)
  }

  /** When a thread may be put on list `r` without anyone left waiting on the dead. */
  ghost predicate MayLink(k: Sched, r: RingId, t: Pid)
    requires Shaped(k)
  {
    && (r.PendingRing? ==> !Dead(k, r.owner) && k.port[r.owner].WaitListen?)
    && (r.ReplyRing? ==> !Dead(k, r.owner))
    && (r.WaitRing? ==> k.port[t].PortReady?)
    && (r.FreeRing? || r.ZombieRing? ==>
          At(k.rings, PendingRing(t)) == [] && At(k.rings, ReplyRing(t)) == [] && k.joiner[t].None? && k.port[t].WaitListen?)
  }

  // The atomic moves of the scheduler: each keeps every thread in one home, and nobody waiting
  // on a dead thread.

  /** Thread `t` leaves list or queue `r`. */
  ghost function Unlink(k: Sched, r: RingId, t: Pid): (k': Sched)
    requires Shaped(k)
    ensures Shaped(k')
  {
    k.(rings := Put(k.rings, r, Without(At(k.rings, r), t)), queue := k.queue[t := None], home := k.home[t := Limbo])
  }

  /** A homeless thread joins list or queue `r`, which then reads `s`. */
  ghost function Link(k: Sched, r: RingId, t: Pid, s: seq<Pid>): (k': Sched)
    requires Shaped(k)
    ensures Shaped(k')
  {
    k.(rings := Put(k.rings, r, s), state := k.state[t := StateOf(r)],
       queue := k.queue[t := if IsQueue(r) then Some(r) else None], home := k.home[t := InRing(r)])
  }

  ghost function SetTimeout(k: Sched, t: Pid): (k': Sched)
    requires Shaped(k)
    ensures Shaped(k')
  {
    k.(rings := Put(k.rings, SyncSleepRing, At(k.rings, SyncSleepRing) + [t]), timeout := k.timeout[t := true])
  }

  ghost function CancelTimeout(k: Sched, t: Pid): (k': Sched)
    requires Shaped(k)
    ensures Shaped(k')
  {
    if k.timeout[t]
    then k.(rings := Put(k.rings, SyncSleepRing, Without(At(k.rings, SyncSleepRing), t)), timeout := k.timeout[t := false])
    else k
  }

  /** The running thread of core `c` is about to be put somewhere else. */
  ghost function Depart(k: Sched, c: nat): (k': Sched)
    requires Shaped(k) && c < |k.running| && k.running[c].Some?
    ensures Shaped(k')
  {
    k.(home := k.home[k.running[c].value := Limbo], leaving := Some(c))
  }

  ghost function ClearCore(k: Sched, c: nat): (k': Sched)
    requires Shaped(k) && c < |k.running|
    ensures Shaped(k')
  {
    k.(running := k.running[c := None], leaving := None)
  }

  ghost function Dispatch(k: Sched, c: nat, t: Pid): (k': Sched)
    requires Shaped(k) && c < |k.running|
    ensures Shaped(k')
  {
    k.(running := k.running[c := Some(t)], state := k.state[t := Running], home := k.home[t := OnCore(c)])
  }

  ghost function Join(k: Sched, o: Pid, t: Pid): (k': Sched)
    requires Shaped(k)
    ensures Shaped(k')
  {
    k.(joiner := k.joiner[o := Some(t)], state := k.state[t := PendingJoin], home := k.home[t := Joining(o)])
  }

  ghost function Unjoin(k: Sched, o: Pid): (k': Sched)
    requires Shaped(k) && k.joiner[o].Some?
    ensures Shaped(k')
  {
    k.(joiner := k.joiner[o := None], home := k.home[k.joiner[o].value := Limbo])
  }

  ghost function SetPriority(k: Sched, t: Pid, p: Priority): (k': Sched)
    requires Shaped(k)
    ensures Shaped(k')
  {
    k.(priority := k.priority[t := p])
  }

  lemma HomeHoldsUnlink(k: Sched, r: RingId, t: Pid, u: Pid)
    requires Homes(k) && t in At(k.rings, r) && !r.SyncSleepRing?
    ensures HomeHolds(Unlink(k, r, t), u)
  {
    hide Without;
    hide NoDup;
    assert HomeHolds(k, u);
  }

  lemma ListedHome(rings: Rings, home: seq<Home>, r: RingId, t: Pid)
    requires |home| == 32 && Listed(rings, home) && t in At(rings, r) && !r.SyncSleepRing?
    ensures home[t] == InRing(r)
  {
  }

  lemma ListedUnlink(rings: Rings, home: seq<Home>, r: RingId, t: Pid)
    requires |home| == 32 && Listed(rings, home) && !r.SyncSleepRing? && home[t] == InRing(r)
    ensures Listed(Put(rings, r, Without(At(rings, r), t)), home[t := Limbo])
  {
    hide NoDup, Without, At;
    var rings' := Put(rings, r, Without(At(rings, r), t));
    assert NoDup(At(rings, r));
    forall q, u: Pid | u in At(rings', q) && !q.SyncSleepRing? ensures u != t && home[u] == InRing(q) {
      assert u in At(rings, q);
    }
    forall q ensures NoDup(At(rings', q)) {
      assert NoDup(At(rings, q));
    }
  }

  lemma ListedLink(rings: Rings, home: seq<Home>, r: RingId, t: Pid, s: seq<Pid>)
    requires |home| == 32 && Listed(rings, home) && !r.SyncSleepRing? && home[t].Limbo?
    requires NoDup(s) && forall u :: u in s <==> u in At(rings, r) || u == t
    ensures Listed(Put(rings, r, s), home[t := InRing(r)])
  {
    hide NoDup, At;
  }

  lemma ListedTimeouts(rings: Rings, home: seq<Home>, s: seq<Pid>)
    requires |home| == 32 && Listed(rings, home) && NoDup(s)
    ensures Listed(Put(rings, SyncSleepRing, s), home)
  {
    hide NoDup, At;
  }

  lemma HomesUnlink(k: Sched, r: RingId, t: Pid)
    requires Homes(k) && t in At(k.rings, r) && !r.SyncSleepRing?
    ensures Homes(Unlink(k, r, t))
  {
    ListedHome(k.rings, k.home, r, t);
    hide Without, NoDup, HomeHolds, Listed;
    ListedUnlink(k.rings, k.home, r, t);
    forall u: Pid ensures HomeHolds(Unlink(k, r, t), u) {
      HomeHoldsUnlink(k, r, t, u);
    }
  }

  lemma HomeHoldsLink(k: Sched, r: RingId, t: Pid, s: seq<Pid>, u: Pid)
    requires Homes(k) && k.home[t].Limbo? && !k.timeout[t] && !r.SyncSleepRing?
    requires NoDup(s) && forall u :: u in s <==> u in At(k.rings, r) || u == t
    requires r.ReadyRing? ==> r.priority == k.priority[t]
    ensures HomeHolds(Link(k, r, t, s), u)
  {
    hide Without;
    hide NoDup;
    assert HomeHolds(k, u);
  }

  lemma HomesLink(k: Sched, r: RingId, t: Pid, s: seq<Pid>)
    requires Homes(k) && k.home[t].Limbo? && !k.timeout[t] && !r.SyncSleepRing?
    requires NoDup(s) && forall u :: u in s <==> u in At(k.rings, r) || u == t
    requires r.ReadyRing? ==> r.priority == k.priority[t]
    ensures Homes(Link(k, r, t, s))
  {
    hide HomeHolds, NoDup, Listed;
    ListedLink(k.rings, k.home, r, t, s);
    forall u: Pid ensures HomeHolds(Link(k, r, t, s), u) {
      HomeHoldsLink(k, r, t, s, u);
    }
  }

  lemma PortsUnlink(k: Sched, r: RingId, t: Pid)
    requires Shaped(k) && Ports(k)
    ensures Ports(Unlink(k, r, t))
  {
    hide Without;
    hide NoDup;
  }

  lemma PortsLink(k: Sched, r: RingId, t: Pid, s: seq<Pid>)
    requires Shaped(k)
    requires Ports(k) && MayLink(k, r, t) && !k.home[t].InRing?
    ensures Ports(Link(k, r, t, s))
  {
  }

  lemma HomeHoldsSetTimeout(k: Sched, t: Pid, u: Pid)
    requires Homes(k) && !k.timeout[t] && k.home[t].InRing? && IsQueue(k.home[t].ring)
    ensures HomeHolds(SetTimeout(k, t), u)
  {
    hide Without;
    hide NoDup;
    assert HomeHolds(k, u);
  }

  lemma TimeoutTail(k: Sched, t: Pid)
    requires Homes(k) && !k.timeout[t]
    ensures NoDup(At(k.rings, SyncSleepRing) + [t])
  {
    assert t !in At(k.rings, SyncSleepRing);
    assert NoDup(At(k.rings, SyncSleepRing));
  }

  lemma PortsTimeouts(k: Sched, rings: Rings, timeout: seq<bool>, s: seq<Pid>)
    requires Shaped(k) && Ports(k) && rings == Put(k.rings, SyncSleepRing, s) && |timeout| == 32
    ensures Ports(k.(rings := rings, timeout := timeout))
  {
    hide At, Put;
  }

  lemma HomesSetTimeout(k: Sched, t: Pid)
    requires Homes(k) && !k.timeout[t] && k.home[t].InRing? && IsQueue(k.home[t].ring)
    ensures Homes(SetTimeout(k, t))
    ensures Ports(k) ==> Ports(SetTimeout(k, t))
  {
    TimeoutTail(k, t);
    hide HomeHolds, NoDup, Listed, Ports;
    var s := At(k.rings, SyncSleepRing) + [t];
    ListedTimeouts(k.rings, k.home, s);
    forall u: Pid ensures HomeHolds(SetTimeout(k, t), u) {
      HomeHoldsSetTimeout(k, t, u);
    }
    if Ports(k) {
      PortsTimeouts(k, Put(k.rings, SyncSleepRing, s), k.timeout[t := true], s);
    }
  }

  lemma HomesCancelTimeout(k: Sched, t: Pid)
    requires Homes(k)
    ensures Homes(CancelTimeout(k, t))
    ensures Ports(k) ==> Ports(CancelTimeout(k, t))
  {
    assert NoDup(At(k.rings, SyncSleepRing));
    hide HomeHolds, Without, NoDup, Listed, Ports;
    var s := Without(At(k.rings, SyncSleepRing), t);
    ListedTimeouts(k.rings, k.home, s);
    forall u: Pid ensures HomeHolds(CancelTimeout(k, t), u) {
      HomeHoldsCancel(k, t, u);
    }
    if Ports(k) {
      PortsTimeouts(k, Put(k.rings, SyncSleepRing, s), k.timeout[t := false], s);
    }
  }

  lemma HomeHoldsCancel(k: Sched, t: Pid, u: Pid)
    requires Shaped(k) && HomeHolds(k, u)
    ensures HomeHolds(CancelTimeout(k, t), u)
  {
    hide Without, At;
  }

  lemma HomesDepart(k: Sched, c: nat)
    requires Homes(k) && c < |k.running| && k.running[c].Some? && k.leaving == None
    ensures Homes(Depart(k, c))
    ensures Ports(k) ==> Ports(Depart(k, c))
  {
    forall u: Pid ensures HomeHolds(Depart(k, c), u) {
      assert HomeHolds(k, u);
    }
  }

  lemma HomesClearCore(k: Sched, c: nat)
    requires Homes(k) && c < |k.running| && k.leaving == Some(c)
    ensures Homes(ClearCore(k, c))
    ensures Ports(k) ==> Ports(ClearCore(k, c))
  {
    forall u: Pid ensures HomeHolds(ClearCore(k, c), u) {
      assert HomeHolds(k, u);
    }
  }

  lemma HomesDispatch(k: Sched, c: nat, t: Pid)
    requires Homes(k) && c < |k.running| && k.running[c] == None && k.leaving == None
    requires k.home[t].Limbo? && !k.timeout[t]
    ensures Homes(Dispatch(k, c, t))
    ensures Ports(k) ==> Ports(Dispatch(k, c, t))
  {
    forall u: Pid ensures HomeHolds(Dispatch(k, c, t), u) {
      assert HomeHolds(k, u);
    }
  }

  lemma HomesJoin(k: Sched, o: Pid, t: Pid)
    requires Homes(k) && k.home[t].Limbo? && !k.timeout[t] && k.joiner[o] == None
    ensures Homes(Join(k, o, t))
    ensures !Dead(k, o) && Ports(k) ==> Ports(Join(k, o, t))
  {
    forall u: Pid ensures HomeHolds(Join(k, o, t), u) {
      assert HomeHolds(k, u);
    }
  }

  lemma HomesUnjoin(k: Sched, o: Pid)
    requires Homes(k) && k.joiner[o].Some?
    ensures Homes(Unjoin(k, o))
    ensures Ports(k) ==> Ports(Unjoin(k, o))
  {
    forall u: Pid ensures HomeHolds(Unjoin(k, o), u) {
      assert HomeHolds(k, u);
    }
  }

  lemma HomesSetPriority(k: Sched, t: Pid, p: Priority)
    requires Homes(k) && !(k.home[t].InRing? && k.home[t].ring.ReadyRing?)
    ensures Homes(SetPriority(k, t, p))
    ensures Ports(k) ==> Ports(SetPriority(k, t, p))
  {
    forall u: Pid ensures HomeHolds(SetPriority(k, t, p), u) {
      assert HomeHolds(k, u);
    }
  }

  /** The list after a thread has been added: the sleep list by expiry, all others at the tail. */
  function Placed(s: seq<Pid>, r: RingId, t: Pid, expired: seq<int>): (s': seq<Pid>)
    requires |expired| == 32
    ensures forall u :: u in s' <==> u in s || u == t
    ensures t !in s && NoDup(s) ==> NoDup(s')
    ensures !r.SleepRing? ==> s' == s + [t]
  {
    if r.SleepRing? then
      var k := SleepPosition(seq(|s|, i requires 0 <= i < |s| => expired[s[i]]), expired[t]);
      InsertedOnce(s, k, t);
      InsertAt(s, k, t)
    else s + [t]
  }

  /** `s` without the members of `gone`, in order. */
  function Dropping(s: seq<Pid>, gone: seq<Pid>): (r: seq<Pid>)
    ensures forall u :: u in r <==> u in s && u !in gone
    ensures NoDup(s) ==> NoDup(r)
  {
    if s == [] then []
    else
      assert NoDup(s) ==> NoDup(s[1..]) && s[0] !in s[1..];
      var r := Dropping(s[1..], gone);
      if s[0] in gone then r else [s[0]] + r
  }

  lemma {:induction false} DropNone(s: seq<Pid>, gone: seq<Pid>)
    requires forall t :: t in gone ==> t !in s
    ensures Dropping(s, gone) == s
  {
    if s != [] {
      assert s == [s[0]] + s[1..];
      DropNone(s[1..], gone);
    }
  }

  lemma {:induction false} DropOne(s: seq<Pid>, t: Pid)
    requires NoDup(s)
    ensures Dropping(s, [t]) == Without(s, t)
  {
    if s != [] {
      if s[0] == t {
        assert t !in s[1..];
        DropNone(s[1..], [t]);
      } else {
        DropOne(s[1..], t);
      }
    }
  }

  lemma {:induction false} DropBoth(s: seq<Pid>, a: seq<Pid>, b: seq<Pid>)
    ensures Dropping(Dropping(s, a), b) == Dropping(s, a + b)
  {
    if s != [] {
      DropBoth(s[1..], a, b);
      if s[0] !in a {
        var r := [s[0]] + Dropping(s[1..], a);
        assert r[1..] == Dropping(s[1..], a);
      }
    }
  }

  /** Taking the first `k` off a list leaves the rest in order. */
  lemma {:induction false} DropPrefix(s: seq<Pid>, k: nat)
    requires NoDup(s) && k <= |s|
    ensures Dropping(s, s[..k]) == s[k..]
  {
    if k == 0 {
      DropNone(s, []);
    } else {
      assert s[..k] == s[..k - 1] + [s[k - 1]];
      DropPrefix(s, k - 1);
      DropBoth(s, s[..k - 1], [s[k - 1]]);
      DropOne(s[k - 1..], s[k - 1]);
    }
  }

  /** The members of `s` that have priority `p`, in order. */
  function OfPriority(s: seq<Pid>, priority: seq<Priority>, p: Priority): (r: seq<Pid>)
    requires |priority| == 32
    ensures forall u :: u in r <==> u in s && priority[u] == p
    ensures NoDup(s) ==> NoDup(r)
  {
    if s == [] then []
    else
      assert NoDup(s) ==> NoDup(s[..|s| - 1]) && s[|s| - 1] !in s[..|s| - 1];
      var r := OfPriority(s[..|s| - 1], priority, p);
      if priority[s[|s| - 1]] == p then r + [s[|s| - 1]] else r
  }

  /** List `r` after the threads `woken` became ready. */
  function Woken(s: seq<Pid>, r: RingId, woken: seq<Pid>, priority: seq<Priority>): seq<Pid>
    requires |priority| == 32
  {
    if r.ReadyRing? then s + OfPriority(woken, priority, r.priority) else Dropping(s, woken)
  }

  /** The threads `woken` have left whatever lists they were on and stand, in that order, at the
      tails of the ready lists of their priorities; all other threads keep their order. */
  ghost predicate MovedToReady(from: Rings, to: Rings, woken: seq<Pid>, priority: seq<Priority>)
    requires |priority| == 32
  {
    forall r :: At(to, r) == Woken(At(from, r), r, woken, priority)
  }

  lemma WokenNone(s: seq<Pid>, r: RingId, priority: seq<Priority>)
    requires |priority| == 32
    ensures Woken(s, r, [], priority) == s
  {
    DropNone(s, []);
  }

  lemma WokenThenOne(s: seq<Pid>, r: RingId, woken: seq<Pid>, t: Pid, priority: seq<Priority>)
    requires |priority| == 32
    ensures Woken(Woken(s, r, woken, priority), r, [t], priority) == Woken(s, r, woken + [t], priority)
  {
    hide OfPriority;
    hide Dropping;
    if r.ReadyRing? {
      OfPriorityAppend(woken, t, priority, r.priority);
    } else {
      DropBoth(s, woken, [t]);
    }
  }

  lemma MovedNone(rings: Rings, priority: seq<Priority>)
    requires |priority| == 32
    ensures MovedToReady(rings, rings, [], priority)
  {
    hide Woken;
    hide At;
    forall r ensures At(rings, r) == Woken(At(rings, r), r, [], priority) {
      WokenNone(At(rings, r), r, priority);
    }
  }

  lemma MovedThenOne(a: Rings, b: Rings, c: Rings, woken: seq<Pid>, t: Pid, priority: seq<Priority>)
    requires |priority| == 32
    requires MovedToReady(a, b, woken, priority) && MovedToReady(b, c, [t], priority)
    ensures MovedToReady(a, c, woken + [t], priority)
  {
    hide Woken;
    hide At;
    forall r ensures At(c, r) == Woken(At(a, r), r, woken + [t], priority) {
      WokenThenOne(At(a, r), r, woken, t, priority);
    }
  }

  lemma OfPriorityAppend(s: seq<Pid>, t: Pid, priority: seq<Priority>, p: Priority)
    requires |priority| == 32
    ensures OfPriority([t], priority, p) == if priority[t] == p then [t] else []
    ensures OfPriority(s + [t], priority, p) == OfPriority(s, priority, p) + OfPriority([t], priority, p)
  {
    assert (s + [t])[..|s|] == s;
    assert [t][..0] == [];
  }

  ghost function SetPort(k: Sched, t: Pid, p: PortState): (k': Sched)
    requires Shaped(k)
    ensures Shaped(k')
  {
    k.(port := k.port[t := p])
  }

  /** A blocked thread leaves its list or queue, loses its timeout and becomes ready. */
  ghost function WakeOne(k: Sched, t: Pid): (k': Sched)
    requires Shaped(k)
    ensures Shaped(k')
  {
    if !k.home[t].InRing? then k
    else
      var k1 := CancelTimeout(Unlink(k, k.home[t].ring, t), t);
      Link(k1, ReadyRing(k.priority[t]), t, At(k1.rings, ReadyRing(k.priority[t])) + [t])
  }

  /** Several threads become ready, one after the other. */
  ghost function WakeAll(k: Sched, ts: seq<Pid>): (k': Sched)
    requires Shaped(k)
    ensures Shaped(k')
  {
    if ts == [] then k else WakeOne(WakeAll(k, ts[..|ts| - 1]), ts[|ts| - 1])
  }

  /** `t` is blocked on some list or queue. */
  ghost predicate Blocked(k: Sched, t: Pid)
    requires Shaped(k)
  {
    k.home[t].InRing? && !k.home[t].ring.ReadyRing?
  }

  lemma BlockedAt(k: Sched, t: Pid)
    requires Homes(k) && k.home[t].InRing?
    ensures t in At(k.rings, k.home[t].ring) && !k.home[t].ring.SyncSleepRing?
    ensures k.state[t] == StateOf(k.home[t].ring)
    ensures k.home[t].ring.ReadyRing? ==> k.home[t].ring.priority == k.priority[t]
    ensures k.queue[t] == if IsQueue(k.home[t].ring) then Some(k.home[t].ring) else None
  {
    assert HomeHolds(k, t);
  }

  lemma InRingAt(k: Sched, r: RingId, t: Pid)
    requires Homes(k) && t in At(k.rings, r) && !r.SyncSleepRing?
    ensures k.home[t] == InRing(r) && k.state[t] == StateOf(r)
    ensures r.ReadyRing? ==> r.priority == k.priority[t]
    ensures k.queue[t] == if IsQueue(r) then Some(r) else None
  {
    assert k.home[t] == InRing(r);
    BlockedAt(k, t);
  }

  /** A homeless thread can be put at the tail of any list. */
  lemma LimboNowhere(k: Sched, t: Pid, r: RingId)
    requires Homes(k) && !k.home[t].InRing? && !r.SyncSleepRing?
    ensures t !in At(k.rings, r) && NoDup(At(k.rings, r)) && NoDup(At(k.rings, r) + [t])
    ensures k.queue[t] == None
  {
    assert HomeHolds(k, t);
  }

  lemma WakeOneKeeps(k: Sched, t: Pid)
    requires Homes(k) && Ports(k) && Blocked(k, t)
    ensures Homes(WakeOne(k, t)) && Ports(WakeOne(k, t))
  {
    var r, ready := k.home[t].ring, ReadyRing(k.priority[t]);
    BlockedAt(k, t);
    hide Homes;
    hide Ports;
    var k0 := Unlink(k, r, t);
    HomesUnlink(k, r, t);
    PortsUnlink(k, r, t);
    var k1 := CancelTimeout(k0, t);
    HomesCancelTimeout(k0, t);
    LimboNowhere(k1, t, ready);
    HomesLink(k1, ready, t, At(k1.rings, ready) + [t]);
    PortsLink(k1, ready, t, At(k1.rings, ready) + [t]);
  }

  lemma WakeOneColumns(k: Sched, t: Pid)
    requires Homes(k) && Blocked(k, t)
    ensures var k' := WakeOne(k, t);
      && k'.home == k.home[t := InRing(ReadyRing(k.priority[t]))] && k'.state == k.state[t := Ready]
      && k'.queue == k.queue[t := None] && k'.timeout == k.timeout[t := false]
      && k'.priority == k.priority && k'.port == k.port && k'.joiner == k.joiner
      && k'.running == k.running && k'.leaving == k.leaving
  {
    BlockedAt(k, t);
    hide Homes, At, Put, Without;
  }

  lemma WakeOneMoves(k: Sched, t: Pid)
    requires Homes(k) && Blocked(k, t)
    ensures MovedToReady(k.rings, WakeOne(k, t).rings, [t], k.priority)
  {
    BlockedAt(k, t);
    var k' := WakeOne(k, t);
    forall r ensures At(k'.rings, r) == Woken(At(k.rings, r), r, [t], k.priority) {
      WokenOne(k, t, r);
    }
  }

  lemma WakeOneRing(k: Sched, t: Pid, r: RingId)
    requires Shaped(k) && Blocked(k, t) && !k.home[t].ring.SyncSleepRing?
    ensures At(WakeOne(k, t).rings, r) ==
      if r == ReadyRing(k.priority[t]) then At(k.rings, r) + [t]
      else if r == k.home[t].ring || (r.SyncSleepRing? && k.timeout[t]) then Without(At(k.rings, r), t)
      else At(k.rings, r)
  {
    hide Without, At;
  }

  lemma WokenOne(k: Sched, t: Pid, r: RingId)
    requires Homes(k) && Blocked(k, t) && t in At(k.rings, k.home[t].ring) && !k.home[t].ring.SyncSleepRing?
    ensures At(WakeOne(k, t).rings, r) == Woken(At(k.rings, r), r, [t], k.priority)
  {
    assert NoDup(At(k.rings, r));
    assert t in At(k.rings, r) ==> r == k.home[t].ring || (r.SyncSleepRing? && k.timeout[t]);
    WakeOneRing(k, t, r);
    hide Homes, Without, Dropping, WakeOne, NoDup, OfPriority;
    if r.ReadyRing? {
      OfPriorityAppend([], t, k.priority, r.priority);
    } else {
      DropOne(At(k.rings, r), t);
    }
  }

  /** `k'` is `k` with the threads `ts` ready instead of where they were. */
  ghost predicate ReadyNow(k: Sched, k': Sched, ts: seq<Pid>)
    requires Shaped(k) && Shaped(k')
  {
    && MovedToReady(k.rings, k'.rings, ts, k.priority)
    && (forall t: Pid :: k'.home[t] == if t in ts then InRing(ReadyRing(k.priority[t])) else k.home[t])
    && (forall t: Pid :: k'.state[t] == if t in ts then Ready else k.state[t])
    && (forall t: Pid :: k'.queue[t] == if t in ts then None else k.queue[t])
    && (forall t: Pid :: k'.timeout[t] == (t !in ts && k.timeout[t]))
    && k'.priority == k.priority && k'.port == k.port && k'.joiner == k.joiner
    && k'.running == k.running && k'.leaving == k.leaving
  }

  lemma ReadyNowStep(k: Sched, k1: Sched, ts: seq<Pid>, t: Pid)
    requires Shaped(k) && Homes(k1) && ReadyNow(k, k1, ts) && Blocked(k1, t)
    ensures ReadyNow(k, WakeOne(k1, t), ts + [t])
  {
    hide MovedToReady;
    hide WakeOne;
    hide At;
    WakeOneColumns(k1, t);
    WakeOneMoves(k1, t);
    hide Homes;
    MovedThenOne(k.rings, k1.rings, WakeOne(k1, t).rings, ts, t, k.priority);
  }

  /** What waking a list of blocked threads does: each becomes ready, every other thread keeps
      its place, and the ready lists grow in the given order. */
  lemma {:induction false} WakeAllKeeps(k: Sched, ts: seq<Pid>)
    requires Homes(k) && Ports(k) && NoDup(ts) && forall t :: t in ts ==> Blocked(k, t)
    ensures var k' := WakeAll(k, ts); Homes(k') && Ports(k') && ReadyNow(k, k', ts)
  {
    if ts == [] {
      MovedNone(k.rings, k.priority);
    } else {
      var n := |ts| - 1;
      var front, t := ts[..n], ts[n];
      assert ts == front + [t];
      assert t in ts && t !in front;
      WakeAllKeeps(k, front);
      var k1 := WakeAll(k, front);
      assert Blocked(k1, t);
      hide Homes;
      hide Ports;
      hide ReadyNow;
      WakeOneKeeps(k1, t);
      ReadyNowStep(k, k1, front, t);
    }
  }

  lemma WakeAllSnoc(k: Sched, ts: seq<Pid>, t: Pid)
    requires Shaped(k)
    ensures WakeAll(k, ts + [t]) == WakeOne(WakeAll(k, ts), t)
  {
    assert (ts + [t])[..|ts|] == ts;
  }

  lemma PortsListen(k: Sched, t: Pid)
    requires Homes(k) && Ports(k) && k.home[t] != InRing(WaitRing)
    ensures Homes(SetPort(k, t, WaitListen)) && Ports(SetPort(k, t, WaitListen))
  {
    forall u: Pid ensures HomeHolds(SetPort(k, t, WaitListen), u) {
      assert HomeHolds(k, u);
    }
  }

  lemma PortsReady(k: Sched, t: Pid)
    requires Homes(k) && Ports(k) && !Dead(k, t) && At(k.rings, PendingRing(t)) == []
    ensures Homes(SetPort(k, t, PortReady)) && Ports(SetPort(k, t, PortReady))
  {
    forall u: Pid ensures HomeHolds(SetPort(k, t, PortReady), u) {
      assert HomeHolds(k, u);
    }
  }

  /** No kernel routine is in the middle of moving a thread. */
  ghost predicate Settled(k: Sched)
    requires Shaped(k)
  {
    k.leaving.None? && forall t: Pid :: !k.home[t].Limbo?
  }

  /** Outside kernel routines the state column alone tells where a thread is. */
  lemma StateTellsHome(k: Sched, t: Pid)
    requires Homes(k) && !k.home[t].Limbo?
    ensures k.state[t] == Free <==> k.home[t] == InRing(FreeRing)
    ensures k.state[t] == Zombie <==> k.home[t] == InRing(ZombieRing)
    ensures k.state[t] == WaitingMsg <==> k.home[t] == InRing(WaitRing)
    ensures k.state[t] == Sleep <==> k.home[t] == InRing(SleepRing)
    ensures k.state[t] == Stopped <==> k.home[t] == InRing(StoppedRing)
    ensures k.state[t] == Ready <==> k.home[t] == InRing(ReadyRing(k.priority[t]))
    ensures k.state[t] == Running <==> k.home[t].OnCore?
    ensures k.state[t] == PendingJoin <==> k.home[t].Joining?
    ensures k.state[t] == WaitingRead <==> k.home[t].InRing? && k.home[t].ring.PendingRing?
    ensures k.state[t] == WaitingReply <==> k.home[t].InRing? && k.home[t].ring.ReplyRing?
    ensures k.state[t] == WaitingSync <==> k.home[t].InRing? && IsQueue(k.home[t].ring)
    ensures k.queue[t].Some? <==> k.state[t] == WaitingSync
    ensures k.home[t].InRing? ==> t in At(k.rings, k.home[t].ring)
    ensures k.home[t].InRing? && IsQueue(k.home[t].ring) ==> k.queue[t] == Some(k.home[t].ring)
    ensures k.home[t].Joining? ==> k.joiner[k.home[t].target] == Some(t)
    ensures k.home[t].OnCore? ==> k.home[t].core < |k.running| && k.running[k.home[t].core] == Some(t)
    ensures k.timeout[t] ==> k.state[t] == WaitingSync
  {
    assert HomeHolds(k, t);
  }

  lemma RunningHome(k: Sched, c: nat)
    requires Homes(k) && c < |k.running| && k.running[c].Some? && k.leaving != Some(c)
    ensures var t := k.running[c].value;
      k.home[t] == OnCore(c) && k.state[t] == Running && k.queue[t].None? && !k.timeout[t]
  {
    assert HomeHolds(k, k.running[c].value);
  }

  /** `h` is a place where thread `t` can be found. */
  ghost predicate IsPlace(k: Sched, t: Pid, h: Home)
    requires Shaped(k)
  {
    match h
    case InRing(r) => !r.SyncSleepRing? && t in At(k.rings, r)
    case Joining(o) => k.joiner[o] == Some(t)
    case OnCore(c) => c < |k.running| && k.running[c] == Some(t)
    case Limbo => false
  }

  function StateAt(h: Home): ThreadState {
    match h
    case InRing(r) => StateOf(r)
    case Joining(_) => PendingJoin
    case _ => Running
  }

  /** Every thread can be found in exactly one place, the one its state names. */
  lemma OnePlace(k: Sched, t: Pid)
    requires Homes(k) && Settled(k)
    ensures forall h :: IsPlace(k, t, h) <==> h == k.home[t]
    ensures k.state[t] == StateAt(k.home[t])
  {
    assert HomeHolds(k, t);
  }

  /** `u` is blocked until `t` does something. */
  ghost predicate WaitsFor(k: Sched, u: Pid, t: Pid)
    requires Shaped(k)
  {
    u in At(k.rings, PendingRing(t)) || u in At(k.rings, ReplyRing(t)) || k.joiner[t] == Some(u)
  }

  lemma NoDeadPeer(k: Sched, t: Pid)
    requires Shaped(k) && Ports(k)
    ensures Dead(k, t) ==> forall u: Pid :: !WaitsFor(k, u, t)
  {
  }

  lemma IdlePort(k: Sched, t: Pid)
    requires Shaped(k) && Ports(k)
    ensures k.home[t] == InRing(WaitRing) ==> At(k.rings, PendingRing(t)) == []
  {
  }

  lemma TimeoutListed(k: Sched, t: Pid)
    requires Homes(k)
    ensures t in At(k.rings, SyncSleepRing) <==> k.timeout[t]
  {
  }

  ghost predicate Detachable(k: Sched, t: Pid)
    requires Shaped(k)
  {
    && (k.home[t].OnCore? ==> k.home[t].core < |k.running| && k.running[k.home[t].core] == Some(t))
    && (k.home[t].Joining? ==> k.joiner[k.home[t].target] == Some(t))
  }

  /** The start of a thread's exit: it leaves wherever it is. */
  ghost function Detach(k: Sched, t: Pid): (k': Sched)
    requires Shaped(k) && Detachable(k, t)
    ensures Shaped(k')
  {
    match k.home[t]
    case InRing(r) => CancelTimeout(Unlink(k, r, t), t)
    case Joining(o) => Unjoin(k, o)
    case OnCore(c) => Depart(k, c)
    case Limbo => k
  }

  /** A port is ready only while its thread blocks in a receive, unless a signal has once taken
      that thread out of one. */
  ghost predicate Receivers(k: Sched, interrupted: set<Pid>)
    requires Shaped(k)
  {
    forall t: Pid :: k.port[t].PortReady? ==> k.home[t] == InRing(WaitRing) || t in interrupted
  }

  ghost predicate WaitsAs(k: Sched, vid: seq<Word>, v: Word)
    requires Shaped(k) && |vid| == 32
  {
    exists t: Pid :: k.home[t] == InRing(WaitRing) && vid[t] == v
  }

  // What the IPC calls do to the scheduler.

  ghost function TailLink(k: Sched, r: RingId, t: Pid): (k': Sched)
    requires Shaped(k)
    ensures Shaped(k')
  {
    Link(k, r, t, At(k.rings, r) + [t])
  }

  /** The running thread of core `c` blocks at the tail of list `r`. */
  ghost function BlockOn(k: Sched, c: nat, r: RingId): (k': Sched)
    requires Shaped(k) && c < |k.running| && k.running[c].Some?
    ensures Shaped(k')
  {
    ClearCore(TailLink(Depart(k, c), r, k.running[c].value), c)
  }

  /** The running thread hands a message to a thread blocked in a receive and awaits the reply. */
  ghost function Rendezvous(k: Sched, c: nat, target: Pid): (k': Sched)
    requires Shaped(k) && c < |k.running| && k.running[c].Some?
    ensures Shaped(k')
  {
    var k1 := TailLink(Depart(k, c), ReplyRing(target), k.running[c].value);
    var k2 := TailLink(Unlink(k1, WaitRing, target), ReadyRing(k.priority[target]), target);
    ClearCore(SetPort(k2, target, WaitListen), c)
  }

  /** `k'` follows a settled `k` without a new blocked receiver or a newly ready port. */
  ghost predicate Calm(k: Sched, k': Sched)
    requires Shaped(k)
  {
    && Shaped(k') && Settled(k')
    && (forall t: Pid :: k'.home[t] == InRing(WaitRing) ==> k.home[t] == InRing(WaitRing))
    && (forall t: Pid :: k'.port[t].PortReady? ==>
          k.port[t].PortReady? && (k.home[t] == InRing(WaitRing) ==> k'.home[t] == InRing(WaitRing)))
  }

  lemma CalmKeeps(k: Sched, k': Sched, interrupted: set<Pid>, vid: seq<Word>, v: Word)
    requires Shaped(k) && Calm(k, k') && Receivers(k, interrupted) && |vid| == 32
    ensures Shaped(k') && Settled(k') && Receivers(k', interrupted)
    ensures WaitsAs(k', vid, v) ==> WaitsAs(k, vid, v)
  {
  }

  lemma BlockOnCalm(k: Sched, c: nat, r: RingId)
    requires Shaped(k) && Homes(k) && Settled(k) && c < |k.running| && k.running[c].Some? && !r.WaitRing?
    ensures Calm(k, BlockOn(k, c, r))
  {
    hide Homes;
    hide At;
    hide Put;
    hide Without;
    RunningHome(k, c);
  }

  lemma RendezvousCalm(k: Sched, c: nat, target: Pid)
    requires Shaped(k) && Homes(k) && Settled(k) && c < |k.running| && k.running[c].Some? && k.home[target] == InRing(WaitRing)
    ensures Calm(k, Rendezvous(k, c, target))
  {
    hide Homes;
    hide At;
    hide Put;
    hide Without;
    RunningHome(k, c);
  }

  // What waiting, waking and exiting do to the scheduler.

  /** The running thread waits in queue `q`, with or without a timeout. */
  ghost function WaitOn(k: Sched, c: nat, q: RingId, timed: bool): (k': Sched)
    requires Shaped(k) && c < |k.running| && k.running[c].Some?
    ensures Shaped(k')
  {
    var t := k.running[c].value;
    var k1 := TailLink(Depart(k, c), q, t);
    ClearCore(if timed then SetTimeout(k1, t) else k1, c)
  }

  /** The threads that would be left waiting if `t` vanished. */
  ghost function PortWaiters(k: Sched, t: Pid): seq<Pid> {
    At(k.rings, PendingRing(t)) + At(k.rings, ReplyRing(t))
  }

  /** The end of an exit: a joiner is released and the thread is free at once; otherwise it is
      free if detached and a zombie if not. */
  ghost function Settle(k: Sched, t: Pid, detached: bool): (k': Sched)
    requires Shaped(k)
    ensures Shaped(k')
  {
    if k.joiner[t].None? then
      TailLink(k, if detached then FreeRing else ZombieRing, t)
    else
      var j := k.joiner[t].value;
      TailLink(TailLink(Unjoin(k, t), ReadyRing(k.priority[j]), j), FreeRing, t)
  }

  /** A homeless thread exits: everyone waiting on its port becomes ready first. */
  ghost function Exit(k: Sched, t: Pid, detached: bool): (k': Sched)
    requires Shaped(k)
    ensures Shaped(k')
  {
    var k1 := SetPort(k, t, WaitListen);
    Settle(WakeAll(k1, PortWaiters(k1, t)), t, detached)
  }

  lemma PortWaitersBlocked(k: Sched, t: Pid)
    requires Homes(k)
    ensures NoDup(PortWaiters(k, t)) && forall u :: u in PortWaiters(k, t) ==> Blocked(k, u)
    ensures t in PortWaiters(k, t) ==> k.home[t].InRing?
  {
    var a, b := At(k.rings, PendingRing(t)), At(k.rings, ReplyRing(t));
    forall u | u in PortWaiters(k, t) ensures Blocked(k, u) && !(u in a && u in b) {
      if u in a {
        assert k.home[u] == InRing(PendingRing(t));
      } else {
        assert k.home[u] == InRing(ReplyRing(t));
      }
    }
    forall i, j | 0 <= i < j < |a + b| ensures (a + b)[i] != (a + b)[j] {
      if i < |a| <= j {
        assert a[i] in a && b[j - |a|] in b;
        assert a[i] in PortWaiters(k, t);
      }
    }
  }

  lemma NotTimed(k: Sched, t: Pid)
    requires Homes(k) && !k.home[t].Limbo? && !(k.home[t].InRing? && IsQueue(k.home[t].ring))
    ensures !k.timeout[t]
  {
  }

  function AllPids(): (all: seq<Pid>)
    ensures NoDup(all) && |all| == 32 && forall t: Pid :: all[t] == t
  {
    seq(32, i requires 0 <= i < 32 => i)
  }

  /** All threads free, all cores idle. */
  function Boot(cores: nat): Sched {
    Sched(seq(32, _ => Free), seq(32, _ => 0), seq(32, _ => WaitListen), seq(32, _ => false),
          seq(32, _ => None), seq(32, _ => None), seq(cores, _ => None), map[FreeRing := AllPids()],
          None, seq(32, _ => InRing(FreeRing)))
  }

  lemma BootKeeps(cores: nat)
    ensures var k := Boot(cores);
      && Homes(k) && Ports(k) && Settled(k) && Receivers(k, {})
      && (forall t: Pid :: k.home[t] == InRing(FreeRing)) && |k.running| == cores
      && forall r :: r != FreeRing ==> At(k.rings, r) == []
  {
    hide AllPids;
    var k := Boot(cores);
    assert forall r :: At(k.rings, r) == if r == FreeRing then AllPids() else [];
    forall t: Pid ensures t in AllPids() {
      assert AllPids()[t] == t;
    }
    hide At, NoDup;
    forall t: Pid ensures HomeHolds(k, t) {
    }
  }

  /** The running thread takes the oldest pending sender over to its reply list. */
  ghost function Accept(k: Sched, t: Pid): (k': Sched)
    requires Shaped(k) && At(k.rings, PendingRing(t)) != []
    ensures Shaped(k')
  {
    var source := At(k.rings, PendingRing(t))[0];
    TailLink(Unlink(k, PendingRing(t), source), ReplyRing(t), source)
  }

  lemma AcceptCalm(k: Sched, t: Pid)
    requires Shaped(k) && Homes(k) && Settled(k) && At(k.rings, PendingRing(t)) != []
    ensures Calm(k, Accept(k, t))
  {
    hide Homes, At, Put, Without;
    InRingAt(k, PendingRing(t), At(k.rings, PendingRing(t))[0]);
  }

  /** The running thread blocks in a receive with its port ready. */
  ghost function Listen(k: Sched, c: nat): (k': Sched)
    requires Shaped(k) && c < |k.running| && k.running[c].Some?
    ensures Shaped(k')
  {
    BlockOn(SetPort(k, k.running[c].value, PortReady), c, WaitRing)
  }

  lemma ListenKeeps(k: Sched, c: nat, interrupted: set<Pid>, vid: seq<Word>, v: Word)
    requires Shaped(k) && Homes(k) && Settled(k) && Receivers(k, interrupted)
    requires c < |k.running| && k.running[c].Some? && |vid| == 32
    ensures var k' := Listen(k, c);
      && Settled(k') && Receivers(k', interrupted)
      && (WaitsAs(k', vid, v) ==> WaitsAs(k, vid, v) || vid[k.running[c].value] == v)
  {
    hide Homes, At, Put, Without;
    RunningHome(k, c);
  }

  lemma DeadPort(k: Sched, t: Pid)
    requires Shaped(k) && Ports(k) && Dead(k, t)
    ensures At(k.rings, PendingRing(t)) == [] && At(k.rings, ReplyRing(t)) == [] && k.joiner[t].None? && k.port[t].WaitListen?
  {
  }

  lemma ReadyPort(k: Sched, interrupted: set<Pid>, t: Pid)
    requires Shaped(k) && Receivers(k, interrupted) && k.port[t].PortReady? && k.home[t] != InRing(WaitRing)
    ensures t in interrupted
  {
  }

  lemma WakeAllNone(k: Sched)
    requires Shaped(k)
    ensures WakeAll(k, []) == k
  {
  }

  /** Waking the first `i` threads of `pre + w`, where `w` is list `r`, leaves the rest of `w` on it. */
  lemma Drained(k: Sched, r: RingId, pre: seq<Pid>, i: nat)
    requires Shaped(k) && Homes(k) && Ports(k) && !r.ReadyRing? && i <= |At(k.rings, r)|
    requires NoDup(pre + At(k.rings, r)) && forall t :: t in pre + At(k.rings, r) ==> Blocked(k, t)
    ensures At(WakeAll(k, pre + At(k.rings, r)[..i]).rings, r) == At(k.rings, r)[i..]
  {
    hide Homes, Ports, WakeAll, Dropping, Blocked, At;
    var w := At(k.rings, r);
    var ts := pre + w[..i];
    assert ts == (pre + w)[..|pre| + i];
    assert forall t :: t in ts ==> t in pre + w;
    WakeAllKeeps(k, ts);
    DisjointParts(pre, w);
    DropBoth(w, pre, w[..i]);
    DropNone(w, pre);
    DropPrefix(w, i);
  }

  lemma DisjointParts<T>(a: seq<T>, b: seq<T>)
    requires NoDup(a + b)
    ensures NoDup(a) && NoDup(b) && forall x :: x in a ==> x !in b
  {
    var s := a + b;
    forall x | x in a ensures x !in b {
      var i :| 0 <= i < |a| && a[i] == x;
      assert s[i] == x;
      assert forall j :: 0 <= j < |b| ==> s[|a| + j] == b[j];
    }
    assert forall j :: 0 <= j < |b| ==> s[|a| + j] == b[j];
    assert forall j :: 0 <= j < |a| ==> s[j] == a[j];
  }

  lemma QueueBlocked(k: Sched, r: RingId)
    requires Homes(k) && !r.SyncSleepRing? && !r.ReadyRing?
    ensures NoDup(At(k.rings, r)) && forall t :: t in At(k.rings, r) ==> Blocked(k, t) && k.home[t] == InRing(r)
  {
  }

  lemma WaitOnCalm(k: Sched, c: nat, q: RingId, timed: bool)
    requires Shaped(k) && Homes(k) && Settled(k) && c < |k.running| && k.running[c].Some? && IsQueue(q)
    ensures Calm(k, WaitOn(k, c, q, timed))
  {
    hide Homes, At, Put, Without;
    RunningHome(k, c);
  }

  lemma QueueDrained(k: Sched, r: RingId, i: nat)
    requires Shaped(k) && Homes(k) && Ports(k) && !r.SyncSleepRing? && !r.ReadyRing? && i <= |At(k.rings, r)|
    ensures At(WakeAll(k, At(k.rings, r)[..i]).rings, r) == At(k.rings, r)[i..]
  {
    hide Homes, Ports, WakeAll, Dropping, Blocked, At;
    QueueBlocked(k, r);
    var w := At(k.rings, r);
    assert [] + w == w && [] + w[..i] == w[..i];
    Drained(k, r, [], i);
  }

  lemma WakeOneSettles(k: Sched, t: Pid, interrupted: set<Pid>, vid: seq<Word>, v: Word)
    requires Shaped(k) && Homes(k) && Settled(k) && Receivers(k, interrupted) && Blocked(k, t) && |vid| == 32
    ensures var k' := WakeOne(k, t);
      && Settled(k') && Receivers(k', interrupted + {t})
      && (k.home[t] != InRing(WaitRing) ==> Receivers(k', interrupted))
      && (WaitsAs(k', vid, v) ==> WaitsAs(k, vid, v))
  {
    hide Homes, WakeOne;
    WakeOneColumns(k, t);
  }

  lemma JoinerHome(k: Sched, o: Pid)
    requires Homes(k) && k.joiner[o].Some?
    ensures k.home[k.joiner[o].value] == Joining(o)
  {
  }

  lemma JoinOwnerUnique(k: Sched, t: Pid)
    requires Homes(k) && k.home[t].Joining?
    ensures k.joiner[k.home[t].target] == Some(t)
    ensures forall o: Pid :: k.joiner[o] == Some(t) ==> o == k.home[t].target
  {
    assert HomeHolds(k, t);
  }

  lemma OnThisCore(k: Sched, c: nat, t: Pid)
    requires Homes(k) && c < |k.running| && k.running[c] == Some(t) && k.leaving.None?
    ensures k.home[t] == OnCore(c)
  {
  }

  lemma NotTimedIf(k: Sched, t: Pid)
    requires Homes(k) && !k.home[t].Limbo?
    ensures k.timeout[t] ==> k.home[t].InRing? && IsQueue(k.home[t].ring)
  {
  }

  /** Thread `t` exits from wherever it is; core `c` is the one executing the exit. */
  ghost function Ended(k: Sched, c: nat, t: Pid, detached: bool): (k': Sched)
    requires Shaped(k) && Detachable(k, t) && c < |k.running|
    ensures Shaped(k')
  {
    var k1 := Exit(Detach(k, t), t, detached);
    if k.home[t].OnCore? && c < |k1.running| then ClearCore(k1, c) else k1
  }

  lemma DetachColumns(k: Sched, t: Pid)
    requires Shaped(k) && Detachable(k, t) && !k.home[t].Limbo?
    ensures var k1 := Detach(k, t);
      && k1.home == k.home[t := Limbo] && k1.port == k.port && k1.priority == k.priority && k1.running == k.running
      && k1.leaving == (if k.home[t].OnCore? then Some(k.home[t].core) else k.leaving)
      && k1.joiner == if k.home[t].Joining? then k.joiner[k.home[t].target := None] else k.joiner
  {
    hide At, Put, Without;
  }

  lemma DetachKeeps(k: Sched, t: Pid)
    requires Shaped(k) && Homes(k) && Ports(k) && Settled(k)
    ensures Detachable(k, t) && Homes(Detach(k, t)) && Ports(Detach(k, t))
  {
    hide Homes, Ports, At, Put, Without;
    StateTellsHome(k, t);
    match k.home[t] {
      case InRing(r) =>
        BlockedAt(k, t);
        HomesUnlink(k, r, t);
        PortsUnlink(k, r, t);
        HomesCancelTimeout(Unlink(k, r, t), t);
      case Joining(o) => HomesUnjoin(k, o);
      case OnCore(c) => HomesDepart(k, c);
      case Limbo =>
    }
  }

  /** After the release the port of `t` is empty and nothing else about `t` has changed. */
  lemma Released(k: Sched, t: Pid)
    requires Shaped(k) && Homes(k) && Ports(k) && !k.home[t].InRing?
    ensures var k' := WakeAll(k, PortWaiters(k, t));
      && Homes(k') && Ports(k') && ReadyNow(k, k', PortWaiters(k, t))
      && At(k'.rings, PendingRing(t)) == [] && At(k'.rings, ReplyRing(t)) == []
      && t !in PortWaiters(k, t)
  {
    hide Homes, Ports, WakeAll, Blocked, At;
    PortWaitersBlocked(k, t);
    WakeAllKeeps(k, PortWaiters(k, t));
    var k' := WakeAll(k, PortWaiters(k, t));
    AllDropped(At(k.rings, PendingRing(t)), PortWaiters(k, t));
    AllDropped(At(k.rings, ReplyRing(t)), PortWaiters(k, t));
  }

  lemma AllDropped(s: seq<Pid>, gone: seq<Pid>)
    requires forall t :: t in s ==> t in gone
    ensures Dropping(s, gone) == []
  {
    if Dropping(s, gone) != [] {
      assert Dropping(s, gone)[0] in Dropping(s, gone);
    }
  }

  lemma SettleColumns(k: Sched, t: Pid, detached: bool)
    requires Shaped(k)
    ensures var k' := Settle(k, t, detached);
      && k'.port == k.port && k'.leaving == k.leaving && k'.running == k.running && k'.priority == k.priority
      && (k.joiner[t].None? ==> k'.home == k.home[t := InRing(if detached then FreeRing else ZombieRing)])
      && (k.joiner[t].Some? ==>
            var j := k.joiner[t].value;
            k'.home == k.home[j := InRing(ReadyRing(k.priority[j]))][t := InRing(FreeRing)])
  {
    hide At, Put;
  }

  lemma EndedCalm(k: Sched, c: nat, t: Pid, detached: bool)
    requires Shaped(k) && Homes(k) && Ports(k) && Settled(k) && c < |k.running| && Detachable(k, t)
    requires k.home[t].OnCore? ==> k.home[t].core == c
    ensures Calm(k, Ended(k, c, t, detached))
  {
    hide Homes, Ports, At, Put, Without, Detach, WakeAll, PortWaiters, Settle, MovedToReady, Detachable;
    DetachColumns(k, t);
    DetachKeeps(k, t);
    var k1 := Detach(k, t);
    PortsListen(k1, t);
    var k2 := SetPort(k1, t, WaitListen);
    Released(k2, t);
    WaitersNotListening(k2, t);
    var k3 := WakeAll(k2, PortWaiters(k2, t));
    SettleColumns(k3, t, detached);
    if k3.joiner[t].Some? {
      JoinerHome(k3, t);
    }
  }

  lemma WaitersNotListening(k: Sched, t: Pid)
    requires Homes(k)
    ensures forall u :: u in PortWaiters(k, t) ==> k.home[u] == InRing(PendingRing(t)) || k.home[u] == InRing(ReplyRing(t))
  {
  }

  lemma DetachRing(k: Sched, t: Pid, q: RingId)
    requires Shaped(k) && Homes(k) && Detachable(k, t) && !q.SyncSleepRing?
    ensures At(Detach(k, t).rings, q) == Without(At(k.rings, q), t) && NoDup(At(k.rings, q))
  {
    hide Without, HomeHolds;
    assert t in At(k.rings, q) ==> k.home[t] == InRing(q);
  }

  /** Leaving takes a thread off the port lists it is on, its own included, and undoes the join it
      waits in, its own included; nothing else changes hands. */
  lemma DetachPort(k: Sched, t: Pid)
    requires Shaped(k) && Homes(k) && Ports(k) && Settled(k) && Detachable(k, t)
    ensures var k1 := Detach(k, t);
      && (forall u :: u in PortWaiters(k1, t) <==> u in PortWaiters(k, t) && u != t)
      && k1.joiner[t] == if k.joiner[t] == Some(t) then None else k.joiner[t]
  {
    hide Homes, Without, At, Detach;
    DetachRing(k, t, PendingRing(t));
    DetachRing(k, t, ReplyRing(t));
    DetachColumns(k, t);
    if k.joiner[t].Some? {
      JoinerHome(k, t);
    }
  }

  /** The slot and the mark of the exiting core are untouched by the exit itself. */
  lemma ExitSlots(k: Sched, c: nat, t: Pid, detached: bool)
    requires Shaped(k) && Homes(k) && Ports(k) && Settled(k) && Detachable(k, t) && c < |k.running|
    requires k.home[t].OnCore? ==> k.home[t].core == c
    ensures var k2 := Exit(Detach(k, t), t, detached);
      && k2.running == k.running && k2.leaving == (if k.home[t].OnCore? then Some(c) else None)
      && (k.running[c] == Some(t) <==> k.home[t].OnCore?)
      && k2.home[t] == InRing(if (k.joiner[t].Some? && k.joiner[t] != Some(t)) || detached then FreeRing else ZombieRing)
  {
    hide Homes, Ports, At, Put, Without, Detach, WakeAll, PortWaiters, Settle, MovedToReady;
    StateTellsHome(k, t);
    if k.running[c] == Some(t) {
      OnThisCore(k, c, t);
    }
    DetachColumns(k, t);
    DetachKeeps(k, t);
    DetachPort(k, t);
    var k1 := Detach(k, t);
    PortsListen(k1, t);
    var k2 := SetPort(k1, t, WaitListen);
    Released(k2, t);
    SettleColumns(WakeAll(k2, PortWaiters(k2, t)), t, detached);
  }

  lemma WaitsAsRenamed(k: Sched, vid: seq<Word>, t: Pid, w: Word, v: Word)
    requires Shaped(k) && |vid| == 32 && k.home[t] != InRing(WaitRing)
    ensures WaitsAs(k, vid[t := w], v) ==> WaitsAs(k, vid, v)
  {
  }

  /** A listed thread changes lists. */
  ghost function Move(k: Sched, from: RingId, to: RingId, t: Pid): (k': Sched)
    requires Shaped(k)
    ensures Shaped(k')
  {
    TailLink(Unlink(k, from, t), to, t)
  }

  lemma MoveCalm(k: Sched, from: RingId, to: RingId, t: Pid)
    requires Shaped(k) && Settled(k) && k.home[t] == InRing(from) && !from.WaitRing? && !to.WaitRing?
    ensures Calm(k, Move(k, from, to, t))
  {
    hide At, Put, Without;
  }

  /** The running thread waits for `o` to exit. */
  ghost function JoinOn(k: Sched, c: nat, o: Pid): (k': Sched)
    requires Shaped(k) && c < |k.running| && k.running[c].Some?
    ensures Shaped(k')
  {
    ClearCore(Join(Depart(k, c), o, k.running[c].value), c)
  }

  lemma JoinOnCalm(k: Sched, c: nat, o: Pid)
    requires Shaped(k) && Homes(k) && Settled(k) && c < |k.running| && k.running[c].Some?
    ensures Calm(k, JoinOn(k, c, o))
  {
    hide Homes, At;
    RunningHome(k, c);
  }

  /** A ready thread is queued again under its new priority; any other just gets it. */
  ghost function Reprioritise(k: Sched, t: Pid, p: Priority): (k': Sched)
    requires Shaped(k)
    ensures Shaped(k')
  {
    if k.state[t] == Ready
    then TailLink(SetPriority(Unlink(k, ReadyRing(k.priority[t]), t), t, p), ReadyRing(p), t)
    else SetPriority(k, t, p)
  }

  lemma ReprioritiseCalm(k: Sched, t: Pid, p: Priority)
    requires Shaped(k) && Homes(k) && Settled(k)
    ensures Calm(k, Reprioritise(k, t, p))
  {
    hide Homes, At, Put, Without;
    StateTellsHome(k, t);
  }

  /** A free thread becomes ready with priority `p`. */
  ghost function Created(k: Sched, t: Pid, p: Priority): (k': Sched)
    requires Shaped(k)
    ensures Shaped(k')
  {
    TailLink(SetPriority(Unlink(k, FreeRing, t), t, p), ReadyRing(p), t)
  }

  lemma CreatedCalm(k: Sched, t: Pid, p: Priority)
    requires Shaped(k) && Settled(k) && k.home[t] == InRing(FreeRing)
    ensures Calm(k, Created(k, t, p))
  {
    hide At, Put, Without;
  }

  lemma CreatedHome(k: Sched, t: Pid, p: Priority)
    requires Shaped(k)
    ensures Created(k, t, p).home[t] == InRing(ReadyRing(p)) && Created(k, t, p).running == k.running
  {
    hide At, Put, Without;
  }

  ghost function SleepOn(k: Sched, c: nat, expired: seq<int>): (k': Sched)
    requires Shaped(k) && c < |k.running| && k.running[c].Some? && |expired| == 32
    ensures Shaped(k')
  {
    var t := k.running[c].value;
    ClearCore(Link(Depart(k, c), SleepRing, t, Placed(At(k.rings, SleepRing), SleepRing, t, expired)), c)
  }

  lemma SleepOnCalm(k: Sched, c: nat, expired: seq<int>)
    requires Shaped(k) && Homes(k) && Settled(k) && c < |k.running| && k.running[c].Some? && |expired| == 32
    ensures Calm(k, SleepOn(k, c, expired))
  {
    hide Homes, At, Put, Placed;
    RunningHome(k, c);
  }

  /** Core `c` takes thread `t` off its ready list and runs it. */
  ghost function Picked(k: Sched, c: nat, t: Pid): (k': Sched)
    requires Shaped(k) && c < |k.running|
    ensures Shaped(k')
  {
    Dispatch(Unlink(k, ReadyRing(k.priority[t]), t), c, t)
  }

  lemma PickedCalm(k: Sched, c: nat, t: Pid)
    requires Shaped(k) && Settled(k) && c < |k.running| && k.home[t] == InRing(ReadyRing(k.priority[t]))
    ensures Calm(k, Picked(k, c, t))
  {
    hide At, Put, Without;
  }

  /** How many threads at the front of a list have expired. */
  function DuePrefix(s: seq<Pid>, expired: seq<int>, now: int): (n: nat)
    requires |expired| == 32
    ensures n <= |s| && (forall i :: 0 <= i < n ==> expired[s[i]] <= now) && (n < |s| ==> expired[s[n]] > now)
  {
    if s == [] || expired[s[0]] > now then 0 else 1 + DuePrefix(s[1..], expired, now)
  }

  lemma DuePrefixUnique(s: seq<Pid>, expired: seq<int>, now: int, n: nat)
    requires |expired| == 32 && n <= |s|
    requires (forall i :: 0 <= i < n ==> expired[s[i]] <= now) && (n < |s| ==> expired[s[n]] > now)
    ensures n == DuePrefix(s, expired, now)
  {
  }

  /** The same for the timeout list, whose threads also wait in queues. */
  lemma TimeoutsDrained(k: Sched, i: nat)
    requires Shaped(k) && Homes(k) && Ports(k) && Settled(k) && i <= |At(k.rings, SyncSleepRing)|
    ensures At(WakeAll(k, At(k.rings, SyncSleepRing)[..i]).rings, SyncSleepRing) == At(k.rings, SyncSleepRing)[i..]
  {
    hide Homes, Ports, WakeAll, Dropping, Blocked, At;
    TimedBlocked(k);
    var w := At(k.rings, SyncSleepRing);
    assert [] + w == w && [] + w[..i] == w[..i];
    Drained(k, SyncSleepRing, [], i);
  }

  lemma TimedBlocked(k: Sched)
    requires Homes(k) && Settled(k)
    ensures NoDup(At(k.rings, SyncSleepRing))
    ensures forall t :: t in At(k.rings, SyncSleepRing) ==>
      Blocked(k, t) && k.home[t].InRing? && IsQueue(k.home[t].ring) && k.queue[t] == Some(k.home[t].ring)
  {
    forall t | t in At(k.rings, SyncSleepRing)
      ensures Blocked(k, t) && k.home[t].InRing? && IsQueue(k.home[t].ring) && k.queue[t] == Some(k.home[t].ring)
    {
      assert k.timeout[t];
      assert HomeHolds(k, t);
    }
  }

  lemma QueueWakeCalm(k: Sched, q: RingId, n: nat)
    requires Shaped(k) && Homes(k) && Ports(k) && Settled(k) && IsQueue(q) && n <= |At(k.rings, q)|
    ensures Calm(k, WakeAll(k, At(k.rings, q)[..n]))
  {
    hide Homes, Ports, WakeAll, MovedToReady, At;
    QueueBlocked(k, q);
    WakeAllKeeps(k, At(k.rings, q)[..n]);
  }

  /** Waking from one queue leaves the others alone. */
  lemma OtherQueues(k: Sched, q: RingId, n: nat, r: RingId)
    requires Shaped(k) && Homes(k) && Ports(k) && IsQueue(q) && IsQueue(r) && r != q && n <= |At(k.rings, q)|
    ensures At(WakeAll(k, At(k.rings, q)[..n]).rings, r) == At(k.rings, r)
  {
    hide Homes, Ports, WakeAll, At, Dropping;
    QueueBlocked(k, q);
    QueueBlocked(k, r);
    WakeAllKeeps(k, At(k.rings, q)[..n]);
    DropNone(At(k.rings, r), At(k.rings, q)[..n]);
  }

  /** A thread blocked in a receive is handed a message: it becomes ready and stops listening. */
  ghost function Handed(k: Sched, t: Pid): (k': Sched)
    requires Shaped(k)
    ensures Shaped(k')
  {
    SetPort(TailLink(Unlink(k, WaitRing, t), ReadyRing(k.priority[t]), t), t, WaitListen)
  }

  lemma HandedCalm(k: Sched, t: Pid)
    requires Shaped(k) && Settled(k) && k.home[t] == InRing(WaitRing)
    ensures Calm(k, Handed(k, t)) && Handed(k, t).home == k.home[t := InRing(ReadyRing(k.priority[t]))]
  {
    hide At, Put, Without;
  }

  lemma ListeningPort(k: Sched, t: Pid)
    requires Shaped(k) && Ports(k)
    ensures k.home[t] == InRing(WaitRing) ==> k.port[t].PortReady?
  {
  }

  lemma SetPortCalm(k: Sched, t: Pid)
    requires Shaped(k) && Settled(k)
    ensures Calm(k, SetPort(k, t, WaitListen))
  {
  }

  // No call on one core touches what the other cores run.

  ghost predicate OthersRun(k: Sched, k': Sched, c: nat) {
    && |k'.running| == |k.running| && c < |k.running|
    && (forall d :: 0 <= d < |k.running| && d != c ==> k'.running[d] == k.running[d])
    && (k'.running[c] == k.running[c] || k'.running[c].None?)
  }

  lemma BlockingRuns(k: Sched, c: nat, r: RingId, t: Pid, timed: bool, expired: seq<int>)
    requires Shaped(k) && c < |k.running| && k.running[c].Some? && |expired| == 32
    ensures OthersRun(k, BlockOn(k, c, r), c) && OthersRun(k, Rendezvous(k, c, t), c) && OthersRun(k, WaitOn(k, c, r, timed), c)
    ensures OthersRun(k, JoinOn(k, c, t), c) && OthersRun(k, SleepOn(k, c, expired), c) && OthersRun(k, Listen(k, c), c)
  {
    hide At, Put, Without, Placed;
  }

  lemma QuietRuns(k: Sched, c: nat, from: RingId, to: RingId, t: Pid, p: Priority)
    requires Shaped(k) && c < |k.running|
    ensures OthersRun(k, Move(k, from, to, t), c) && OthersRun(k, WakeOne(k, t), c) && OthersRun(k, Created(k, t, p), c)
    ensures OthersRun(k, Reprioritise(k, t, p), c) && OthersRun(k, SetPort(k, t, WaitListen), c) && OthersRun(k, Handed(k, t), c)
    ensures At(k.rings, PendingRing(t)) != [] ==> OthersRun(k, Accept(k, t), c)
  {
    hide At, Put, Without;
  }

  lemma WakingRuns(k: Sched, c: nat, ts: seq<Pid>)
    requires Shaped(k) && c < |k.running|
    ensures WakeAll(k, ts).running == k.running && OthersRun(k, WakeAll(k, ts), c)
  {
    hide WakeAll;
    RunningSame(k, ts);
  }

  lemma EndedRuns(k: Sched, c: nat, t: Pid, detached: bool)
    requires Shaped(k) && Homes(k) && Ports(k) && Settled(k) && c < |k.running| && Detachable(k, t)
    requires k.home[t].OnCore? ==> k.home[t].core == c
    ensures OthersRun(k, Ended(k, c, t, detached), c)
  {
    hide Homes, Ports, Exit, Detach, Detachable;
    ExitSlots(k, c, t, detached);
  }

  lemma SameRuns(k: Sched, c: nat)
    requires c < |k.running|
    ensures OthersRun(k, k, c)
  {
  }

  lemma CreateRuns(k: Sched, c: nat, p: nat)
    requires Shaped(k) && c < |k.running|
    ensures OthersRun(k, k, c)
    ensures p < 8 && At(k.rings, FreeRing) != [] ==> OthersRun(k, Created(k, At(k.rings, FreeRing)[0], p), c)
  {
    hide OthersRun, Created, At;
    SameRuns(k, c);
    if p < 8 && At(k.rings, FreeRing) != [] {
      QuietRuns(k, c, FreeRing, FreeRing, At(k.rings, FreeRing)[0], p);
    }
  }

  lemma IpcRuns(k: Sched, c: nat, u: Pid)
    requires Shaped(k) && c < |k.running| && k.running[c].Some?
    ensures OthersRun(k, k, c) && OthersRun(k, Listen(k, c), c) && OthersRun(k, BlockOn(k, c, PendingRing(u)), c)
    ensures OthersRun(k, Rendezvous(k, c, u), c) && OthersRun(k, WakeOne(k, u), c)
    ensures OthersRun(k, Handed(k, u), c) && OthersRun(k, SetPort(k, u, WaitListen), c)
    ensures At(k.rings, PendingRing(u)) != [] ==> OthersRun(k, Accept(k, u), c)
  {
    hide OthersRun, Listen, BlockOn, Rendezvous, WakeOne, Handed, SetPort, Accept, At;
    SameRuns(k, c);
    BlockingRuns(k, c, PendingRing(u), u, false, seq(32, _ => 0));
    QuietRuns(k, c, FreeRing, FreeRing, u, 0);
  }

  lemma {:induction false} RunningSame(k: Sched, ts: seq<Pid>)
    requires Shaped(k)
    ensures WakeAll(k, ts).running == k.running
    decreases |ts|
  {
    hide At, Put, Without;
    if ts != [] {
      RunningSame(k, ts[..|ts| - 1]);
    }
  }

  lemma HandedRuns(k: Sched, t: Pid)
    requires Shaped(k)
    ensures Handed(k, t).running == k.running
  {
    hide At, Put, Without;
  }

  lemma PickedRuns(k: Sched, c: nat, t: Pid)
    requires Shaped(k) && c < |k.running|
    ensures Picked(k, c, t).running == k.running[c := Some(t)]
  {
    hide At, Put, Without;
  }

  lemma BlockRuns(k: Sched, c: nat, r: RingId)
    requires Shaped(k) && c < |k.running| && k.running[c].Some?
    ensures OthersRun(k, BlockOn(k, c, r), c) && BlockOn(k, c, r).running[c].None?
  {
    hide At, Put;
  }

  lemma SameRunning(k: Sched, k': Sched, c: nat)
    requires k'.running == k.running && c < |k.running|
    ensures OthersRun(k, k', c)
  {
  }

  lemma RunsBetween(k: Sched, k1: Sched, k2: Sched, c: nat)
    requires OthersRun(k, k1, c) && OthersRun(k1, k2, c)
    ensures OthersRun(k, k2, c) && |k2.running| == |k.running| && c < |k.running|
    ensures k2.running[c].Some? ==> k2.running[c] == k.running[c]
  {
  }
}
