/** Runs that end in a panic: a signal that takes a server out of its receive leaves the server's port
    marked ready, and the next call to the server stops the kernel. */
module Scenario {
  import opened Lists
  import opened KernelState
  import opened Syscalls
  import K = Kernel
  import V = VidIndex
  import T = TimerTable
  import I = IrqTable

  /** The vid that the root thread asks for when it makes the server. */
  const SERVER: Word := 70000

  const NOW := Env(0, 0, SERVER, 0)

  /** The root thread takes core 0 and makes a less urgent server; the server takes core 1 and receives;
      the root thread signals it. */
  const OPENING: seq<Event> :=
    [Switch(0, NOW), Call(0, 2, 0, 1, 1), Switch(0, NOW), Switch(1, NOW), Call(1, 7, 0, 0, 0), Switch(1, NOW),
     Call(0, 20, SERVER, 1, 0), Switch(0, NOW)]

  /** Two cores, nothing timed and no interrupt to hand over. */
  ghost predicate Undisturbed(a: Snap) {
    && Whole(a) && a.halt.None? && |a.os.running| == 2
    && At(a.os.rings, SleepRing) == [] && At(a.os.rings, SyncSleepRing) == []
    && (forall i :: 0 <= i < T.TIMERS ==> !a.timers[i].armed)
    && (forall i :: 0 <= i < I.IRQS ==> !a.lines.queued[i])
  }

  /** Who runs and who is ready; the root thread is the most urgent one, and no call is pending. */
  ghost predicate Scene(a: Snap, first: Option<Pid>, second: Option<Pid>, urgent: seq<Pid>, ready: seq<Pid>) {
    && Undisturbed(a) && a.os.running == [first, second] && a.os.priority[0] == 0
    && At(a.os.rings, ReadyRing(0)) == urgent && At(a.os.rings, ReadyRing(1)) == ready
    && a.trap[0].phase != Pending && a.trap[1].phase != Pending
  }

  /** The state of the server, thread 1. */
  ghost predicate Server(a: Snap, home: Home, port: PortState) {
    && Whole(a) && a.os.home[1] == home && a.os.state[1] == StateAt(home) && a.os.port[1] == port && !a.os.timeout[1]
    && a.os.priority[1] == 1 && At(a.os.rings, PendingRing(1)) == []
    && SERVER in a.index && a.index[SERVER] == 1 && a.vid[1] == SERVER
  }

  /** Before that: thread 1 is the first of the free ones, and the vid is not taken. */
  ghost predicate Unmade(a: Snap) {
    && Whole(a) && a.os.port[1] == WaitListen && !a.os.timeout[1] && SERVER !in a.index
    && At(a.os.rings, PendingRing(1)) == [] && |At(a.os.rings, FreeRing)| > 0 && At(a.os.rings, FreeRing)[0] == 1
  }

  lemma LastCounted(log: seq<nat>)
    requires log != []
    ensures T.Count(log, log[|log| - 1]) > 0
  {
  }

  lemma NothingLogged(a: Snap, log: seq<nat>, times: seq<int>, now: int)
    requires Undisturbed(a) && T.Chronicle(a.timers, log, times, now)
    requires forall i :: 0 <= i < T.TIMERS ==> T.Count(log, i) == T.Remaining(a.timers[i], now)
    ensures log == []
  {
    hide T.Count, T.FiringTime, Sorted, At, Whole;
    if log != [] {
      LastCounted(log);
    }
  }

  lemma NothingFired(a: Snap, b: Snap, log: seq<nat>, times: seq<int>, now: int)
    requires Undisturbed(a) && TimersFired(a, b, log, times, now)
    ensures b == a
  {
    NothingLogged(a, log, times, now);
    hide T.Count, T.Chronicle, At, WakeAll, Answered;
    T.WokenByNone(a.os.rings);
    WakeAllNone(a.os);
    AnsweredNone(a.trap, Ret1(0));
    assert b.timers == a.timers;
  }

  lemma NothingAwoken(a: Snap, r: RingId, now: int, ret: Trap)
    requires Whole(a) && At(a.os.rings, r) == []
    ensures Awoken(a, r, now, ret) == a
  {
    hide WakeAll, Answered, At;
    WakeAllNone(a.os);
    AnsweredNone(a.trap, ret);
  }

  /** With nothing timed a tick changes nothing. */
  lemma NothingDue(a: Snap, b: Snap, now: int)
    requires Undisturbed(a) && Ticked(a, b, now)
    ensures b == a
  {
    hide TimersFired, Awoken, At;
    var log, times, m :|
      && TimersFired(a, m, log, times, now) && Whole(m)
      && b == Awoken(Awoken(m, SleepRing, now, Ret3(0, 0, 0)), SyncSleepRing, now, Ret1(ETIMEDOUT));
    NothingFired(a, m, log, times, now);
    NothingAwoken(a, SleepRing, now, Ret3(0, 0, 0));
    NothingAwoken(a, SyncSleepRing, now, Ret1(ETIMEDOUT));
  }

  lemma NothingQueued(a: Snap, b: Snap, address: nat -> Word)
    requires Undisturbed(a) && Flushed(a, b, address)
    ensures b == a
  {
  }

  lemma ScheduledCalm(a: Snap, b: Snap, c: nat, address: nat -> Word)
    requires Undisturbed(a) && c < 2 && a.os.running[c].None? && Stepped(a, b, Switch(c, NOW), address)
    ensures PickedBy(a, b, c, NextReady(a.os.rings, 0), 0, address)
  {
    hide Ticked, Flushed, PickedBy, NextReady;
    var picked :| Scheduled(a, b, c, picked, 0, address);
    var m, n :|
      && Ticked(a, m, 0) && Whole(m) && Flushed(m, n, address)
      && Whole(n) && c < |n.os.running| && PickedBy(n, b, c, picked, 0, address);
    NothingDue(a, m, 0);
    NothingQueued(a, n, address);
    PickedFirst(n, b, c, picked, 0, address);
  }

  lemma PickedFirst(a: Snap, b: Snap, c: nat, picked: Option<Pid>, now: int, address: nat -> Word)
    requires Whole(a) && c < |a.os.running| && PickedBy(a, b, c, picked, now, address)
    ensures picked == NextReady(a.os.rings, 0)
  {
  }

  /** The call that the thread on core `c` has made is served. */
  lemma EnteredCalm(a: Snap, b: Snap, c: nat, address: nat -> Word) returns (n: Snap)
    requires Undisturbed(a) && Calling(a, c) && a.trap[Caller(a, c)].phase == Pending && Stepped(a, b, Switch(c, NOW), address)
    ensures var f := a.trap[Caller(a, c)]; CallDone(Serve(a, c, f), n, c, f, NOW, address)
    ensures if n.halt.None? && c < |n.os.running| && n.os.running[c].Some?
      then Calling(n, c) && Continued(n, b, c, 0, address) else b == n
  {
    hide Ticked, CallDone, Serve, Continued;
    var m, n' :| EnteredBy(a, m, n', b, c, NOW, address);
    NothingDue(a, m, 0);
    n := n';
  }

  /** The root thread, with no peer, goes on. */
  lemma RootGoesOn(a: Snap, b: Snap, address: nat -> Word)
    requires Undisturbed(a) && Calling(a, 0) && Caller(a, 0) == 0 && a.os.priority[0] == 0 && At(a.os.rings, ReadyRing(0)) == []
    requires Continued(a, b, 0, 0, address)
    ensures b == Armed(GivenOut(a, 0), 0, 0, Some(0))
  {
    hide Flushed, NextEventTime, At;
    NothingQueued(Armed(GivenOut(a, 0), 0, 0, Some(0)), b, address);
  }

  lemma FirstGone(s: seq<Pid>)
    requires s != []
    ensures Without(s, s[0]) == s[1..]
  {
  }

  lemma BootLists()
    ensures var k := Boot(2);
      && Shaped(k) && k.running == [None, None] && k.priority[0] == 0 && k.port[1] == WaitListen && !k.timeout[1]
      && At(k.rings, FreeRing) == AllPids() && forall r :: r != FreeRing ==> At(k.rings, r) == []
  {
    hide AllPids;
  }

  lemma CreatedRoot(k: Sched)
    requires Shaped(k) && At(k.rings, FreeRing) == AllPids() && forall r :: r != FreeRing ==> At(k.rings, r) == []
    ensures var k' := Created(k, 0, 0);
      && k'.running == k.running && k'.priority == k.priority[0 := 0] && k'.port == k.port && k'.timeout == k.timeout
      && At(k'.rings, FreeRing) == AllPids()[1..]
      && forall r :: r != FreeRing ==> At(k'.rings, r) == if r == ReadyRing(0) then [0] else []
  {
    hide At, Put, Without;
    FirstGone(AllPids());
  }

  /** At power-on thread 0 is ready, thread 1 the first of the free ones. */
  lemma AtFirst(a: Snap)
    requires AtBoot(a, 2)
    ensures Scene(a, None, None, [0], []) && Unmade(a)
  {
    hide NoDup, Without, Created, Boot, At;
    BootLists();
    CreatedRoot(Boot(2));
  }

  /** The root thread takes core 0. */
  lemma RootRuns(a: Snap, b: Snap, address: nat -> Word)
    requires Scene(a, None, None, [0], []) && Unmade(a) && Stepped(a, b, Switch(0, NOW), address)
    ensures Scene(b, Some(0), None, [], []) && Unmade(b)
  {
    hide Stepped, NextEventTime, At, Put, Flushed;
    ScheduledCalm(a, b, 0, address);
    var p := GivenOut(a.(os := Picked(a.os, 0, 0)), 0);
    assert NextReady(a.os.rings, 0) == Some(0);
    assert Without([0 as Pid], 0 as Pid) == [];
    NothingQueued(Armed(p, 0, 0, Some(0)), b, address);
  }

  lemma CallMade(a: Snap, m: Snap, c: nat, t: Pid, f: Trap, address: nat -> Word)
    requires Calling(a, c) && Caller(a, c) == t && f.phase == Pending
    requires Stepped(a, m, Call(c, f.r0, f.r1, f.r2, f.r3), address)
    ensures m == Returned(a, t, f)
  {
    hide Entered, Scheduled, Raised;
  }

  /** Thread `t` on core `c` makes the call in frame `f`, which is served at the next switch. */
  lemma Asked(a: Snap, m: Snap, b: Snap, c: nat, t: Pid, f: Trap, address: nat -> Word) returns (n: Snap)
    requires Undisturbed(a) && Calling(a, c) && Caller(a, c) == t && f.phase == Pending && f.r0 <= 21
    requires Stepped(a, m, Call(c, f.r0, f.r1, f.r2, f.r3), address) && Stepped(m, b, Switch(c, NOW), address)
    ensures Calling(Serving(a, t, f), c) && Undisturbed(Serving(a, t, f)) && CallDone(Serving(a, t, f), n, c, f, NOW, address)
    ensures if n.halt.None? && c < |n.os.running| && n.os.running[c].Some?
      then Calling(n, c) && Continued(n, b, c, 0, address) else b == n
  {
    hide Stepped, CallDone, Continued, At;
    CallMade(a, m, c, t, f, address);
    n := EnteredCalm(m, b, c, address);
    assert m.trap[t := f.(phase := Phase.Serving)] == a.trap[t := f.(phase := Phase.Serving)];
    assert Serve(m, c, f) == Serving(a, t, f);
  }

  ghost function Serving(a: Snap, t: Pid, f: Trap): Snap
    requires |a.trap| == 32
  {
    Returned(a, t, f.(phase := Phase.Serving))
  }

  /** The entries of the call table for the calls made here. */
  lemma Called(a: Snap, b: Snap, c: nat, f: Trap, address: nat -> Word)
    requires Calling(a, c) && CallDone(a, b, c, f, NOW, address)
    ensures f.r0 == 2 && f.r2 != 0 ==> Made(a, b, c, SERVER, f.r3, 0)
    ensures f.r0 == 7 ==> Received(a, b, c, address)
    ensures f.r0 == 8 ==> Replied(a, b, c, f.r1, f.r2, f.r3, address)
    ensures f.r0 == 9 ==> Sent(a, b, c, f.r1, f.r2, f.r3)
    ensures f.r0 == 20 ==> Signalled(a, b, c, f.r1, f.r2)
  {
    hide Slept, Killed, Made, PrioritySet, Joined, MadeDetached, Exited, Received, Replied, Sent, Polled, Offered, FutexWaited,
      FutexWoke, TimerMade, TimerDeleted, TimerArmed, TimerCancelled, TimerWaited, ClockRead, Signalled, SignalsTaken, Faulted;
  }

  /** What the lists and columns show when thread 1 has been created. */
  lemma CreatedServer(k: Sched)
    requires Shaped(k)
    ensures var k' := Created(k, 1, 1);
      && k'.running == k.running && k'.priority == k.priority[1 := 1] && k'.port == k.port && k'.timeout == k.timeout
      && k'.home == k.home[1 := InRing(ReadyRing(1))] && k'.state == k.state[1 := Ready]
      && forall r :: At(k'.rings, r) == if r == ReadyRing(1) then At(k.rings, r) + [1]
                                        else if r == FreeRing then Without(At(k.rings, r), 1) else At(k.rings, r)
  {
    hide At, Put, Without;
  }

  /** A frame under service, or an armed tick, changes nothing in the scene. */
  lemma SceneServed(a: Snap, second: Option<Pid>, ready: seq<Pid>, t: Pid, f: Trap)
    requires Scene(a, Some(0), second, [], ready)
    ensures Scene(Serving(a, t, f), Some(0), second, [], ready)
    ensures forall home, port :: Server(a, home, port) ==> Server(Serving(a, t, f), home, port)
    ensures Unmade(a) ==> Unmade(Serving(a, t, f))
  {
    hide At;
  }

  lemma SceneGoesOn(a: Snap, b: Snap, ready: seq<Pid>, home: Home, port: PortState, address: nat -> Word)
    requires Scene(a, Some(0), None, [], ready) && Server(a, home, port) && Continued(a, b, 0, 0, address)
    ensures Scene(b, Some(0), None, [], ready) && Server(b, home, port)
  {
    hide At, NextEventTime;
    RootGoesOn(a, b, address);
  }

  lemma SceneMade(a: Snap, b: Snap)
    requires Scene(a, Some(0), None, [], []) && Unmade(a)
    requires Made(a, b, 0, SERVER, 1, 0)
    ensures Scene(b, Some(0), None, [], [1]) && Server(b, InRing(ReadyRing(1)), WaitListen)
  {
    hide At, Created;
    CreatedServer(a.os);
  }

  /** The root thread makes the server. */
  lemma RootCreates(a: Snap, m: Snap, b: Snap, address: nat -> Word)
    requires Scene(a, Some(0), None, [], []) && Unmade(a)
    requires Stepped(a, m, Call(0, 2, 0, 1, 1), address) && Stepped(m, b, Switch(0, NOW), address)
    ensures Scene(b, Some(0), None, [], [1]) && Server(b, InRing(ReadyRing(1)), WaitListen)
  {
    hide Stepped, At, Continued, CallDone, Made;
    var f := Trap(2, 0, 1, 1, Pending);
    var n := Asked(a, m, b, 0, 0, f, address);
    Called(Serving(a, 0, f), n, 0, f, address);
    SceneServed(a, None, [], 0, f);
    SceneMade(Serving(a, 0, f), n);
    SceneGoesOn(n, b, [1], InRing(ReadyRing(1)), WaitListen, address);
  }

  lemma PickedServer(k: Sched)
    requires Shaped(k) && |k.running| == 2 && k.priority[1] == 1 && At(k.rings, ReadyRing(1)) == [1]
    ensures var k' := Picked(k, 1, 1);
      && k'.running == k.running[1 := Some(1)] && k'.priority == k.priority && k'.port == k.port && k'.timeout == k.timeout
      && k'.home == k.home[1 := OnCore(1)] && k'.state == k.state[1 := Running]
      && forall r :: At(k'.rings, r) == if r == ReadyRing(1) then [] else At(k.rings, r)
  {
    hide At, Put;
    assert Without([1 as Pid], 1 as Pid) == [];
  }

  ghost function OnSecond(a: Snap): Snap
    requires Undisturbed(a)
  {
    GivenOut(a.(os := Picked(a.os, 1, 1)), 1)
  }

  lemma ScenePicked(a: Snap, b: Snap, address: nat -> Word)
    requires Undisturbed(a) && a.os.priority[1] == 1 && At(a.os.rings, ReadyRing(1)) == [1]
    requires PickedBy(a, b, 1, Some(1), 0, address)
    ensures Undisturbed(OnSecond(a)) && b == Armed(OnSecond(a), 1, 0, Some(1))
  {
    hide NextEventTime, At, Flushed, Picked, NextReady;
    PickedServer(a.os);
    NothingQueued(Armed(OnSecond(a), 1, 0, Some(1)), b, address);
  }

  lemma SceneOnSecond(a: Snap, port: PortState)
    requires Scene(a, Some(0), None, [], [1]) && Server(a, InRing(ReadyRing(1)), port)
    ensures Scene(OnSecond(a), Some(0), Some(1), [], []) && Server(OnSecond(a), OnCore(1), port)
  {
    hide At, Picked;
    PickedServer(a.os);
  }

  lemma SceneArmed(a: Snap, port: PortState)
    requires Scene(a, Some(0), Some(1), [], []) && Server(a, OnCore(1), port)
    ensures var b := Armed(a, 1, 0, Some(1)); Scene(b, Some(0), Some(1), [], []) && Server(b, OnCore(1), port)
  {
    hide At, NextEventTime;
  }

  /** The server takes core 1. */
  lemma ServerRuns(a: Snap, b: Snap, port: PortState, address: nat -> Word)
    requires Scene(a, Some(0), None, [], [1]) && Server(a, InRing(ReadyRing(1)), port)
    requires Stepped(a, b, Switch(1, NOW), address)
    ensures Scene(b, Some(0), Some(1), [], []) && Server(b, OnCore(1), port)
  {
    hide Stepped, Armed, OnSecond, At, PickedBy, NextReady;
    ScheduledCalm(a, b, 1, address);
    SecondList(a.os.rings);
    ScenePicked(a, b, address);
    SceneOnSecond(a, port);
    SceneArmed(OnSecond(a), port);
  }

  lemma SecondList(rings: Rings)
    requires At(rings, ReadyRing(0)) == [] && At(rings, ReadyRing(1)) == [1]
    ensures NextReady(rings, 0) == Some(1)
  {
    assert NextReady(rings, 0) == NextReady(rings, 1);
  }

  lemma ListeningServer(k: Sched)
    requires Shaped(k) && k.running == [Some(0), Some(1)]
    ensures var k' := Listen(k, 1);
      && k'.running == [Some(0), None] && k'.priority == k.priority && k'.port == k.port[1 := PortReady] && k'.timeout == k.timeout
      && k'.home == k.home[1 := InRing(WaitRing)] && k'.state == k.state[1 := WaitingMsg]
      && forall r :: At(k'.rings, r) == if r == WaitRing then At(k.rings, r) + [1] else At(k.rings, r)
  {
    hide At, Put;
  }

  lemma SceneReceived(a: Snap, b: Snap, address: nat -> Word)
    requires Scene(a, Some(0), Some(1), [], []) && Server(a, OnCore(1), WaitListen) && Received(a, b, 1, address)
    ensures Scene(b, Some(0), None, [], []) && Server(b, InRing(WaitRing), PortReady)
  {
    hide At, Listen, I.NextEvent;
    ListeningServer(a.os);
  }

  /** The server blocks in a receive. */
  lemma ServerReceives(a: Snap, m: Snap, b: Snap, address: nat -> Word)
    requires Scene(a, Some(0), Some(1), [], []) && Server(a, OnCore(1), WaitListen)
    requires Stepped(a, m, Call(1, 7, 0, 0, 0), address) && Stepped(m, b, Switch(1, NOW), address)
    ensures Scene(b, Some(0), None, [], []) && Server(b, InRing(WaitRing), PortReady)
  {
    hide Stepped, At, Continued, CallDone, Received;
    var f := Trap(7, 0, 0, 0, Pending);
    var n := Asked(a, m, b, 1, 1, f, address);
    Called(Serving(a, 1, f), n, 1, f, address);
    SceneServed(a, Some(1), [], 1, f);
    SceneReceived(Serving(a, 1, f), n, address);
  }

  lemma WokenServer(k: Sched)
    requires Shaped(k) && k.home[1] == InRing(WaitRing) && k.priority[1] == 1 && !k.timeout[1]
    ensures var k' := WakeOne(k, 1);
      && k'.running == k.running && k'.priority == k.priority && k'.port == k.port && k'.timeout == k.timeout
      && k'.home == k.home[1 := InRing(ReadyRing(1))] && k'.state == k.state[1 := Ready]
      && forall r :: At(k'.rings, r) == if r == ReadyRing(1) then At(k.rings, r) + [1]
                                        else if r == WaitRing then Without(At(k.rings, r), 1) else At(k.rings, r)
  {
    hide At, Put, Without;
  }

  lemma SceneSignalled(a: Snap, b: Snap)
    requires Scene(a, Some(0), None, [], []) && Server(a, InRing(WaitRing), PortReady) && Signalled(a, b, 0, SERVER, 1)
    ensures Scene(b, Some(0), None, [], [1]) && Server(b, InRing(ReadyRing(1)), PortReady)
  {
    hide At, WakeOne, WithSignal;
    WokenServer(a.os);
  }

  /** A signal makes the server ready, but leaves its port marked ready too. */
  lemma RootSignals(a: Snap, m: Snap, b: Snap, address: nat -> Word)
    requires Scene(a, Some(0), None, [], []) && Server(a, InRing(WaitRing), PortReady)
    requires Stepped(a, m, Call(0, 20, SERVER, 1, 0), address) && Stepped(m, b, Switch(0, NOW), address)
    ensures Scene(b, Some(0), None, [], [1]) && Server(b, InRing(ReadyRing(1)), PortReady)
  {
    hide Stepped, At, Continued, CallDone, Signalled;
    var f := Trap(20, SERVER, 1, 0, Pending);
    var n := Asked(a, m, b, 0, 0, f, address);
    Called(Serving(a, 0, f), n, 0, f, address);
    SceneServed(a, None, [], 0, f);
    SceneSignalled(Serving(a, 0, f), n);
    SceneGoesOn(n, b, [1], InRing(ReadyRing(1)), PortReady, address);
  }

  /** A call to the server finds its port ready and the server not receiving. */
  lemma RootCalls(a: Snap, m: Snap, b: Snap, address: nat -> Word)
    requires Scene(a, Some(0), None, [], [1]) && Server(a, InRing(ReadyRing(1)), PortReady)
    requires Stepped(a, m, Call(0, 9, SERVER, 0, 0), address) && Stepped(m, b, Switch(0, NOW), address)
    ensures b.halt == Some(SendNotWaiting)
  {
    hide Stepped, At, Continued, CallDone, Met, BlockOn;
    var f := Trap(9, SERVER, 0, 0, Pending);
    var n := Asked(a, m, b, 0, 0, f, address);
    Called(Serving(a, 0, f), n, 0, f, address);
  }

  /** The server replies to nobody in particular, with its port still marked ready. */
  lemma ServerReplies(a: Snap, m: Snap, b: Snap, address: nat -> Word)
    requires Scene(a, Some(0), Some(1), [], []) && Server(a, OnCore(1), PortReady)
    requires Stepped(a, m, Call(1, 8, 0, 0, 0), address) && Stepped(m, b, Switch(1, NOW), address)
    ensures b.halt == Some(ReplyPortReady)
  {
    hide Stepped, At, Continued, CallDone, WakeOne;
    var f := Trap(8, 0, 0, 0, Pending);
    var n := Asked(a, m, b, 1, 1, f, address);
    Called(Serving(a, 1, f), n, 1, f, address);
  }

  lemma RunLength(trace: seq<Snap>, events: seq<Event>, address: nat -> Word)
    requires IsRun(trace, events, address)
    ensures |trace| == |events| + 1
  {
  }

  lemma OneStep(trace: seq<Snap>, events: seq<Event>, i: nat, second: Option<Pid>, ready: seq<Pid>, address: nat -> Word)
    requires IsRun(trace, events, address) && i < |events|
    requires Scene(trace[i], Some(0), second, [], ready) || AtBoot(trace[i], 2)
    ensures Whole(trace[i]) && Stepped(trace[i], trace[i + 1], events[i], address)
  {
    hide Stepped, At, Boot, Created;
    assert StepOrStop(trace[i], trace[i + 1], events[i], address);
  }

  /** In a run a call and the switch that serves it are two steps. */
  lemma TwoSteps(trace: seq<Snap>, events: seq<Event>, i: nat, second: Option<Pid>, ready: seq<Pid>, c: nat, f: Trap,
                 address: nat -> Word)
    requires IsRun(trace, events, address) && i + 2 <= |events| && c < 2
    requires Scene(trace[i], Some(0), second, [], ready) && (c == 1 ==> second == Some(1))
    requires events[i] == Call(c, f.r0, f.r1, f.r2, f.r3) && f.phase == Pending
    ensures Whole(trace[i]) && Stepped(trace[i], trace[i + 1], events[i], address)
    ensures Whole(trace[i + 1]) && Stepped(trace[i + 1], trace[i + 2], events[i + 1], address)
  {
    hide Stepped, At;
    assert StepOrStop(trace[i], trace[i + 1], events[i], address);
    CallMade(trace[i], trace[i + 1], c, c, f, address);
    assert StepOrStop(trace[i + 1], trace[i + 1 + 1], events[i + 1], address);
  }

  ghost predicate Opens(events: seq<Event>) {
    && |events| >= 8 && events[0] == Switch(0, NOW) && events[1] == Call(0, 2, 0, 1, 1) && events[2] == Switch(0, NOW)
    && events[3] == Switch(1, NOW) && events[4] == Call(1, 7, 0, 0, 0) && events[5] == Switch(1, NOW)
    && events[6] == Call(0, 20, SERVER, 1, 0) && events[7] == Switch(0, NOW)
  }

  /** The server is made. */
  lemma Begun(trace: seq<Snap>, events: seq<Event>, address: nat -> Word)
    requires IsRun(trace, events, address) && AtBoot(trace[0], 2) && Opens(events)
    ensures |trace| > 3 && Scene(trace[3], Some(0), None, [], [1]) && Server(trace[3], InRing(ReadyRing(1)), WaitListen)
  {
    RunLength(trace, events, address);
    hide Stepped, IsRun, AtBoot, At, Scene, Unmade, Server;
    AtFirst(trace[0]);
    OneStep(trace, events, 0, None, [], address);
    RootRuns(trace[0], trace[1], address);
    TwoSteps(trace, events, 1, None, [], 0, Trap(2, 0, 1, 1, Pending), address);
    RootCreates(trace[1], trace[2], trace[3], address);
  }

  /** The server has received and been signalled. */
  lemma Opened(trace: seq<Snap>, events: seq<Event>, address: nat -> Word)
    requires IsRun(trace, events, address) && AtBoot(trace[0], 2) && Opens(events)
    ensures |trace| > 8 && Scene(trace[8], Some(0), None, [], [1]) && Server(trace[8], InRing(ReadyRing(1)), PortReady)
  {
    RunLength(trace, events, address);
    hide Stepped, IsRun, AtBoot, At, Scene, Server;
    Begun(trace, events, address);
    OneStep(trace, events, 3, None, [1], address);
    ServerRuns(trace[3], trace[4], WaitListen, address);
    TwoSteps(trace, events, 4, Some(1), [], 1, Trap(7, 0, 0, 0, Pending), address);
    ServerReceives(trace[4], trace[5], trace[6], address);
    TwoSteps(trace, events, 6, None, [], 0, Trap(20, SERVER, 1, 0, Pending), address);
    RootSignals(trace[6], trace[7], trace[8], address);
  }

  /** Then the root thread calls the server. */
  lemma CallStops(trace: seq<Snap>, address: nat -> Word)
    requires IsRun(trace, OPENING + [Call(0, 9, SERVER, 0, 0), Switch(0, NOW)], address) && AtBoot(trace[0], 2)
    ensures trace[10].halt == Some(SendNotWaiting)
  {
    var events := OPENING + [Call(0, 9, SERVER, 0, 0), Switch(0, NOW)];
    RunLength(trace, events, address);
    hide Stepped, IsRun, AtBoot, At, Scene, Server;
    assert Opens(events) && events[8] == Call(0, 9, SERVER, 0, 0) && events[9] == Switch(0, NOW);
    hide Opens;
    Opened(trace, events, address);
    TwoSteps(trace, events, 8, None, [1], 0, Trap(9, SERVER, 0, 0, Pending), address);
    RootCalls(trace[8], trace[9], trace[10], address);
  }

  /** Or the server, back on core 1, replies. */
  lemma ReplyStops(trace: seq<Snap>, address: nat -> Word)
    requires IsRun(trace, OPENING + [Switch(1, NOW), Call(1, 8, 0, 0, 0), Switch(1, NOW)], address) && AtBoot(trace[0], 2)
    ensures trace[11].halt == Some(ReplyPortReady)
  {
    var events := OPENING + [Switch(1, NOW), Call(1, 8, 0, 0, 0), Switch(1, NOW)];
    RunLength(trace, events, address);
    hide Stepped, IsRun, AtBoot, At, Scene, Server;
    assert Opens(events) && events[8] == Switch(1, NOW) && events[9] == Call(1, 8, 0, 0, 0) && events[10] == Switch(1, NOW);
    Opened(trace, events, address);
    OneStep(trace, events, 8, None, [1], address);
    ServerRuns(trace[8], trace[9], PortReady, address);
    TwoSteps(trace, events, 9, Some(1), [], 1, Trap(8, 0, 0, 0, Pending), address);
    ServerReplies(trace[9], trace[10], trace[11], address);
  }

  /** The kernel, started on two cores, stops in either way. */
  method Panics(address: nat -> Word) returns (sending: K.Kernel, replying: K.Kernel)
    ensures sending.halt == Some(SendNotWaiting) && replying.halt == Some(ReplyPortReady)
  {
    hide IsRun, AtBoot, Spurious, NoSignals;
    ghost var trace: seq<Snap>, trace': seq<Snap>;
    sending, trace := K.PowerOn(2, address, OPENING + [Call(0, 9, SERVER, 0, 0), Switch(0, NOW)]);
    CallStops(trace, address);
    replying, trace' := K.PowerOn(2, address, OPENING + [Switch(1, NOW), Call(1, 8, 0, 0, 0), Switch(1, NOW)]);
    ReplyStops(trace', address);
  }
}
