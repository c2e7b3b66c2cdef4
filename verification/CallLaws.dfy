/** What the system calls mean: for each number, what a call does to the states, lists and registers of
    the threads involved, in plain terms. */
module CallLaws {
  import opened Lists
  import opened KernelState
  import opened Syscalls
  import opened SchedLaws
  import F = FutexTable
  import T = TimerTable
  import I = IrqTable

  /** What holds between any two steps of the kernel. */
  ghost predicate Sane(a: Snap) {
    Whole(a) && Homes(a.os) && Ports(a.os) && Settled(a.os) && Named(a.index, a.vid, a.os.home)
  }

  /** Thread `u` finds `r0` in its first register when it next runs. */
  ghost predicate Gets(b: Snap, u: Pid, r0: Word) {
    |b.trap| == 32 && b.trap[u].phase == Output && b.trap[u].r0 == r0
  }

  /** The states and frames of all threads but those in `s` are as they were. */
  ghost predicate OnlyThese(a: Snap, b: Snap, s: set<Pid>)
    requires Whole(a)
  {
    |b.os.state| == |b.trap| == 32 && forall u: Pid :: u !in s ==> b.os.state[u] == a.os.state[u] && b.trap[u] == a.trap[u]
  }

  // Ending a thread.

  /** Thread `u` has ended with `code`: it is free if detached or joined and else a zombie, its joiner has
      the code, those who waited on its port are interrupted, and no other thread but perhaps `t` is
      touched. */
  ghost predicate HasEnded(a: Snap, b: Snap, u: Pid, code: Word, t: Pid)
    requires Whole(a)
  {
    var j := a.os.joiner[u];
    && |b.os.state| == |b.trap| == |b.exitCode| == |b.vid| == 32
    && b.os.state[u] == (if a.detached[u] || (j.Some? && j.value != u) then Free else Zombie)
    && b.exitCode[u] == code
    && (b.os.state[u] == Free ==> b.index == a.index - {a.vid[u]})
    && (b.os.state[u] == Zombie ==> b.index == a.index && b.vid == a.vid)
    && forall x: Pid :: x != u && x != t ==>
         if j == Some(x) then b.os.state[x] == Ready && b.trap[x].phase == Output && b.trap[x].r0 == 0 && b.trap[x].r1 == code
         else if x in At(a.os.rings, PendingRing(u)) || x in At(a.os.rings, ReplyRing(u)) then
           b.os.state[x] == Ready && b.trap[x].phase == Output && b.trap[x].r0 == 27
         else b.os.state[x] == a.os.state[x] && b.trap[x] == a.trap[x]
  }

  lemma EndedBy(a: Snap, c: nat, u: Pid, code: Word)
    requires Sane(a) && c < |a.os.running| && Detachable(a.os, u)
    requires a.os.home[u].OnCore? ==> a.os.home[u].core == c
    ensures var b := AfterExit(a, c, u, code);
      && HasEnded(a, b, u, code, u) && b.halt == a.halt
      && b.os.running == if a.os.running[c] == Some(u) then a.os.running[c := None] else a.os.running
  {
    hide Homes, Ports, Detachable, Detach, Ended, PortWaiters, ExitTraps, At;
    var b := AfterExit(a, c, u, code);
    EndedMeans(a.os, c, u, a.detached[u]);
    EndedHome(a.os, c, u, a.detached[u]);
    PortMembers(a.os, u);
    forall x: Pid ensures b.trap[x] ==
      if a.os.joiner[u] == Some(x) && x != u then Ret2(0, code)
      else if x in PortWaiters(a.os, u) && x != u then Ret1(EINTR)
      else a.trap[x]
    {
      ExitTrapsMean(a.trap, a.os, u, code, x);
    }
  }

  lemma EndedHome(k: Sched, c: nat, t: Pid, detached: bool)
    requires Shaped(k) && Homes(k) && Ports(k) && Settled(k) && Detachable(k, t) && c < |k.running|
    requires k.home[t].OnCore? ==> k.home[t].core == c
    ensures Ended(k, c, t, detached).home[t] == InRing(FreeRing) <==> Ended(k, c, t, detached).state[t] == Free
  {
    hide Homes, Ports, Detachable, Detach, Exit;
    EndedMeans(k, c, t, detached);
    ExitSlots(k, c, t, detached);
  }

  lemma EndedBut(a: Snap, e: Snap, b: Snap, u: Pid, code: Word, t: Pid, ret: Trap)
    requires Whole(a) && HasEnded(a, e, u, code, u) && |e.trap| == 32 && b == Returned(e, t, ret)
    ensures HasEnded(a, b, u, code, t)
  {
  }

  /** Exit, and the end that a fault brings. */
  lemma ExitLaw(a: Snap, b: Snap, c: nat, code: Word)
    requires Calling(a, c) && Sane(a) && (Exited(a, b, c, code) || Faulted(a, b, c, code))
    ensures HasEnded(a, b, Caller(a, c), code, Caller(a, c)) && b.os.running == a.os.running[c := None] && b.halt == a.halt
  {
    hide Homes, Ports, Named, Detachable, Detach, Ended, PortWaiters, ExitTraps, At, AfterExit, HasEnded;
    var t := Caller(a, c);
    RunningHome(a.os, c);
    EndedBy(a, c, t, code);
    var e := AfterExit(a, c, t, code);
    if b != e {
      EndedBut(a, e, b, t, code, t, e.trap[t].(phase := Done));
    }
  }

  // Signals by number.

  lemma DeadlySignal(a: Snap, b: Snap, c: nat, v: Word, sig: Word, now: int)
    requires Calling(a, c) && Killed(a, b, c, v, sig, now) && v in a.index
    requires sig in {1, 2, 3, 4, 5, 6, 7, 8, 9, 10, 11, 12, 13, 15, 16, 24, 25, 26, 27, 30, 31}
    ensures KilledBy(a, b, c, a.index[v], 128 + sig)
  {
    hide KilledBy, StoppedBy, ContinuedBy, AlarmedBy;
  }

  /** A deadly signal ends any thread but a zombie and one running elsewhere. */
  lemma KillEnds(a: Snap, b: Snap, c: nat, v: Word, sig: Word, now: int)
    requires Calling(a, c) && Sane(a) && Killed(a, b, c, v, sig, now) && v in a.index
    requires sig in {1, 2, 3, 4, 5, 6, 7, 8, 9, 10, 11, 12, 13, 15, 16, 24, 25, 26, 27, 30, 31}
    ensures var t, u := Caller(a, c), a.index[v];
      && b.halt == a.halt
      && if a.os.state[u] == Zombie || (a.os.state[u] == Running && u != t) then
           Gets(b, t, if a.os.state[u] == Zombie then 75 else 10) && b.os == a.os && OnlyThese(a, b, {t})
         else
           && HasEnded(a, b, u, 128 + sig, t)
           && if u == t then b.os.running == a.os.running[c := None] else b.os.running == a.os.running && Gets(b, t, 0)
  {
    hide Homes, Ports, Named, At, Detachable, Detach, Ended, PortWaiters, ExitTraps, AfterExit, HasEnded, Killed;
    DeadlySignal(a, b, c, v, sig, now);
    var t, u := Caller(a, c), a.index[v];
    RunningHome(a.os, c);
    StateTellsHome(a.os, u);
    if a.os.state[u] != Zombie && !(a.os.state[u] == Running && u != t) {
      DetachKeeps(a.os, u);
      EndedBy(a, c, u, 128 + sig);
      if u != t {
        EndedBut(a, AfterExit(a, c, u, 128 + sig), b, u, 128 + sig, t, Ret1(0));
        RunsOnce(a.os, c, u);
      }
    }
  }

  lemma RunsOnce(k: Sched, c: nat, u: Pid)
    requires Homes(k) && Settled(k) && c < |k.running| && k.state[u] != Running
    ensures k.running[c] != Some(u)
  {
    if k.running[c] == Some(u) {
      RunningHome(k, c);
      assert false;
    }
  }

  lemma ContinueSignal(a: Snap, b: Snap, c: nat, v: Word, now: int)
    requires Calling(a, c) && Killed(a, b, c, v, 18, now) && v in a.index
    ensures ContinuedBy(a, b, c, a.index[v])
  {
    hide KilledBy, StoppedBy, ContinuedBy, AlarmedBy;
  }

  /** Signal 18 makes a stopped thread ready, last among its peers, and does nothing to others. */
  lemma KillContinues(a: Snap, b: Snap, c: nat, v: Word, now: int)
    requires Calling(a, c) && Sane(a) && Killed(a, b, c, v, 18, now) && v in a.index
    ensures var t, u := Caller(a, c), a.index[v];
      && Gets(b, t, 0) && OnlyThese(a, b, {t, u}) && b.halt == a.halt
      && (a.os.state[u] != Stopped ==> b.os == a.os)
      && (a.os.state[u] == Stopped ==>
            && b.os.state[u] == Ready && b.os.running == a.os.running
            && At(b.os.rings, ReadyRing(a.os.priority[u])) == At(a.os.rings, ReadyRing(a.os.priority[u])) + [u])
  {
    hide Homes, Ports, Named, At, WakeOne, Killed;
    ContinueSignal(a, b, c, v, now);
    var u := a.index[v];
    if a.os.state[u] == Stopped {
      StoppedHome(a.os, u);
      WakeOneColumns(a.os, u);
      WakeOneRing(a.os, u, ReadyRing(a.os.priority[u]));
    }
  }

  lemma StoppedHome(k: Sched, u: Pid)
    requires Homes(k) && Settled(k) && k.state[u] == Stopped
    ensures k.home[u] == InRing(StoppedRing)
  {
    hide Homes;
    StateTellsHome(k, u);
  }

  lemma StoppingSignal(a: Snap, b: Snap, c: nat, v: Word, sig: Word, now: int)
    requires Calling(a, c) && Killed(a, b, c, v, sig, now) && v in a.index && sig in {19, 20}
    ensures StoppedBy(a, b, c, a.index[v])
  {
    hide KilledBy, StoppedBy, ContinuedBy, AlarmedBy;
  }

  /** Signals 19 and 20 stop a ready thread, or the caller itself, and no other. */
  lemma KillStops(a: Snap, b: Snap, c: nat, v: Word, sig: Word, now: int)
    requires Calling(a, c) && Sane(a) && Killed(a, b, c, v, sig, now) && v in a.index && sig in {19, 20} && a.index[v] != Caller(a, c)
    ensures var t, u := Caller(a, c), a.index[v];
      && OnlyThese(a, b, {t, u}) && b.halt == a.halt && Gets(b, t, if a.os.state[u] == Running then 10 else 0)
      && (a.os.state[u] != Ready ==> b.os == a.os)
      && (a.os.state[u] == Ready ==>
            && b.os.state[u] == Stopped && b.os.running == a.os.running
            && At(b.os.rings, StoppedRing) == At(a.os.rings, StoppedRing) + [u]
            && u !in At(b.os.rings, ReadyRing(a.os.priority[u])))
  {
    hide Homes, Ports, Named, At, Move, BlockOn, Killed;
    StoppingSignal(a, b, c, v, sig, now);
    var u := a.index[v];
    if a.os.state[u] == Ready {
      MoveMeans(a.os, ReadyRing(a.os.priority[u]), StoppedRing, u);
      OnceListed(a.os, ReadyRing(a.os.priority[u]));
    }
  }

  lemma KillStopsSelf(a: Snap, b: Snap, c: nat, v: Word, sig: Word, now: int)
    requires Calling(a, c) && Sane(a) && Killed(a, b, c, v, sig, now) && v in a.index && sig in {19, 20} && a.index[v] == Caller(a, c)
    ensures var t := Caller(a, c);
      && b.os.state == a.os.state[t := Stopped] && b.os.running == a.os.running[c := None] && b.trap == a.trap && b.halt == a.halt
      && At(b.os.rings, StoppedRing) == At(a.os.rings, StoppedRing) + [t]
  {
    hide Homes, Ports, Named, At, Move, BlockOn, Killed;
    StoppingSignal(a, b, c, v, sig, now);
    RunningHome(a.os, c);
    BlockOnMeans(a.os, c, StoppedRing);
  }

  /** Signals 0, 17, 21 to 23, 28 and 29 only return 0. */
  lemma KillIgnored(a: Snap, b: Snap, c: nat, v: Word, sig: Word, now: int)
    requires Calling(a, c) && Killed(a, b, c, v, sig, now) && v in a.index && sig in {0, 17, 21, 22, 23, 28, 29}
    ensures var t := Caller(a, c);
      Gets(b, t, 0) && b == a.(trap := b.trap) && OnlyThese(a, b, {t})
  {
    hide KilledBy, StoppedBy, ContinuedBy, AlarmedBy;
  }

  lemma AlarmSignal(a: Snap, b: Snap, c: nat, v: Word, now: int)
    requires Calling(a, c) && Killed(a, b, c, v, 14, now) && v in a.index
    ensures AlarmedBy(a, b, c, a.index[v], 14, now)
  {
    hide KilledBy, StoppedBy, ContinuedBy, AlarmedBy;
  }

  /** The second and third register hold the time left until `expired` as a 64-bit number, the high word
      first. */
  ghost predicate TellsLeft(r: Trap, expired: int, now: int) {
    var left := if now < expired then expired - now else 0;
    r.r1 * 0x1_0000_0000 + r.r2 == left % 0x1_0000_0000_0000_0000
  }

  /** Signal 14 ends a sleep, telling the sleeper the time that was left. */
  lemma KillCutsSleep(a: Snap, b: Snap, c: nat, v: Word, now: int)
    requires Calling(a, c) && Sane(a) && Killed(a, b, c, v, 14, now) && v in a.index && a.os.state[a.index[v]] == Sleep
    ensures var t, u := Caller(a, c), a.index[v];
      && Gets(b, t, 0) && OnlyThese(a, b, {t, u}) && b.os.running == a.os.running && b.signals == a.signals
      && b.os.state[u] == Ready && Gets(b, u, 27) && TellsLeft(b.trap[u], a.expired[u], now)
  {
    hide Homes, Ports, Named, At, WakeOne, AlarmReturn, WithSignal, Killed, TellsLeft;
    AlarmSignal(a, b, c, v, now);
    var u := a.index[v];
    StateTellsHome(a.os, u);
    RunningHome(a.os, c);
    AlarmMeans(a.expired[u], now);
    WakeOneColumns(a.os, u);
  }

  /** It interrupts a receive and a wait in a queue. */
  lemma KillInterrupts(a: Snap, b: Snap, c: nat, v: Word, now: int)
    requires Calling(a, c) && Sane(a) && Killed(a, b, c, v, 14, now) && v in a.index
    requires a.os.state[a.index[v]] in {WaitingMsg, WaitingSync}
    ensures var t, u := Caller(a, c), a.index[v];
      && Gets(b, t, 0) && OnlyThese(a, b, {t, u}) && b.os.running == a.os.running && b.signals == a.signals
      && b.os.state[u] == Ready && Gets(b, u, 27)
  {
    hide Homes, Ports, Named, At, WakeOne, AlarmReturn, WithSignal, Killed;
    AlarmSignal(a, b, c, v, now);
    var u := a.index[v];
    StateTellsHome(a.os, u);
    RunningHome(a.os, c);
    WakeOneColumns(a.os, u);
  }

  /** It leaves those in the middle of an exchange of messages alone, and is pending for all others. */
  lemma KillPends(a: Snap, b: Snap, c: nat, v: Word, now: int)
    requires Calling(a, c) && Killed(a, b, c, v, 14, now) && v in a.index
    requires a.os.state[a.index[v]] !in {Sleep, WaitingMsg, WaitingSync}
    ensures var t, u := Caller(a, c), a.index[v];
      && Gets(b, t, 0) && OnlyThese(a, b, {t}) && b.os == a.os
      && b.signals == if a.os.state[u] in {WaitingRead, WaitingReply} then a.signals else a.signals[u := a.signals[u] | 0x2000]
  {
    hide Homes, Ports, Named, At, WakeOne, AlarmReturn, WithSignal, Killed;
    AlarmSignal(a, b, c, v, now);
    AlarmBit(a.signals[a.index[v]]);
    if a.os.state[a.index[v]] !in {WaitingRead, WaitingReply} {
      assert Alarmed(a, a.index[v], 14, now) == a.(signals := a.signals[a.index[v] := WithSignal(a.signals[a.index[v]], 14)]);
    }
  }

  lemma AlarmMeans(expired: int, now: int)
    ensures var r := AlarmReturn(expired, now); r.phase == Output && r.r0 == 27 && TellsLeft(r, expired, now)
  {
    if now < expired {
      ClockWords(expired - now);
    }
  }

  lemma AlarmBit(pending: bv32)
    ensures WithSignal(pending, 14) == pending | 0x2000
  {
    assert (1 as bv32) << 13 == 0x2000;
  }

  /** The other numbers: 32 and up are refused, and those that are negative as an int run off the table. */
  lemma KillRefused(a: Snap, b: Snap, c: nat, v: Word, sig: Word, now: int)
    requires Calling(a, c) && Killed(a, b, c, v, sig, now) && (v !in a.index || sig > 31)
    ensures var t := Caller(a, c);
      if v in a.index && sig >= 0x8000_0000 then b == a.(halt := Some(SignalOutOfTable))
      else Gets(b, t, if v in a.index then 28 else 75) && b == a.(trap := b.trap) && OnlyThese(a, b, {t})
  {
    hide KilledBy, StoppedBy, ContinuedBy, AlarmedBy;
  }

  /** In short: what a signal does to the thread it is for. */
  lemma KillColumns(a: Snap, b: Snap, c: nat, v: Word, sig: Word, now: int)
    requires Calling(a, c) && Sane(a) && Killed(a, b, c, v, sig, now) && v in a.index
    ensures var u := a.index[v];
      && (sig in {1, 2, 3, 4, 5, 6, 7, 8, 9, 10, 11, 12, 13, 15, 16, 24, 25, 26, 27, 30, 31}
          && a.os.state[u] != Zombie && (a.os.state[u] == Running ==> u == Caller(a, c)) ==>
            |b.os.state| == |b.exitCode| == 32 && b.os.state[u] in {Free, Zombie} && b.exitCode[u] == 128 + sig)
      && (sig == 18 && a.os.state[u] == Stopped ==> |b.os.state| == 32 && b.os.state[u] == Ready)
      && (sig in {19, 20} && a.os.state[u] == Ready ==> |b.os.state| == 32 && b.os.state[u] == Stopped)
      && (sig in {0, 17, 21, 22, 23, 28, 29} ==> b.os == a.os)
      && (b.halt != a.halt ==> b == a.(halt := b.halt))
  {
    hide Homes, Ports, Named, At, Killed;
    if sig in {1, 2, 3, 4, 5, 6, 7, 8, 9, 10, 11, 12, 13, 15, 16, 24, 25, 26, 27, 30, 31} {
      KillEnds(a, b, c, v, sig, now);
    } else if sig == 18 {
      KillContinues(a, b, c, v, now);
    } else if sig in {19, 20} {
      RunningHome(a.os, c);
      if a.index[v] == Caller(a, c) {
        KillStopsSelf(a, b, c, v, sig, now);
      } else {
        KillStops(a, b, c, v, sig, now);
      }
    } else if sig in {0, 17, 21, 22, 23, 28, 29} {
      KillIgnored(a, b, c, v, sig, now);
    } else if sig > 31 {
      KillRefused(a, b, c, v, sig, now);
    } else {
      AlarmKeepsGoing(a, b, c, v, now);
    }
  }

  lemma AlarmKeepsGoing(a: Snap, b: Snap, c: nat, v: Word, now: int)
    requires Calling(a, c) && Killed(a, b, c, v, 14, now) && v in a.index
    ensures b.halt == a.halt
  {
    hide WakeOne, AlarmReturn, WithSignal, Killed;
    AlarmSignal(a, b, c, v, now);
  }

  // The calls by number.

  /** Which call a number is, the low eight bits of the first register, and what the other registers are
      to it. */
  lemma CallNumbers(a: Snap, b: Snap, c: nat, f: Trap, env: Env, address: nat -> Word)
    requires Calling(a, c) && CallDone(a, b, c, f, env, address)
    ensures var n := f.r0 % 256;
      && (n == 0 ==> Slept(a, b, c, f.r1, f.r2, env.now)) && (n == 1 ==> Killed(a, b, c, f.r1, f.r2, env.now))
      && (n == 2 ==> Made(a, b, c, if f.r2 == 0 then 0xFFFF_FFFF else env.word, f.r3, env.garbage))
      && (n == 3 ==> PrioritySet(a, b, c, f.r1, f.r2)) && (n == 4 ==> Joined(a, b, c, f.r1))
      && (n == 5 ==> MadeDetached(a, b, c, f.r1)) && (n == 6 ==> Exited(a, b, c, f.r1))
      && (n == 7 ==> Received(a, b, c, address)) && (n == 8 ==> Replied(a, b, c, f.r1, f.r2, f.r3, address))
      && (n == 9 ==> Sent(a, b, c, f.r1, f.r2, f.r3)) && (n == 10 ==> Polled(a, b, c)) && (n == 11 ==> Offered(a, b, c, f.r1, f.r2))
      && (n == 12 ==> FutexWaited(a, b, c, f.r1, f.r2, f.r3, env.word, env.now)) && (n == 13 ==> FutexWoke(a, b, c, f.r1, f.r2))
      && (n == 14 ==> TimerMade(a, b, c)) && (n == 15 ==> TimerDeleted(a, b, c, f.r1))
      && (n == 16 ==> TimerArmed(a, b, c, f.r1, f.r2, f.r3, env.now)) && (n == 17 ==> TimerCancelled(a, b, c, f.r1))
      && (n == 18 ==> TimerWaited(a, b, c, f.r1, f.r2, env.now)) && (n == 19 ==> ClockRead(a, b, c, f.r1, env.now, env.offset))
      && (n == 20 ==> Signalled(a, b, c, f.r1, f.r2)) && (n == 21 ==> SignalsTaken(a, b, c)) && (n == 255 ==> Faulted(a, b, c, f.r1))
      && (21 < n < 255 ==> b == a.(trap := a.trap[Caller(a, c) := Trap(55, 0xFFFF_FFFF, 0xFFFF_FFFF, 0xFFFF_FFFF, Done)]))
  {
    hide Slept, Killed, Made, PrioritySet, Joined, MadeDetached, Exited, Received, Replied, Sent, Polled, Offered, FutexWaited, FutexWoke,
      TimerMade, TimerDeleted, TimerArmed, TimerCancelled, TimerWaited, ClockRead, Signalled, SignalsTaken, Faulted;
  }

  /** Sleep, number 0.  The registers hold a signed 64-bit duration, the high word first.  A thread that
      sleeps gives up its core and stands in the sleep list; one that does not goes behind its peers. */
  lemma SleepLaw(a: Snap, b: Snap, c: nat, r1: Word, r2: Word, now: int)
    requires Calling(a, c) && Sane(a) && Slept(a, b, c, r1, r2, now)
    ensures var t, p := Caller(a, c), a.os.priority[Caller(a, c)];
      var d := r1 * 0x1_0000_0000 + r2;
      && OnlyThese(a, b, {t}) && b.os.running == a.os.running[c := None]
      && if r1 < 0x8000_0000 && d > 0 then
           && b.os.state[t] == Sleep && b.expired == a.expired[t := now + d] && b.trap == a.trap
           && SleptIn(At(a.os.rings, SleepRing), At(b.os.rings, SleepRing), b.expired, t)
         else
           && b.os.state[t] == Ready && Gets(b, t, 0) && b.expired == a.expired
           && At(b.os.rings, ReadyRing(p)) == At(a.os.rings, ReadyRing(p)) + [t]
  {
    hide Homes, Ports, Named, At, BlockOn, SleepOn, SleptIn;
    var t := Caller(a, c);
    BlockOnMeans(a.os, c, ReadyRing(a.os.priority[t]));
    SleepOnMeans(a.os, c, a.expired[t := now + Duration(r1, r2)]);
  }

  /** Create, number 2.  The oldest free thread is ready, last among its peers, under a vid that nobody
      has: the one asked for if that is free, else one of 1 to 65535. */
  lemma CreateLaw(a: Snap, b: Snap, c: nat, reserved: Word, priority: Word, garbage: Word)
    requires Calling(a, c) && Sane(a) && Made(a, b, c, reserved, priority, garbage)
    ensures var s, free := Caller(a, c), At(a.os.rings, FreeRing);
      if priority >= 8 || free == [] then Gets(b, s, if priority >= 8 then 28 else 6) && b == a.(trap := b.trap) && OnlyThese(a, b, {s})
      else
        var t := free[0];
        && t != s && b.os.state == a.os.state[t := Ready] && b.os.priority == a.os.priority[t := priority] && b.os.running == a.os.running
        && At(b.os.rings, FreeRing) == free[1..] && At(b.os.rings, ReadyRing(priority)) == At(a.os.rings, ReadyRing(priority)) + [t]
        && Gets(b, s, 0) && b.trap[s].r1 !in a.index && b.index == a.index[b.trap[s].r1 := t] && b.vid == a.vid[t := b.trap[s].r1]
        && b.detached == a.detached[t := false] && b.signals == a.signals[t := 0]
  {
    hide Homes, Ports, Named, At, Created;
    var s := Caller(a, c);
    RunningHome(a.os, c);
    if priority < 8 && At(a.os.rings, FreeRing) != [] {
      var t := At(a.os.rings, FreeRing)[0];
      InRingAt(a.os, FreeRing, t);
      CreatedMeans(a.os, t, priority);
    }
  }

  /** The vid of the new thread. */
  lemma CreateVidLaw(a: Snap, b: Snap, c: nat, reserved: Word, priority: Word, garbage: Word)
    requires Calling(a, c) && Sane(a) && Made(a, b, c, reserved, priority, garbage)
    requires priority < 8 && At(a.os.rings, FreeRing) != [] && |b.trap| == 32
    ensures var v := b.trap[Caller(a, c)].r1;
      && (reserved != 0 && reserved != 0xFFFF_FFFF && reserved !in a.index ==> v == reserved)
      && (reserved == 0xFFFF_FFFF || (reserved in a.index && reserved != 0) || (reserved == 0 && a.vid0) ==> 1 <= v <= 65535)
      && (reserved == 0 && !a.vid0 ==> v == 0)
  {
    hide Homes, Ports, Named, At, Created;
    RunningHome(a.os, c);
    InRingAt(a.os, FreeRing, At(a.os.rings, FreeRing)[0]);
  }

  /** Change of priority, number 3.  A ready thread goes to the tail of the list of its new priority. */
  lemma PriorityLaw(a: Snap, b: Snap, c: nat, v: Word, priority: Word)
    requires Calling(a, c) && Sane(a) && PrioritySet(a, b, c, v, priority)
    ensures var t, p := Caller(a, c), priority % 256;
      if v !in a.index || a.os.state[a.index[v]] == Zombie then Gets(b, t, 75) && b == a.(trap := b.trap) && OnlyThese(a, b, {t})
      else if p >= 8 then b == a.(halt := Some(PriorityOutOfTable))
      else
        var u := a.index[v];
        && Gets(b, t, 0) && OnlyThese(a, b, {t}) && b.os.state == a.os.state && b.os.priority == a.os.priority[u := p]
        && (a.os.state[u] == Ready && p != a.os.priority[u] ==>
              At(b.os.rings, ReadyRing(p)) == At(a.os.rings, ReadyRing(p)) + [u] && u !in At(b.os.rings, ReadyRing(a.os.priority[u])))
  {
    hide Homes, Ports, Named, At, Reprioritise;
    var p := priority % 256;
    if v in a.index && p < 8 {
      var u := a.index[v];
      ReprioritiseMeans(a.os, u, p);
      OnceListed(a.os, ReadyRing(a.os.priority[u]));
    }
  }

  /** Join, number 4.  A zombie gives up its exit code, its vid and its entry; for a live thread that nobody
      joins the caller waits. */
  lemma JoinLaw(a: Snap, b: Snap, c: nat, v: Word)
    requires Calling(a, c) && Sane(a) && Joined(a, b, c, v)
    ensures var t := Caller(a, c);
      if v !in a.index then Gets(b, t, 75) && b == a.(trap := b.trap) && OnlyThese(a, b, {t})
      else
        var u := a.index[v];
        if a.detached[u] || (a.os.state[u] != Zombie && a.os.joiner[u].Some?) then
          Gets(b, t, 28) && b == a.(trap := b.trap) && OnlyThese(a, b, {t})
        else if a.os.state[u] == Zombie then
          && Gets(b, t, 0) && b.trap[t].r1 == a.exitCode[u] && b.os.state == a.os.state[u := Free] && b.os.running == a.os.running
          && At(b.os.rings, FreeRing) == At(a.os.rings, FreeRing) + [u] && b.index == a.index - {v}
        else
          && b.os.state == a.os.state[t := PendingJoin] && b.os.joiner == a.os.joiner[u := Some(t)]
          && b.os.running == a.os.running[c := None] && b.trap == a.trap && b.os.rings == a.os.rings && b.index == a.index
  {
    hide Homes, Ports, Named, At, Move, JoinOn;
    if v in a.index {
      MoveMeans(a.os, ZombieRing, FreeRing, a.index[v]);
      JoinOnMeans(a.os, c, a.index[v]);
    }
  }

  /** Detach, number 5.  A zombie is freed, but the answer is an error. */
  lemma DetachLaw(a: Snap, b: Snap, c: nat, v: Word)
    requires Calling(a, c) && Sane(a) && MadeDetached(a, b, c, v)
    ensures var t := Caller(a, c);
      if v !in a.index then Gets(b, t, 75) && b == a.(trap := b.trap) && OnlyThese(a, b, {t})
      else
        var u := a.index[v];
        if a.os.state[u] == Zombie then
          && Gets(b, t, 28) && b.os.state == a.os.state[u := Free] && At(b.os.rings, FreeRing) == At(a.os.rings, FreeRing) + [u]
          && b.index == a.index - {v} && b.detached == a.detached
        else Gets(b, t, 0) && b.os == a.os && b.detached == a.detached[u := true] && b.index == a.index
  {
    hide Homes, Ports, Named, At, Move;
    if v in a.index {
      MoveMeans(a.os, ZombieRing, FreeRing, a.index[v]);
    }
  }

  lemma NotRunning(k: Sched, c: nat, r: RingId, u: Pid)
    requires Homes(k) && Settled(k) && c < |k.running| && u in At(k.rings, r) && !r.SyncSleepRing?
    ensures k.running[c] != Some(u)
  {
    hide Homes, At;
    InRingAt(k, r, u);
    if k.running[c] == Some(u) {
      RunningHome(k, c);
      assert false;
    }
  }

  /** Receive, number 7.  Unless an interrupt is to be reported, the oldest pending sender is accepted: the
      caller has its vid, which leads back to it, its pointer and its size, and owes it a reply; with
      nobody pending the caller waits with its port ready. */
  lemma ReceiveLaw(a: Snap, b: Snap, c: nat, address: nat -> Word)
    requires Calling(a, c) && Sane(a) && Received(a, b, c, address)
    requires a.vid[Caller(a, c)] != 65000 || forall i :: 0 <= i < 26 ==> !a.lines.queued[i] || a.lines.inflight[i]
    ensures var t, w := Caller(a, c), At(a.os.rings, PendingRing(Caller(a, c)));
      if w != [] then
        var s := w[0];
        && Gets(b, t, 0) && b.trap[t].r1 in a.index && a.index[b.trap[t].r1] == s
        && b.trap[t].r2 == a.message[s].ptr && b.trap[t].r3 == a.message[s].size
        && b.os.state == a.os.state[s := WaitingReply] && b.os.running == a.os.running && OnlyThese(a, b, {t, s})
        && At(b.os.rings, PendingRing(t)) == w[1..] && At(b.os.rings, ReplyRing(t)) == At(a.os.rings, ReplyRing(t)) + [s]
      else
        && b.os.state == a.os.state[t := WaitingMsg] && b.os.running == a.os.running[c := None] && b.trap == a.trap
        && b.os.port == a.os.port[t := PortReady] && At(b.os.rings, WaitRing) == At(a.os.rings, WaitRing) + [t]
  {
    hide Homes, Ports, Named, At, Accept, Listen, SetPort;
    var t := Caller(a, c);
    NamedList(a.index, a.vid, a.os, PendingRing(t));
    if At(a.os.rings, PendingRing(t)) != [] {
      AcceptMeans(a.os, t);
    } else {
      ListenMeans(a.os, c);
    }
  }

  /** The server of the interrupts, the thread with vid 65000, is told of the lowest line that has an event
      and none in flight. */
  lemma ReceiveEventLaw(a: Snap, b: Snap, c: nat, address: nat -> Word, i: nat)
    requires Calling(a, c) && Sane(a) && Received(a, b, c, address)
    requires a.vid[Caller(a, c)] == 65000 && i < 26 && a.lines.queued[i] && !a.lines.inflight[i]
    requires forall j :: 0 <= j < i ==> !a.lines.queued[j] || a.lines.inflight[j]
    ensures var t := Caller(a, c);
      && b.trap == a.trap[t := Trap(0, 0xFFFF_0000 + i, address(i), 16, Output)]
      && b.os == a.os.(port := a.os.port[t := WaitListen])
      && b.lines.queued == a.lines.queued[i := false] && b.lines.inflight == a.lines.inflight[i := true]
  {
    hide Homes, Ports, Named, At, Accept, Listen;
    I.NextEventFirst(a.lines.queued, a.lines.inflight, 0, i);
  }

  /** Reply, number 8.  A thread that is owed a reply is ready, last among its peers, with the pointer and
      the size; to reply to anybody else, or while listening, stops the kernel. */
  lemma ReplyLaw(a: Snap, b: Snap, c: nat, v: Word, msg: Word, size: Word, address: nat -> Word)
    requires Calling(a, c) && Sane(a) && Replied(a, b, c, v, msg, size, address)
    requires v < 0xFFFF_0000 || v >= 0xFFFF_0000 + 26
    ensures var t := Caller(a, c);
      if a.os.port[t] == PortReady then b.halt == Some(ReplyPortReady)
      else if v in a.index && a.index[v] in At(a.os.rings, ReplyRing(t)) then
        var u := a.index[v];
        var p := a.os.priority[u];
        && u != t && Gets(b, t, 0) && Gets(b, u, 0) && b.trap[u].r1 == msg && b.trap[u].r2 == size && OnlyThese(a, b, {t, u})
        && b.os.state == a.os.state[u := Ready] && b.os.running == a.os.running && b.halt == a.halt
        && At(b.os.rings, ReadyRing(p)) == At(a.os.rings, ReadyRing(p)) + [u] && u !in At(b.os.rings, ReplyRing(t))
      else b.halt == Some(ReplyNotListed)
  {
    hide Homes, Ports, Named, At, WakeOne, Handed;
    var t := Caller(a, c);
    if v in a.index && a.index[v] in At(a.os.rings, ReplyRing(t)) {
      WakeOneMeans(a.os, ReplyRing(t), a.index[v]);
      NotRunning(a.os, c, ReplyRing(t), a.index[v]);
    }
  }

  lemma ServerWaits(a: Snap, c: nat)
    requires Calling(a, c) && Sane(a)
    ensures WaitsAs(a.os, a.vid, 65000) <==> 65000 in a.index && a.os.state[a.index[65000]] == WaitingMsg
    ensures 65000 in a.index && a.os.state[a.index[65000]] == WaitingMsg ==> a.index[65000] != Caller(a, c)
  {
    hide Homes, Ports, Named, WaitsAs;
    RunningHome(a.os, c);
    OnlyServer(a.index, a.vid, a.os, 65000);
    if 65000 in a.index {
      StateTellsHome(a.os, a.index[65000]);
    }
  }

  /** A reply to a line ends its flight and unmasks it; an event that came meanwhile goes to the server, if
      that waits. */
  lemma ReplyLineLaw(a: Snap, b: Snap, c: nat, v: Word, msg: Word, size: Word, address: nat -> Word)
    requires Calling(a, c) && Sane(a) && Replied(a, b, c, v, msg, size, address)
    requires 0xFFFF_0000 <= v < 0xFFFF_0000 + 26
    ensures var t, i := Caller(a, c), v - 0xFFFF_0000;
      && b.lines.masked == a.lines.masked - {i} && Gets(b, t, 0) && b.halt == a.halt
      && if a.lines.queued[i] && 65000 in a.index && a.os.state[a.index[65000]] == WaitingMsg then
           var u := a.index[65000];
           && u != t && b.trap[u] == Trap(0, v, address(i), 16, Output) && OnlyThese(a, b, {t, u})
           && b.os.state == a.os.state[u := Ready] && b.os.port == a.os.port[u := WaitListen]
           && b.lines.queued == a.lines.queued[i := false] && b.lines.inflight == a.lines.inflight[i := true]
         else b.os == a.os && OnlyThese(a, b, {t}) && b.lines.queued == a.lines.queued && b.lines.inflight == a.lines.inflight[i := false]
  {
    hide Homes, Ports, Named, At, WakeOne, Handed;
    hide WaitsAs;
    ServerWaits(a, c);
    if 65000 in a.index {
      HandedMeans(a.os, a.index[65000]);
    }
  }

  /** Call, number 9.  For a live thread that does not listen the caller is pending, last in line with its
      message; a port that is ready without its thread receiving stops the kernel. */
  lemma SendLaw(a: Snap, b: Snap, c: nat, v: Word, msg: Word, size: Word)
    requires Calling(a, c) && Sane(a) && Sent(a, b, c, v, msg, size)
    ensures var t := Caller(a, c);
      if v !in a.index || a.os.state[a.index[v]] == Zombie then Gets(b, t, 75) && b == a.(trap := b.trap) && OnlyThese(a, b, {t})
      else
        var u := a.index[v];
        && (a.os.port[u] == WaitListen ==>
              && b.os.state == a.os.state[t := WaitingRead] && b.os.running == a.os.running[c := None] && b.trap == a.trap
              && At(b.os.rings, PendingRing(u)) == At(a.os.rings, PendingRing(u)) + [t]
              && b.message == a.message[t := Message(v, msg, size)])
        && (a.os.port[u] == PortReady && a.os.state[u] != WaitingMsg ==> b.halt == Some(SendNotWaiting))
  {
    hide Homes, Ports, Named, At, BlockOn, Rendezvous;
    if v in a.index {
      BlockOnMeans(a.os, c, PendingRing(a.index[v]));
    }
  }

  /** To a thread in a receive the message is handed over, under a vid that leads back to the caller, and
      the caller is last among those owed a reply. */
  lemma MeetLaw(a: Snap, b: Snap, c: nat, v: Word, msg: Word, size: Word)
    requires Calling(a, c) && Sane(a) && Sent(a, b, c, v, msg, size)
    requires v in a.index && a.os.port[a.index[v]] == PortReady && a.os.state[a.index[v]] == WaitingMsg
    ensures var t, u := Caller(a, c), a.index[v];
      && u != t && b.os.state == a.os.state[t := WaitingReply][u := Ready] && b.os.running == a.os.running[c := None]
      && b.trap == a.trap[u := Trap(0, a.vid[t], msg, size, Output)] && a.vid[t] in a.index && a.index[a.vid[t]] == t
      && b.os.port == a.os.port[u := WaitListen]
      && At(b.os.rings, ReplyRing(u)) == At(a.os.rings, ReplyRing(u)) + [t] && u !in At(b.os.rings, WaitRing)
  {
    hide Homes, Ports, Named, At, BlockOn, Rendezvous;
    RunningHome(a.os, c);
    RendezvousMeans(a.os, c, a.index[v]);
    OnceListed(a.os, WaitRing);
    RunnerNamed(a, c);
  }

  /** The vid of a thread that runs leads back to it. */
  lemma RunnerNamed(a: Snap, c: nat)
    requires Calling(a, c) && Sane(a)
    ensures a.vid[Caller(a, c)] in a.index && a.index[a.vid[Caller(a, c)]] == Caller(a, c)
  {
    hide Homes;
    RunningHome(a.os, c);
  }

  /** The receive that does not wait, number 10. */
  lemma PollLaw(a: Snap, b: Snap, c: nat)
    requires Calling(a, c) && Sane(a) && Polled(a, b, c)
    ensures var t, w := Caller(a, c), At(a.os.rings, PendingRing(Caller(a, c)));
      if w == [] then Gets(b, t, 6) && b == a.(trap := b.trap) && OnlyThese(a, b, {t})
      else
        var s := w[0];
        && Gets(b, t, 0) && b.trap[t].r1 in a.index && a.index[b.trap[t].r1] == s
        && b.trap[t].r2 == a.message[s].ptr && b.trap[t].r3 == a.message[s].size
        && b.os.state == a.os.state[s := WaitingReply] && b.os.running == a.os.running && OnlyThese(a, b, {t, s})
        && At(b.os.rings, PendingRing(t)) == w[1..] && At(b.os.rings, ReplyRing(t)) == At(a.os.rings, ReplyRing(t)) + [s]
  {
    hide Homes, Ports, Named, At, Accept;
    var t := Caller(a, c);
    NamedList(a.index, a.vid, a.os, PendingRing(t));
    if At(a.os.rings, PendingRing(t)) != [] {
      AcceptMeans(a.os, t);
    }
  }

  /** The call that does not wait, number 11.  It hands over the target's vid as the pointer and the pointer
      as the size. */
  lemma OfferLaw(a: Snap, b: Snap, c: nat, v: Word, msg: Word)
    requires Calling(a, c) && Sane(a) && Offered(a, b, c, v, msg)
    ensures var t := Caller(a, c);
      if v !in a.index then Gets(b, t, 75) && b == a.(trap := b.trap) && OnlyThese(a, b, {t})
      else
        var u := a.index[v];
        if a.os.port[u] == WaitListen then Gets(b, t, 6) && b == a.(trap := b.trap) && OnlyThese(a, b, {t})
        else if a.os.state[u] == WaitingMsg then
          && u != t && b.os.state == a.os.state[t := WaitingReply][u := Ready] && b.os.running == a.os.running[c := None]
          && b.trap == a.trap[u := Trap(0, a.vid[t], v, msg, Output)]
          && At(b.os.rings, ReplyRing(u)) == At(a.os.rings, ReplyRing(u)) + [t]
        else b.halt == Some(SendNotWaiting)
  {
    hide Homes, Ports, Named, At, Rendezvous;
    var t := Caller(a, c);
    RunningHome(a.os, c);
    if v in a.index && a.index[v] != t {
      RendezvousMeans(a.os, c, a.index[v]);
    }
  }

  /** The caller waits in queue `q`: it stands last there and, unless it waits for ever, on the timeout
      list, to expire `timeout` later; a timeout of 0 expires at once. */
  ghost predicate WaitsIn(a: Snap, b: Snap, c: nat, q: RingId, timeout: Word, now: int)
    requires Calling(a, c)
  {
    var t := Caller(a, c);
    if timeout == 0 then Gets(b, t, 78) && b.os == a.os && OnlyThese(a, b, {t})
    else
      && b.os.state == a.os.state[t := WaitingSync] && b.os.running == a.os.running[c := None] && b.trap == a.trap
      && At(b.os.rings, q) == At(a.os.rings, q) + [t]
      && if timeout < 0x8000_0000 then
           && b.expired == a.expired[t := now + timeout] && b.os.timeout == a.os.timeout[t := true]
           && At(b.os.rings, SyncSleepRing) == At(a.os.rings, SyncSleepRing) + [t]
         else
           b.expired == a.expired && b.os.timeout == a.os.timeout && At(b.os.rings, SyncSleepRing) == At(a.os.rings, SyncSleepRing)
  }

  lemma QueuedWaits(a: Snap, a': Snap, b: Snap, c: nat, q: RingId, timeout: Word, now: int)
    requires Calling(a, c) && Calling(a', c) && a'.os == a.os && a'.trap == a.trap && a'.expired == a.expired && IsQueue(q)
    requires b == Queued(a', c, q, timeout, now)
    ensures WaitsIn(a, b, c, q, timeout, now)
  {
    hide At, WaitOn;
    WaitOnMeans(a.os, c, q, timeout < 0x8000_0000);
  }

  /** Wait on a word, number 12.  The caller waits in the queue of the address if the word is as expected. */
  lemma FutexWaitLaw(a: Snap, b: Snap, c: nat, addr: Word, expected: Word, timeout: Word, actual: Word, now: int)
    requires Calling(a, c) && Sane(a) && FutexWaited(a, b, c, addr, expected, timeout, actual, now)
    ensures var t := Caller(a, c);
      if addr == 0 then Gets(b, t, 28) && b == a.(trap := b.trap) && OnlyThese(a, b, {t})
      else if actual != expected then Gets(b, t, 6) && b == a.(trap := b.trap) && OnlyThese(a, b, {t})
      else if Some(addr) !in a.keys && None !in a.keys then Gets(b, t, 49) && b == a.(trap := b.trap) && OnlyThese(a, b, {t})
      else exists i :: 0 <= i < |a.keys| && b.keys == a.keys[i := Some(addr)] && WaitsIn(a, b, c, FutexRing(i), timeout, now)
  {
    hide Homes, Ports, Named, At, WaitOn, WaitsIn;
    if addr != 0 && actual == expected && (Some(addr) in a.keys || None in a.keys) {
      var i := F.SlotOf(b.keys, addr);
      QueuedWaits(a, a.(keys := b.keys), b, c, FutexRing(i), timeout, now);
    }
  }

  lemma FutexWakes(a: Snap, b: Snap, c: nat, addr: Word, count: Word, i: nat, n: nat)
    requires Calling(a, c) && FutexWoke(a, b, c, addr, count) && F.Probing(a.keys) && i < |a.keys|
    requires addr != 0 && a.keys[i] == Some(addr) && |At(a.os.rings, FutexRing(i))| <= 32
    requires n == if count <= |At(a.os.rings, FutexRing(i))| then count else |At(a.os.rings, FutexRing(i))|
    ensures var w := At(a.os.rings, FutexRing(i))[..n];
      b.os == WakeAll(a.os, w) && b.trap == Answered(a.trap, w, Ret1(0))[Caller(a, c) := Ret1(n)]
  {
    hide WakeAll, Answered, At, F.Probing;
    F.OneSlot(a.keys, addr, i);
  }

  /** Wake, number 13.  The oldest waiters of the address, as many as asked for, are ready with 0 in that
      order, behind those that were ready, and the caller gets their number. */
  lemma FutexWakeLaw(a: Snap, b: Snap, c: nat, addr: Word, count: Word, i: nat)
    requires Calling(a, c) && Sane(a) && FutexWoke(a, b, c, addr, count)
    requires F.Probing(a.keys) && i < |a.keys| && addr != 0 && a.keys[i] == Some(addr)
    ensures var t, w := Caller(a, c), At(a.os.rings, FutexRing(i));
      var n := if count <= |w| then count else |w|;
      Gets(b, t, n) && Roused(a, b, t, w[..n], 0) && At(b.os.rings, FutexRing(i)) == w[n..]
  {
    hide Homes, Ports, Named, At, WakeAll, Answered, Roused;
    hide FutexWoken, F.Probing, Returned;
    var w := At(a.os.rings, FutexRing(i));
    var n := if count <= |w| then count else |w|;
    ListBound(a.os, FutexRing(i));
    FutexWakes(a, b, c, addr, count, i, n);
    QueueWoken(a, b, Caller(a, c), FutexRing(i), n, Ret1(0), Ret1(n));
  }

  /** Of two of the threads `ts` that have the same priority, the first is ready before the second. */
  ghost predicate InOrder(ts: seq<Pid>, priority: seq<Priority>, rings: Rings)
    requires |priority| == 32
  {
    forall x: Pid, y: Pid :: Before(ts, x, y) && priority[x] == priority[y] ==> Before(At(rings, ReadyRing(priority[x])), x, y)
  }

  /** Whoever was ready still stands where it stood. */
  ghost predicate StayReady(from: Rings, to: Rings) {
    forall p: Priority :: At(from, ReadyRing(p)) <= At(to, ReadyRing(p))
  }

  /** The threads `ts` are ready in that order, behind those that were, with `r0` in their first register;
      no other thread but perhaps `t` is touched. */
  ghost predicate Roused(a: Snap, b: Snap, t: Pid, ts: seq<Pid>, r0: Word)
    requires Whole(a)
  {
    && |b.os.state| == |b.trap| == 32 && b.os.running == a.os.running
    && (forall u: Pid :: b.os.state[u] == if u in ts then Ready else a.os.state[u])
    && (forall u: Pid :: u != t && u in ts ==> b.trap[u].phase == Output && b.trap[u].r0 == r0)
    && (forall u: Pid :: u != t && u !in ts ==> b.trap[u] == a.trap[u])
    && InOrder(ts, a.os.priority, b.os.rings) && StayReady(a.os.rings, b.os.rings)
  }

  lemma QueueWoken(a: Snap, b: Snap, t: Pid, q: RingId, n: nat, ret: Trap, own: Trap)
    requires Sane(a) && IsQueue(q) && n <= |At(a.os.rings, q)| && ret.phase == Output
    requires b.os == WakeAll(a.os, At(a.os.rings, q)[..n])
    requires b.trap == Answered(a.trap, At(a.os.rings, q)[..n], ret)[t := own]
    ensures Roused(a, b, t, At(a.os.rings, q)[..n], ret.r0) && At(b.os.rings, q) == At(a.os.rings, q)[n..]
  {
    hide Homes, Ports, Named, At, WakeAll, Answered, Before;
    var w := At(a.os.rings, q);
    QueueBlocked(a.os, q);
    QueueDrained(a.os, q, n);
    PrefixOnce(w, n);
    WakeAllMeans(a.os, w[..n]);
  }

  lemma PrefixOnce(w: seq<Pid>, n: nat)
    requires NoDup(w) && n <= |w|
    ensures NoDup(w[..n]) && forall u :: u in w[..n] ==> u in w
  {
  }

  /** The second and third register hold `ns` as a 64-bit number, the high word first. */
  ghost predicate TellsTime(r: Trap, ns: int) {
    r.r1 * 0x1_0000_0000 + r.r2 == ns % 0x1_0000_0000_0000_0000
  }

  /** An address that nobody ever waited on, and 0, have nobody to wake. */
  lemma FutexWakeNobodyLaw(a: Snap, b: Snap, c: nat, addr: Word, count: Word)
    requires Calling(a, c) && Sane(a) && FutexWoke(a, b, c, addr, count)
    requires addr == 0 || Some(addr) !in a.keys
    ensures Gets(b, Caller(a, c), 0) && b.os == a.os && OnlyThese(a, b, {Caller(a, c)})
  {
    hide Homes, Ports, Named, At, WakeAll, Answered;
    WakeAllNone(a.os);
    AnsweredNone(a.trap, Ret1(0));
  }

  /** A new timer, number 14: the lowest unused entry, under the next id. */
  lemma TimerCreateLaw(a: Snap, b: Snap, c: nat, i: nat)
    requires Calling(a, c) && Sane(a) && TimerMade(a, b, c)
    requires i < 32 && !a.timers[i].inUse && forall j :: 0 <= j < i ==> a.timers[j].inUse
    ensures Gets(b, Caller(a, c), 0) && b.trap[Caller(a, c)].r1 == a.nextTimer
    ensures b.nextTimer == if a.nextTimer == 0xFFFF_FFFF then 1 else a.nextTimer + 1
    ensures b.timers == a.timers[i := T.Timer(a.nextTimer, a.vid[Caller(a, c)], 0, 0, 0, 0, true, false)]
  {
    hide Homes, Ports, Named, At;
    hide Returned;
    TimerTaken(a, b, c, i);
  }

  lemma TimerTaken(a: Snap, b: Snap, c: nat, i: nat)
    requires Calling(a, c) && TimerMade(a, b, c) && i < 32 && !a.timers[i].inUse && forall j :: 0 <= j < i ==> a.timers[j].inUse
    ensures Gets(b, Caller(a, c), 0) && b.trap[Caller(a, c)].r1 == a.nextTimer
    ensures b.nextTimer == if a.nextTimer == 0xFFFF_FFFF then 1 else a.nextTimer + 1
    ensures b.timers == a.timers[i := T.Timer(a.nextTimer, a.vid[Caller(a, c)], 0, 0, 0, 0, true, false)]
  {
    var k :|
      && 0 <= k < 32 && !a.timers[k].inUse && (forall j :: 0 <= j < k ==> a.timers[j].inUse)
      && b == Returned(a, Caller(a, c), Ret2(0, a.nextTimer)).(
        timers := a.timers[k := T.Timer(a.nextTimer, a.vid[Caller(a, c)], 0, 0, 0, 0, true, false)],
        nextTimer := if a.nextTimer == 0xFFFF_FFFF then 1 else a.nextTimer + 1);
    assert k == i;
  }

  lemma TimerFullLaw(a: Snap, b: Snap, c: nat)
    requires Calling(a, c) && Sane(a) && TimerMade(a, b, c)
    requires forall j :: 0 <= j < 32 ==> a.timers[j].inUse
    ensures Gets(b, Caller(a, c), 49) && b == a.(trap := b.trap) && OnlyThese(a, b, {Caller(a, c)})
  {
    hide Homes, Ports, Named, At;
  }

  /** The calls on a timer, numbers 15 to 18, of an id that no timer has, or that the timer of another
      thread has. */
  lemma TimerDeniedLaw(a: Snap, b: Snap, c: nat, id: Word, duration: Word, flags: Word, timeout: Word, now: nat)
    requires Calling(a, c)
    requires
      || TimerDeleted(a, b, c, id) || (TimerArmed(a, b, c, id, duration, flags, now) && duration > 0)
      || TimerCancelled(a, b, c, id) || TimerWaited(a, b, c, id, timeout, now)
    requires forall i :: 0 <= i < 32 && a.timers[i].inUse && a.timers[i].id == id && (forall j :: 0 <= j < i && a.timers[j].inUse ==> a.timers[j].id != id) ==>
      a.timers[i].owner != a.vid[Caller(a, c)]
    ensures b == a.(trap := b.trap) && OnlyThese(a, b, {Caller(a, c)})
    ensures Gets(b, Caller(a, c), if exists i :: 0 <= i < 32 && a.timers[i].inUse && a.timers[i].id == id then 67 else 75)
  {
    hide WakeAll, Answered, WaitOn, At, T.FirstFrom;
  }

  /** Delete, number 15: the entry is unused and its waiters are told that it is gone. */
  lemma TimerDeleteLaw(a: Snap, b: Snap, c: nat, id: Word, i: nat)
    requires Calling(a, c) && Sane(a) && TimerDeleted(a, b, c, id)
    requires i < 32 && a.timers[i].inUse && a.timers[i].id == id && a.timers[i].owner == a.vid[Caller(a, c)]
    requires forall j :: 0 <= j < i && a.timers[j].inUse ==> a.timers[j].id != id
    ensures Gets(b, Caller(a, c), 0) && Roused(a, b, Caller(a, c), At(a.os.rings, TimerRing(i)), 11) && At(b.os.rings, TimerRing(i)) == []
    ensures b.timers == a.timers[i := T.Timer(id, 0, 0, 0, 0, 0, false, false)]
  {
    hide Homes, Ports, Named, At, WakeAll, Answered, Roused;
    Mine(a, id, a.vid[Caller(a, c)], i);
    var w := At(a.os.rings, TimerRing(i));
    assert w[..|w|] == w;
    QueueWoken(a, b, Caller(a, c), TimerRing(i), |w|, Ret1(ECANCELED), Ret1(0));
  }

  lemma Mine(a: Snap, id: Word, v: Word, i: nat)
    requires Whole(a) && i < 32 && a.timers[i].inUse && a.timers[i].id == id && a.timers[i].owner == v
    requires forall j :: 0 <= j < i && a.timers[j].inUse ==> a.timers[j].id != id
    ensures AccessTo(a.timers, id, v) == Owned(i)
  {
    hide T.FirstFrom;
  }

  /** Arm, number 16: due after the duration, and then, with the low bit of the flags set, once in every
      such duration. */
  lemma TimerArmLaw(a: Snap, b: Snap, c: nat, id: Word, duration: Word, flags: Word, now: nat, i: nat)
    requires Calling(a, c) && Sane(a) && TimerArmed(a, b, c, id, duration, flags, now)
    requires i < 32 && a.timers[i].inUse && a.timers[i].id == id && a.timers[i].owner == a.vid[Caller(a, c)]
    requires forall j :: 0 <= j < i && a.timers[j].inUse ==> a.timers[j].id != id
    ensures var t := Caller(a, c);
      if duration == 0 then Gets(b, t, 28) && b.timers == a.timers
      else Gets(b, t, 0) && b.timers == a.timers[i := a.timers[i].(
        deadline := now + duration, period := if flags % 2 == 1 then duration else 0, flags := flags, pending := 0, armed := true)]
    ensures b.os == a.os && OnlyThese(a, b, {Caller(a, c)})
  {
    hide Homes, Ports, Named, At;
    Mine(a, id, a.vid[Caller(a, c)], i);
  }

  /** Cancel, number 17. */
  lemma TimerCancelLaw(a: Snap, b: Snap, c: nat, id: Word, i: nat)
    requires Calling(a, c) && Sane(a) && TimerCancelled(a, b, c, id)
    requires i < 32 && a.timers[i].inUse && a.timers[i].id == id && a.timers[i].owner == a.vid[Caller(a, c)]
    requires forall j :: 0 <= j < i && a.timers[j].inUse ==> a.timers[j].id != id
    ensures Gets(b, Caller(a, c), 0) && b.timers == a.timers[i := a.timers[i].(armed := false)]
    ensures b.os == a.os && OnlyThese(a, b, {Caller(a, c)})
  {
    hide Homes, Ports, Named, At;
    Mine(a, id, a.vid[Caller(a, c)], i);
  }

  /** Wait for a timer, number 18: a firing that was kept is used up, else the caller waits in its queue. */
  lemma TimerWaitLaw(a: Snap, b: Snap, c: nat, id: Word, timeout: Word, now: int, i: nat)
    requires Calling(a, c) && Sane(a) && TimerWaited(a, b, c, id, timeout, now)
    requires i < 32 && a.timers[i].inUse && a.timers[i].id == id && a.timers[i].owner == a.vid[Caller(a, c)]
    requires forall j :: 0 <= j < i && a.timers[j].inUse ==> a.timers[j].id != id
    ensures if a.timers[i].pending > 0 then
        && Gets(b, Caller(a, c), 0) && b.os == a.os && OnlyThese(a, b, {Caller(a, c)})
        && b.timers == a.timers[i := a.timers[i].(pending := a.timers[i].pending - 1)]
      else WaitsIn(a, b, c, TimerRing(i), timeout, now) && b.timers == a.timers
  {
    hide Homes, Ports, Named, At, WaitOn, WaitsIn;
    Mine(a, id, a.vid[Caller(a, c)], i);
    if a.timers[i].pending == 0 {
      QueuedWaits(a, a, b, c, TimerRing(i), timeout, now);
    }
  }

  /** The clock, number 19: the time in nanoseconds as a 64-bit number, the high word first; clock 0 adds
      the offset. */
  lemma ClockLaw(a: Snap, b: Snap, c: nat, id: Word, now: int, offset: int)
    requires Calling(a, c) && Sane(a) && ClockRead(a, b, c, id, now, offset)
    ensures Gets(b, Caller(a, c), 0) && b.os == a.os && OnlyThese(a, b, {Caller(a, c)})
    ensures TellsTime(b.trap[Caller(a, c)], 1000 * if id == 0 then now + offset else now)
  {
    hide Homes, Ports, Named, At, TellsTime;
    ClockTells(b.trap[Caller(a, c)], 1000 * if id == 0 then now + offset else now);
  }

  lemma ClockTells(r: Trap, ns: int)
    requires r.r1 == (ns / 0x1_0000_0000) % 0x1_0000_0000 && r.r2 == ns % 0x1_0000_0000
    ensures TellsTime(r, ns)
  {
    ClockWords(ns);
  }

  /** Signal, number 20, of a number that is none or to a thread that is not there. */
  lemma SignalRefusedLaw(a: Snap, b: Snap, c: nat, v: Word, signum: Word)
    requires Calling(a, c) && Sane(a) && Signalled(a, b, c, v, signum)
    requires signum == 0 || signum > 32 || v !in a.index
    ensures Gets(b, Caller(a, c), if signum == 0 || signum > 32 then 28 else 75) && b == a.(trap := b.trap) && OnlyThese(a, b, {Caller(a, c)})
  {
    hide Homes, Ports, Named, At, WakeOne;
  }

  /** Thread `u` has signal `n` pending, and if it waited in a queue or a receive or slept it is ready and
      knows that it was interrupted. */
  ghost predicate HasSignal(a: Snap, b: Snap, u: Pid, n: Word)
    requires Whole(a) && 1 <= n <= 32
  {
    && b.signals == a.signals[u := a.signals[u] | (1 << (n - 1))] && b.os.running == a.os.running
    && if a.os.state[u] in {WaitingSync, WaitingMsg, Sleep} then b.os.state == a.os.state[u := Ready] && Gets(b, u, 27)
       else b.os == a.os
  }

  lemma SignalArrives(a: Snap, b: Snap, c: nat, u: Pid, n: Word)
    requires Calling(a, c) && Sane(a) && 1 <= n <= 32 && b == Returned(SignalSent(a, u, n), Caller(a, c), Ret1(0))
    ensures HasSignal(a, b, u, n) && Gets(b, Caller(a, c), 0) && OnlyThese(a, b, {Caller(a, c), u})
  {
    hide Homes, Ports, Named, At, WakeOne;
    RunningHome(a.os, c);
    if a.os.state[u] in {WaitingSync, WaitingMsg, Sleep} {
      StateTellsHome(a.os, u);
      WakeOneColumns(a.os, u);
    }
  }

  /** Otherwise the bit of the number is set among the pending signals of the target, which is interrupted. */
  lemma SignalLaw(a: Snap, b: Snap, c: nat, v: Word, signum: Word)
    requires Calling(a, c) && Sane(a) && Signalled(a, b, c, v, signum)
    requires 1 <= signum <= 32 && v in a.index
    ensures HasSignal(a, b, a.index[v], signum) && Gets(b, Caller(a, c), 0) && OnlyThese(a, b, {Caller(a, c), a.index[v]})
  {
    hide Homes, Ports, Named, At, WakeOne;
    hide HasSignal, SignalSent;
    SignalArrives(a, b, c, a.index[v], signum);
  }

  /** The pending signals, number 21, are handed out and cleared. */
  lemma TakeSignalsLaw(a: Snap, b: Snap, c: nat)
    requires Calling(a, c) && Sane(a) && SignalsTaken(a, b, c)
    ensures var t := Caller(a, c);
      && Gets(b, t, a.signals[t] as Word) && b.signals == a.signals[t := 0] && b.os == a.os && OnlyThese(a, b, {t})
  {
    hide Homes, Ports, Named, At;
  }

  // The scheduler.

  /** The next event is the earliest of the first sleep, the first timeout and the armed timers to end,
      and 0 stands for none. */
  lemma NextEventLaw(a: Snap)
    requires Whole(a)
    requires forall r :: r in {SleepRing, SyncSleepRing} && At(a.os.rings, r) != [] ==> a.expired[At(a.os.rings, r)[0]] > 0
    requires forall i :: 0 <= i < 32 && a.timers[i].armed ==> a.timers[i].deadline > 0
    ensures var d, s, y := NextEventTime(a), At(a.os.rings, SleepRing), At(a.os.rings, SyncSleepRing);
      && (d == 0 <==> s == [] && y == [] && forall i :: 0 <= i < 32 ==> !a.timers[i].armed)
      && (s != [] ==> d <= a.expired[s[0]]) && (y != [] ==> d <= a.expired[y[0]])
      && (forall i :: 0 <= i < 32 && a.timers[i].armed ==> d <= a.timers[i].deadline)
      && (d != 0 ==>
            || (s != [] && d == a.expired[s[0]]) || (y != [] && d == a.expired[y[0]])
            || exists i :: 0 <= i < 32 && a.timers[i].armed && d == a.timers[i].deadline)
  {
    hide At, T.Earliest;
  }

  /** The tick is set for the next event, or for 10000 from now if that is earlier and the thread that
      runs has a ready peer. */
  lemma ArmedLaw(a: Snap, c: nat, now: int, running: Option<Pid>)
    requires Whole(a) && c < |a.os.running|
    ensures var d, b := NextEventTime(a), Armed(a, c, now, running);
      && b == a.(nextTick := b.nextTick) && |b.nextTick| == |a.nextTick|
      && (forall i :: 0 <= i < |b.nextTick| && i != c ==> b.nextTick[i] == a.nextTick[i])
      && (running.None? || At(a.os.rings, ReadyRing(a.os.priority[running.value])) == [] ==> b.nextTick[c] == d)
      && (running.Some? && At(a.os.rings, ReadyRing(a.os.priority[running.value])) != [] ==>
            b.nextTick[c] == if d != 0 && d <= now + 10000 then d else now + 10000)
  {
    hide At, NextEventTime;
  }

  /** The oldest of the most urgent ready threads takes the core, with what its call returned in its
      registers; no other thread starts or stops running. */
  lemma PickLaw(a: Snap, b: Snap, c: nat, picked: Option<Pid>, now: int, address: nat -> Word)
    requires Sane(a) && c < |a.os.running| && PickedBy(a, b, c, picked, now, address)
    ensures picked.None? ==> b.os == a.os && b.trap == a.trap && forall p: Priority :: At(a.os.rings, ReadyRing(p)) == []
    ensures picked.Some? ==>
      && b.os.running == a.os.running[c := picked] && |b.os.state| == |b.trap| == 32 && b.os.state[picked.value] == Running
      && (a.trap[picked.value].phase == Output ==> b.trap[picked.value] == a.trap[picked.value].(phase := Done))
      && (a.trap[picked.value].phase != Output ==> b.trap[picked.value] == a.trap[picked.value])
      && exists p: Priority ::
           && At(a.os.rings, ReadyRing(p)) != [] && picked.value == At(a.os.rings, ReadyRing(p))[0]
           && forall q: Priority :: q < p ==> At(a.os.rings, ReadyRing(q)) == []
  {
    hide Homes, Ports, At, NextReady, Picked, Handed, NextEventTime, I.NextEvent, WaitsAs, SenderVid, Named;
    if picked.Some? {
      var t := picked.value;
      PickedMeans(a.os, c, t);
      ServerNot(a, c, t);
      var p := GivenOut(a.(os := Picked(a.os, c, t)), t);
      FlushLaw(Armed(p, c, now, picked), b, t, address);
    }
  }

  lemma ServerNot(a: Snap, c: nat, t: Pid)
    requires Sane(a) && c < |a.os.running|
    ensures WaitsAs(Picked(a.os, c, t), a.vid, 65000) && 65000 in a.index ==> a.index[65000] != t
  {
    hide Homes, Ports, At, Put, Without;
    if WaitsAs(Picked(a.os, c, t), a.vid, 65000) && 65000 in a.index {
      var u: Pid :| Picked(a.os, c, t).home[u] == InRing(WaitRing) && a.vid[u] == 65000;
      assert u != t && a.os.home[u] == InRing(WaitRing);
    }
  }

  /** Handing an event to the interrupt server touches nobody else, and no core. */
  lemma FlushLaw(a: Snap, b: Snap, t: Pid, address: nat -> Word)
    requires Whole(a) && Flushed(a, b, address) && a.os.state[t] == Running
    requires WaitsAs(a.os, a.vid, 65000) && 65000 in a.index ==> a.index[65000] != t
    ensures b.os.running == a.os.running && |b.os.state| == |b.trap| == 32 && b.os.state[t] == Running && b.trap[t] == a.trap[t]
  {
    hide At, Handed, I.NextEvent, SenderVid, WaitsAs;
    if WaitsAs(a.os, a.vid, IRQ_SERVER_VID) && IRQ_SERVER_VID in a.index {
      HandedMeans(a.os, a.index[IRQ_SERVER_VID]);
    }
  }

  /** The threads at the front of the sleep list whose time has come are ready with 0, and those at the
      front of the timeout list with 78; the others go on waiting.  Here no timer is due. */
  lemma TickLaw(a: Snap, b: Snap, now: int, u: Pid)
    requires Sane(a) && Ticked(a, b, now)
    requires forall i :: 0 <= i < 32 && a.timers[i].armed ==> a.timers[i].deadline > now
    ensures b.timers == a.timers && b.os.running == a.os.running && |b.os.state| == |b.trap| == 32
    ensures
      if u in DueIn(a, SleepRing, now) then b.os.state[u] == Ready && b.trap[u] == Trap(0, 0, 0, 0xFFFF_FFFF, Output)
      else if u in DueIn(a, SyncSleepRing, now) then b.os.state[u] == Ready && Gets(b, u, 78)
      else b.os.state[u] == a.os.state[u] && b.trap[u] == a.trap[u]
  {
    hide Homes, Ports, Named, At, WakeAll, Answered, TimersFired, DueIn, Due;
    var log, times, m :|
      && TimersFired(a, m, log, times, now) && Whole(m)
      && b == Awoken(Awoken(m, SleepRing, now, Ret3(0, 0, 0)), SyncSleepRing, now, Ret1(ETIMEDOUT));
    QuietTimers(a, m, log, times, now);
    AwokenBoth(a, b, now);
  }

  /** The threads at the front of list `r` that have all expired. */
  ghost function DueIn(a: Snap, r: RingId, now: int): (d: seq<Pid>)
    requires Whole(a)
    ensures d <= At(a.os.rings, r) && forall u :: u in d ==> a.expired[u] <= now
    ensures |d| < |At(a.os.rings, r)| ==> a.expired[At(a.os.rings, r)[|d|]] > now
  {
    Due(a, r, now)
  }

  lemma QuietTimers(a: Snap, m: Snap, log: seq<nat>, times: seq<int>, now: int)
    requires Whole(a) && TimersFired(a, m, log, times, now)
    requires forall i :: 0 <= i < 32 && a.timers[i].armed ==> a.timers[i].deadline > now
    ensures m == a
  {
    hide At, WakeAll, Answered, T.WokenBy, T.Count;
    if log != [] {
      FirstCounts(log);
      assert false;
    }
    WakeAllNone(a.os);
    AnsweredNone(a.trap, Ret1(0));
    T.WokenByNone(a.os.rings);
    assert forall i :: 0 <= i < 32 ==> m.timers[i] == a.timers[i];
    assert m.timers == a.timers;
  }

  lemma FirstCounts(log: seq<nat>)
    requires log != []
    ensures T.Count(log, log[0]) > 0
  {
    T.CountIs(log, log[0]);
    assert log[0] in multiset(log);
  }

  /** Waking sleepers leaves the timeout list alone. */
  lemma SleepersApart(k: Sched, n: nat)
    requires Shaped(k) && Homes(k) && Ports(k) && Settled(k) && n <= |At(k.rings, SleepRing)|
    ensures var k' := WakeAll(k, At(k.rings, SleepRing)[..n]);
      At(k'.rings, SyncSleepRing) == At(k.rings, SyncSleepRing) && Homes(k') && Ports(k') && Settled(k')
  {
    hide Homes, Ports, WakeAll, At, Dropping, Blocked;
    var ts := At(k.rings, SleepRing)[..n];
    QueueBlocked(k, SleepRing);
    PrefixOnce(At(k.rings, SleepRing), n);
    WakeAllKeeps(k, ts);
    TimedBlocked(k);
    forall t | t in At(k.rings, SyncSleepRing) ensures t !in ts {
      if t in ts {
        InRingAt(k, SleepRing, t);
        assert false;
      }
    }
    DropNone(At(k.rings, SyncSleepRing), ts);
  }

  lemma AwokenBoth(a: Snap, b: Snap, now: int)
    requires Sane(a) && b == Awoken(Awoken(a, SleepRing, now, Ret3(0, 0, 0)), SyncSleepRing, now, Ret1(ETIMEDOUT))
    ensures b.timers == a.timers && b.os.running == a.os.running && |b.os.state| == |b.trap| == 32
    ensures forall u: Pid ::
      if u in DueIn(a, SleepRing, now) then b.os.state[u] == Ready && b.trap[u] == Trap(0, 0, 0, 0xFFFF_FFFF, Output)
      else if u in DueIn(a, SyncSleepRing, now) then b.os.state[u] == Ready && Gets(b, u, 78)
      else b.os.state[u] == a.os.state[u] && b.trap[u] == a.trap[u]
  {
    hide Homes, Ports, Named, At, WakeAll, Answered, Blocked, DuePrefix;
    var m := Awoken(a, SleepRing, now, Ret3(0, 0, 0));
    var s, y := Due(a, SleepRing, now), Due(a, SyncSleepRing, now);
    SleepersApart(a.os, |s|);
    assert Due(m, SyncSleepRing, now) == y;
    QueueBlocked(a.os, SleepRing);
    PrefixOnce(At(a.os.rings, SleepRing), |s|);
    WakeAllMeans(a.os, s);
    TimedBlocked(m.os);
    PrefixOnce(At(m.os.rings, SyncSleepRing), |y|);
    WakeAllMeans(m.os, y);
    forall u: Pid | u in s ensures u !in y {
      SleeperUntimed(a.os, u);
    }
  }

  lemma SleeperUntimed(k: Sched, u: Pid)
    requires Homes(k) && Settled(k) && u in At(k.rings, SleepRing)
    ensures u !in At(k.rings, SyncSleepRing)
  {
    InRingAt(k, SleepRing, u);
  }

  // One exchange of messages.

  /** A call that finds its target receiving, and the target's later reply to the vid it was given: the
      receiver has the pointer and the size that were sent, and the caller those that were replied.  In
      between anything may happen, as long as the caller keeps waiting and its vid. */
  lemma ExchangeLaw(a: Snap, b: Snap, c: nat, t: Pid, u: Pid, v: Word, msg: Word, size: Word,
                    d: Snap, e: Snap, c': nat, msg': Word, size': Word, address: nat -> Word)
    requires Calling(a, c) && Sane(a) && Caller(a, c) == t && Sent(a, b, c, v, msg, size)
    requires v in a.index && a.index[v] == u && a.os.state[u] == WaitingMsg && a.os.port[u] == PortReady && |b.trap| == 32
    requires Calling(d, c') && Sane(d) && Caller(d, c') == u && Replied(d, e, c', b.trap[u].r1, msg', size', address)
    requires d.os.port[u] == WaitListen && t in At(d.os.rings, ReplyRing(u)) && d.vid[t] == a.vid[t]
    requires a.vid[t] < 0xFFFF_0000 || a.vid[t] >= 0xFFFF_0000 + 26
    ensures Gets(b, u, 0) && b.trap[u].r2 == msg && b.trap[u].r3 == size
    ensures |b.os.state| == 32 && b.os.state[t] == WaitingReply && b.os.state[u] == Ready
    ensures Gets(e, t, 0) && e.trap[t].r1 == msg' && e.trap[t].r2 == size'
    ensures |e.os.state| == 32 && e.os.state[t] == Ready && e.halt == d.halt
  {
    hide Homes, Ports, At, Named, Sent, Replied;
    MeetLaw(a, b, c, v, msg, size);
    NamedList(d.index, d.vid, d.os, ReplyRing(u));
    ReplyLaw(d, e, c', b.trap[u].r1, msg', size', address);
  }
}
