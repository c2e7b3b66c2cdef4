/** The system calls: registers, errors, the parts of the kernel state they touch, and what each of
    them does to that state. */
module Syscalls {
  import opened Lists
  import opened KernelState
  import V = VidIndex
  import F = FutexTable
  import T = TimerTable
  import I = IrqTable

  datatype Phase = Done | Pending | Serving | Output
  datatype Trap = Trap(r0: Word, r1: Word, r2: Word, r3: Word, phase: Phase)
  datatype Message = Message(target: Word, ptr: Word, size: Word)

  /** The reasons for which the kernel stops. */
  datatype HaltReason =
    | WrongList | NoVidItem | TerminateFailed            // panics shown never to happen
    | SendNotWaiting | ReplyPortReady | ReplyNotListed    // panics a thread can bring about
    | SignalOutOfTable | PriorityOutOfTable               // not panics: a table is overrun

  /** The only ways a call can stop the kernel, two of them only after a signal took a thread out of
      a receive. */
  ghost predicate MayStop(halt: Option<HaltReason>, interrupted: set<Pid>) {
    halt.Some? ==>
      && halt.value in {SendNotWaiting, ReplyPortReady, ReplyNotListed, SignalOutOfTable, PriorityOutOfTable}
      && (halt.value in {SendNotWaiting, ReplyPortReady} ==> interrupted != {})
  }

  /** What a call reads from outside the kernel: the time, the real-time offset, the user word its
      pointer argument leads to, and what an unset variable holds. */
  datatype Env = Env(now: nat, offset: int, word: Word, garbage: Word)

  /** What happens to the kernel: a thread makes a call, a core enters the kernel, or comes back from
      idling, or a device raises its line. */
  datatype Event =
    | Call(core: nat, r0: Word, r1: Word, r2: Word, r3: Word)
    | Switch(core: nat, env: Env)
    | Interrupt(line: nat)

  const TIME_SLICE := 10000

  /** The earlier of a deadline, 0 standing for none, and another one. */
  function Earlier(deadline: int, other: int): int {
    if deadline == 0 || other < deadline then other else deadline
  }

  /** The thread that is to run next: the oldest of the most urgent ready list from `p` on. */
  function NextReady(rings: Rings, p: nat): (r: Option<Pid>)
    requires p <= 8
    ensures r.Some? ==> exists q: Priority ::
      && p <= q && At(rings, ReadyRing(q)) != [] && r.value == At(rings, ReadyRing(q))[0]
      && forall q' :: p <= q' < q ==> At(rings, ReadyRing(q')) == []
    ensures r.None? ==> forall q :: p <= q < 8 ==> At(rings, ReadyRing(q)) == []
    decreases 8 - p
  {
    if p == 8 then None
    else if At(rings, ReadyRing(p)) != [] then Some(At(rings, ReadyRing(p))[0])
    else NextReady(rings, p + 1)
  }

  const UNDEF: Word := 0xFFFF_FFFF
  const EAGAIN: Word := 6
  const EBUSY: Word := 10
  const ECANCELED: Word := 11
  const EINTR: Word := 27
  const EINVAL: Word := 28
  const ENOMEM: Word := 49
  const ENOSYS: Word := 55
  const EPERM: Word := 67
  const ESRCH: Word := 75
  const ETIMEDOUT: Word := 78

  const IRQ_SERVER_VID: Word := 65000
  const AUTO: Word := 0xFFFF_FFFF

  function Ret1(r0: Word): Trap { Trap(r0, UNDEF, UNDEF, UNDEF, Output) }
  function Ret2(r0: Word, r1: Word): Trap { Trap(r0, r1, UNDEF, UNDEF, Output) }
  function Ret3(r0: Word, r1: Word, r2: Word): Trap { Trap(r0, r1, r2, UNDEF, Output) }
  function Ret4(r0: Word, r1: Word, r2: Word, r3: Word): Trap { Trap(r0, r1, r2, r3, Output) }

  function WithSignal(pending: bv32, signum: Word): bv32
    requires 1 <= signum <= 32
  {
    pending | (1 << (signum - 1))
  }

  function SignalBits(pending: bv32): Word {
    pending as Word
  }

  datatype Handler = Ignore | Kill | Stop | Continue | Alarm

  /** The signal handler table. */
  function HandlerOf(sig: Word): Handler
    requires sig <= 31
  {
    if sig in {0, 17, 21, 22, 23, 28, 29} then Ignore
    else if sig == 14 then Alarm
    else if sig == 18 then Continue
    else if sig == 19 || sig == 20 then Stop
    else Kill
  }

  /** The 64-bit signed duration passed in two registers. */
  function Duration(r1: Word, r2: Word): int {
    (if r1 < 0x8000_0000 then r1 else r1 - 0x1_0000_0000) * 0x1_0000_0000 + r2
  }

  /** A timeout register: negative as an int means for ever. */
  function WaitTime(r: Word): Option<nat> {
    if r >= 0x8000_0000 then None else Some(r)
  }

  /** What a sleeper cut short is told: the time that was left. */
  function AlarmReturn(expired: int, now: int): (r: Trap)
    ensures r.phase == Output
  {
    if now < expired
    then Ret3(EINTR, ((expired - now) / 0x1_0000_0000) % 0x1_0000_0000, (expired - now) % 0x1_0000_0000)
    else Ret3(EINTR, 0, 0)
  }

  /** No list is longer than the thread table. */
  lemma ListBound(k: Sched, r: RingId)
    requires Homes(k)
    ensures |At(k.rings, r)| <= 32
  {
    DistinctBound(At(k.rings, r));
  }

  lemma {:induction false} DistinctBound(s: seq<Pid>)
    requires NoDup(s)
    ensures |s| <= 32
  {
    var elems: set<nat> := set i | 0 <= i < |s| :: s[i] as nat;
    DistinctCard(s, elems);
    V.BelowCard(32, elems);
  }

  lemma {:induction false} DistinctCard(s: seq<Pid>, elems: set<nat>)
    requires NoDup(s) && elems == set i | 0 <= i < |s| :: s[i] as nat
    ensures |elems| == |s|
  {
    if s != [] {
      var n := |s| - 1;
      var rest: set<nat> := set i | 0 <= i < n :: s[..n][i] as nat;
      DistinctCard(s[..n], rest);
      assert elems == rest + {s[n] as nat};
    }
  }

  lemma {:induction false} ValuesCard(m: map<Word, Pid>)
    ensures |m.Values| <= |m|
    decreases |m|
  {
    if v :| v in m {
      var rest := m - {v};
      assert |rest| == |m| - 1;
      ValuesCard(rest);
      forall p | p in m.Values ensures p in rest.Values + {m[v]} {
        var w :| w in m && m[w] == p;
        assert w != v ==> w in rest && rest[w] == p;
      }
      assert m.Values == rest.Values + {m[v]};
    } else {
      assert m.Values == {};
    }
  }

  lemma {:induction false} BelowFull(n: nat, s: set<nat>)
    requires forall x: nat :: x in s <==> x < n
    ensures |s| == n
  {
    if n > 0 {
      BelowFull(n - 1, s - {n - 1});
    } else {
      assert s == {};
    }
  }

  lemma SplitCard(a: set<nat>, b: set<nat>)
    requires forall x: nat :: x in a <==> x < 32 && x !in b
    requires forall x :: x in b ==> x < 32
    ensures |a| + |b| == 32
  {
    assert a !! b;
    BelowFull(32, a + b);
  }

  /** The vids in use and the free list together account for every thread. */
  lemma FreeCount(k: Sched, index: map<Word, Pid>, vid: seq<Word>)
    requires Homes(k) && |vid| == 32 && Named(index, vid, k.home) && V.Injective(index)
    ensures |index| + |At(k.rings, FreeRing)| == 32
  {
    hide Homes, Named, At, NoDup;
    QueueBlocked(k, FreeRing);
    var free := At(k.rings, FreeRing);
    var elems: set<nat> := set i | 0 <= i < |free| :: free[i] as nat;
    DistinctCard(free, elems);
    var used: set<nat> := index.Values;
    forall x: nat ensures x in elems <==> x < 32 && x !in used {
      if x < 32 {
        FreeOrNamed(k, index, vid, x);
      }
    }
    SplitCard(elems, used);
    V.InjectiveSize(index, index.Values);
    ValuesCard(index);
  }

  lemma FreeOrNamed(k: Sched, index: map<Word, Pid>, vid: seq<Word>, t: Pid)
    requires Homes(k) && |vid| == 32 && Named(index, vid, k.home)
    ensures t in At(k.rings, FreeRing) <==> t !in index.Values
  {
    if k.home[t] == InRing(FreeRing) {
      BlockedAt(k, t);
    }
  }

  /** The trap frames after the threads `ts` have all been given the return value `ret`. */
  function Answered(trap: seq<Trap>, ts: seq<Pid>, ret: Trap): (r: seq<Trap>)
    requires |trap| == 32
    ensures |r| == 32 && forall u: Pid :: r[u] == if u in ts then ret else trap[u]
  {
    if ts == [] then trap else Answered(trap, ts[..|ts| - 1], ret)[ts[|ts| - 1] := ret]
  }

  lemma AnsweredNone(trap: seq<Trap>, ret: Trap)
    requires |trap| == 32
    ensures Answered(trap, [], ret) == trap
  {
  }

  lemma AnsweredSnoc(trap: seq<Trap>, ts: seq<Pid>, t: Pid, ret: Trap)
    requires |trap| == 32
    ensures Answered(trap, ts + [t], ret) == Answered(trap, ts, ret)[t := ret]
  {
    assert (ts + [t])[..|ts|] == ts;
  }

  lemma {:induction false} AnsweredBoth(trap: seq<Trap>, a: seq<Pid>, b: seq<Pid>, ret: Trap)
    requires |trap| == 32
    ensures Answered(Answered(trap, a, ret), b, ret) == Answered(trap, a + b, ret)
  {
    assert forall u: Pid :: u in a + b <==> u in a || u in b;
  }

  /** The trap frames after thread `t`, already off all lists in `k`, has exited with `code`. */
  ghost function ExitTraps(trap: seq<Trap>, k: Sched, t: Pid, code: Word): (r: seq<Trap>)
    requires Shaped(k) && |trap| == 32
    ensures |r| == 32
  {
    var woken := Answered(trap, PortWaiters(k, t), Ret1(EINTR));
    if k.joiner[t].Some? then woken[k.joiner[t].value := Ret2(0, code)] else woken
  }

  /** Who is told of an exit: the joiner gets the exit code, everyone waiting on the port of the
      thread is interrupted, and nobody else notices. */
  lemma ExitTrapsMean(trap: seq<Trap>, k: Sched, t: Pid, code: Word, u: Pid)
    requires |trap| == 32 && Shaped(k) && Homes(k) && Ports(k) && Settled(k) && Detachable(k, t)
    ensures ExitTraps(trap, Detach(k, t), t, code)[u] ==
      if k.joiner[t] == Some(u) && u != t then Ret2(0, code)
      else if u in PortWaiters(k, t) && u != t then Ret1(EINTR)
      else trap[u]
  {
    hide Homes, Ports, Detach, PortWaiters;
    DetachPort(k, t);
  }

  /** The oldest `count` of the threads that wait on an address. */
  ghost function FutexWoken(k: Sched, keys: F.Keys, addr: Word, count: Word): seq<Pid> {
    if addr == 0 || Some(addr) !in keys then []
    else var w := At(k.rings, FutexRing(F.SlotOf(keys, addr))); w[..if count <= |w| then count else |w|]
  }

  datatype Access = Denied(code: Word) | Owned(index: nat)

  /** Which timer an id names for the thread with vid `v`. */
  function AccessTo(ts: seq<T.Timer>, id: Word, v: Word): (a: Access)
    requires |ts| == T.TIMERS
    ensures a.Owned? ==> a.index < T.TIMERS && ts[a.index].inUse && ts[a.index].id == id && ts[a.index].owner == v
  {
    match T.FirstFrom(ts, id, 0)
    case None => Denied(ESRCH)
    case Some(i) => if ts[i].owner != v then Denied(EPERM) else Owned(i)
  }

  /** The sender id under which the events of a line reach the server. */
  function SenderVid(i: nat): (v: Word)
    requires i < I.IRQS
    ensures LineOf(v) == Some(i)
  {
    0xFFFF_0000 + i
  }

  /** The line that a reply addresses, if it addresses one. */
  function LineOf(v: Word): Option<nat> {
    if v >= 0xFFFF_0000 && v - 0xFFFF_0000 < I.IRQS then Some(v - 0xFFFF_0000) else None
  }

  /** What handing over an interrupt event touches. */
  datatype IrqView = IrqView(os: Sched, trap: seq<Trap>, lines: I.Lines)

  /** The queued event of line `i`, at `address`, is handed to thread `t` blocked in a receive. */
  ghost function GiveEvent(v: IrqView, t: Pid, i: nat, address: Word): IrqView
    requires Shaped(v.os) && |v.trap| == 32 && I.Full(v.lines) && i < I.IRQS
  {
    IrqView(Handed(v.os, t), v.trap[t := Ret4(0, SenderVid(i), address, 16)], I.Taken(v.lines, i))
  }

  lemma ReadyHead(k: Sched)
    requires Homes(k)
    ensures var r := NextReady(k.rings, 0); r.Some? ==> k.home[r.value] == InRing(ReadyRing(k.priority[r.value]))
  {
    hide Homes;
    var r := NextReady(k.rings, 0);
    if r.Some? {
      var q: Priority :| At(k.rings, ReadyRing(q)) != [] && r.value == At(k.rings, ReadyRing(q))[0];
      InRingAt(k, ReadyRing(q), r.value);
    }
  }

  /** The thread waiting as IRQ server is the one indexed, and once handed a message it waits no more. */
  lemma OnlyServer(index: map<Word, Pid>, vid: seq<Word>, k: Sched, v: Word)
    requires Shaped(k) && |vid| == 32 && Named(index, vid, k.home)
    ensures WaitsAs(k, vid, v) <==> v in index && k.home[index[v]] == InRing(WaitRing)
  {
  }

  /** The vid index names exactly the threads that are not free. */
  ghost predicate Named(index: map<Word, Pid>, vid: seq<Word>, home: seq<Home>)
    requires |vid| == |home| == 32
  {
    && (forall v :: v in index ==> vid[index[v]] == v && home[index[v]] != InRing(FreeRing))
    && (forall t: Pid :: home[t] != InRing(FreeRing) ==> vid[t] in index && index[vid[t]] == t)
  }

  /** Threads only wait on timers and futex slots that are in use. */
  ghost predicate Served(rings: Rings, timers: seq<T.Timer>, keys: F.Keys)
    requires |timers| == T.TIMERS && |keys| == F.SLOTS
  {
    forall r :: At(rings, r) != [] ==>
      && (r.TimerRing? ==> r.index < T.TIMERS && timers[r.index].inUse)
      && (r.FutexRing? ==> r.slot < F.SLOTS && keys[r.slot].Some?)
  }

  function All<X>(n: nat, x: X): (column: seq<X>)
    ensures |column| == n && forall i :: 0 <= i < n ==> column[i] == x
  {
    seq(n, _ => x)
  }

  /** The state noza_init builds: all threads free, so no vid, no waiter and no IRQ server. */
  lemma Booted(cores: nat, vid: seq<Word>, timers: seq<T.Timer>, keys: F.Keys)
    requires |vid| == 32 && |timers| == T.TIMERS && |keys| == F.SLOTS
    ensures var k := Boot(cores);
      && Shaped(k) && Homes(k) && Ports(k) && Settled(k) && Receivers(k, {})
      && (forall t: Pid :: k.home[t] == InRing(FreeRing)) && |k.running| == cores
      && Named(map[], vid, k.home) && Served(k.rings, timers, keys) && !WaitsAs(k, vid, IRQ_SERVER_VID)
  {
    hide Boot, Ports, Receivers, At;
    BootKeeps(cores);
  }

  lemma NamedMove(index: map<Word, Pid>, vid: seq<Word>, home: seq<Home>, t: Pid, h: Home)
    requires |vid| == |home| == 32 && Named(index, vid, home)
    requires home[t] != InRing(FreeRing) && h != InRing(FreeRing)
    ensures Named(index, vid, home[t := h])
  {
  }

  lemma NamedFree(index: map<Word, Pid>, vid: seq<Word>, home: seq<Home>, t: Pid)
    requires |vid| == |home| == 32 && Named(index, vid, home) && home[t] != InRing(FreeRing)
    ensures vid[t] in index && index[vid[t]] == t && t in index.Values
    ensures Named(index - {vid[t]}, vid[t := 0], home[t := InRing(FreeRing)])
  {
  }

  lemma FreeUnbound(index: map<Word, Pid>, vid: seq<Word>, home: seq<Home>, t: Pid)
    requires |vid| == |home| == 32 && Named(index, vid, home) && home[t] == InRing(FreeRing)
    ensures t !in index.Values
  {
  }

  lemma NamedAlloc(index: map<Word, Pid>, vid: seq<Word>, home: seq<Home>, t: Pid, v: Word, h: Home)
    requires |vid| == |home| == 32 && Named(index, vid, home)
    requires home[t] == InRing(FreeRing) && h != InRing(FreeRing) && v !in index
    ensures Named(index[v := t], vid[t := v], home[t := h])
  {
  }

  lemma NamedRename(index: map<Word, Pid>, vid: seq<Word>, home: seq<Home>, t: Pid, w: Word)
    requires |vid| == |home| == 32 && Named(index, vid, home) && home[t] != InRing(FreeRing) && w !in index
    ensures vid[t] in index && index[vid[t]] == t && t in index.Values && t !in (index - {vid[t]}).Values
    ensures Named((index - {vid[t]})[w := t], vid[t := w], home)
  {
  }

  /** A list of live threads: their vids are indexed back to them. */
  lemma NamedList(index: map<Word, Pid>, vid: seq<Word>, k: Sched, r: RingId)
    requires |vid| == 32 && Homes(k) && Named(index, vid, k.home) && !r.FreeRing? && !r.SyncSleepRing?
    ensures forall u :: u in At(k.rings, r) ==> vid[u] in index && index[vid[u]] == u
    ensures forall v :: v in index ==> vid[index[v]] == v
  {
  }

  lemma ServedLess(rings: Rings, r: RingId, s: seq<Pid>, timers: seq<T.Timer>, keys: F.Keys)
    requires |timers| == T.TIMERS && |keys| == F.SLOTS && Served(rings, timers, keys)
    requires !IsQueue(r) || At(rings, r) != []
    ensures Served(Put(rings, r, s), timers, keys)
  {
  }

  method OnList(s: seq<Pid>, t: Pid) returns (found: bool)
    ensures found <==> t in s
  {
    for i := 0 to |s|
      invariant t !in s[..i]
    {
      if s[i] == t {
        return true;
      }
    }
    return false;
  }

  /** The kernel state as the system calls see it. */
  datatype Snap = Snap(os: Sched, trap: seq<Trap>, message: seq<Message>, vid: seq<Word>, index: map<Word, Pid>, vid0: bool,
                       detached: seq<bool>, expired: seq<int>, exitCode: seq<Word>, signals: seq<bv32>,
                       keys: F.Keys, timers: seq<T.Timer>, nextTimer: Word,
                       lines: I.Lines, nextTick: seq<int>,
                       halt: Option<HaltReason>, ghost interrupted: set<Pid>)

  /** The columns have their lengths. */
  ghost predicate Whole(a: Snap) {
    && Shaped(a.os)
    && |a.trap| == |a.message| == |a.vid| == |a.detached| == |a.expired| == |a.exitCode| == |a.signals| == 32
    && |a.keys| == F.SLOTS && |a.timers| == T.TIMERS
    && I.Full(a.lines) && |a.nextTick| == |a.os.running|
  }

  ghost predicate Calling(a: Snap, c: nat) {
    Whole(a) && c < |a.os.running| && a.os.running[c].Some?
  }

  ghost function Caller(a: Snap, c: nat): Pid
    requires Calling(a, c)
  {
    a.os.running[c].value
  }

  /** Nothing happens but that thread `t` is given the return value `ret`. */
  ghost function Returned(a: Snap, t: Pid, ret: Trap): Snap
    requires |a.trap| == 32
  {
    a.(trap := a.trap[t := ret])
  }

  ghost predicate Slept(a: Snap, b: Snap, c: nat, r1: Word, r2: Word, now: int)
    requires Calling(a, c)
  {
    var t, d := Caller(a, c), Duration(r1, r2);
    b == if d <= 0
         then Returned(a, t, Ret3(0, 0, 0)).(os := BlockOn(a.os, c, ReadyRing(a.os.priority[t])))
         else a.(os := SleepOn(a.os, c, a.expired[t := now + d]), expired := a.expired[t := now + d])
  }

  /** Thread `u` exits with `code`; unless it stays behind as a zombie it loses its vid. */
  ghost function AfterExit(a: Snap, c: nat, u: Pid, code: Word): (b: Snap)
    requires Whole(a) && c < |a.os.running| && Detachable(a.os, u)
    ensures |b.trap| == 32
  {
    var os := Ended(a.os, c, u, a.detached[u]);
    var freed := os.home[u] == InRing(FreeRing);
    a.(os := os, trap := ExitTraps(a.trap, Detach(a.os, u), u, code),
       exitCode := a.exitCode[u := code], expired := a.expired[u := 0],
       vid := if freed then a.vid[u := 0] else a.vid, index := if freed then a.index - {a.vid[u]} else a.index)
  }

  lemma ExitDone(a: Snap, b: Snap, c: nat, u: Pid, code: Word)
    requires Whole(a) && c < |a.os.running| && Detachable(a.os, u)
    requires b.os == Ended(a.os, c, u, a.detached[u]) && b.trap == ExitTraps(a.trap, Detach(a.os, u), u, code)
    requires b.exitCode == a.exitCode[u := code] && b.expired == a.expired[u := 0]
    requires if b.os.home[u] == InRing(FreeRing)
      then b.vid == a.vid[u := 0] && b.index == a.index - {a.vid[u]}
      else b.vid == a.vid && b.index == a.index
    requires b == a.(os := b.os, trap := b.trap, exitCode := b.exitCode, expired := b.expired, vid := b.vid, index := b.index)
    ensures b == AfterExit(a, c, u, code)
  {
  }

  ghost predicate Exited(a: Snap, b: Snap, c: nat, code: Word)
    requires Calling(a, c)
  {
    Detachable(a.os, Caller(a, c)) && b == AfterExit(a, c, Caller(a, c), code)
  }

  /** The kill handler: a caller that ends itself is not told so. */
  ghost predicate KilledBy(a: Snap, b: Snap, c: nat, u: Pid, code: Word)
    requires Calling(a, c)
  {
    var t := Caller(a, c);
    if a.os.state[u] == Zombie then b == Returned(a, t, Ret1(ESRCH))
    else if a.os.state[u] == Running && u != t then b == Returned(a, t, Ret1(EBUSY))
    else
      && Detachable(a.os, u)
      && b == var e := AfterExit(a, c, u, code); if u == t then e else Returned(e, t, Ret1(0))
  }

  /** The stop handler: a ready thread or the caller itself stops, no other. */
  ghost predicate StoppedBy(a: Snap, b: Snap, c: nat, u: Pid)
    requires Calling(a, c)
  {
    var t := Caller(a, c);
    match a.os.state[u]
    case Ready => b == Returned(a, t, Ret1(0)).(os := Move(a.os, ReadyRing(a.os.priority[u]), StoppedRing, u))
    case Running => b == if u == t then a.(os := BlockOn(a.os, c, StoppedRing)) else Returned(a, t, Ret1(EBUSY))
    case _ => b == Returned(a, t, Ret1(0))
  }

  ghost predicate ContinuedBy(a: Snap, b: Snap, c: nat, u: Pid)
    requires Calling(a, c)
  {
    b == Returned(a, Caller(a, c), Ret1(0)).(os := if a.os.state[u] == Stopped then WakeOne(a.os, u) else a.os)
  }

  /** A queue waiter, a receiver or a sleeper is woken and told so; nobody else is. */
  ghost function Interrupted(a: Snap, u: Pid): (b: Snap)
    requires Whole(a)
    ensures |b.trap| == 32
  {
    if a.os.state[u] in {WaitingSync, WaitingMsg, Sleep} then
      Returned(a, u, Ret1(EINTR)).(
        os := WakeOne(a.os, u), interrupted := if a.os.state[u] == WaitingMsg then a.interrupted + {u} else a.interrupted)
    else a
  }

  ghost function SignalSent(a: Snap, u: Pid, signum: Word): (b: Snap)
    requires Whole(a) && 1 <= signum <= 32
    ensures |b.trap| == 32
  {
    Interrupted(a.(signals := a.signals[u := WithSignal(a.signals[u], signum)]), u)
  }

  /** A sleep is cut short: the sleeper learns the time that was left. */
  ghost function SleepCut(a: Snap, u: Pid, now: int): (b: Snap)
    requires Whole(a)
    ensures |b.trap| == 32
  {
    Returned(a, u, AlarmReturn(a.expired[u], now)).(os := WakeOne(a.os, u), expired := a.expired[u := 0])
  }

  /** What an alarm does to its target: a sleeper learns the time left, a receiver and a queue waiter
      are interrupted, IPC partners are left alone and all others find the signal pending. */
  ghost function Alarmed(a: Snap, u: Pid, signum: Word, now: int): (b: Snap)
    requires Whole(a) && 1 <= signum <= 32
    ensures |b.trap| == 32
  {
    match a.os.state[u]
    case Sleep => SleepCut(a, u, now)
    case WaitingMsg => Interrupted(a, u)
    case WaitingSync => Interrupted(a, u)
    case WaitingRead => a
    case WaitingReply => a
    case _ => SignalSent(a, u, signum)
  }

  ghost predicate AlarmedBy(a: Snap, b: Snap, c: nat, u: Pid, signum: Word, now: int)
    requires Calling(a, c) && 1 <= signum <= 32
  {
    b == Returned(Alarmed(a, u, signum, now), Caller(a, c), Ret1(0))
  }

  ghost predicate Killed(a: Snap, b: Snap, c: nat, v: Word, sig: Word, now: int)
    requires Calling(a, c)
  {
    if v !in a.index then b == Returned(a, Caller(a, c), Ret1(ESRCH))
    else if sig >= 0x8000_0000 then b == a.(halt := Some(SignalOutOfTable))
    else if sig > 31 then b == Returned(a, Caller(a, c), Ret1(EINVAL))
    else
      match HandlerOf(sig)
      case Ignore => b == Returned(a, Caller(a, c), Ret1(0))
      case Kill => KilledBy(a, b, c, a.index[v], 128 + sig)
      case Stop => StoppedBy(a, b, c, a.index[v])
      case Continue => ContinuedBy(a, b, c, a.index[v])
      case Alarm => AlarmedBy(a, b, c, a.index[v], sig, now)
  }

  lemma KilledByRuns(a: Snap, b: Snap, c: nat, u: Pid, code: Word)
    requires Calling(a, c) && Homes(a.os) && Ports(a.os) && Settled(a.os) && KilledBy(a, b, c, u, code)
    ensures OthersRun(a.os, b.os, c) && b.halt == a.halt && b.interrupted == a.interrupted
  {
    hide Homes, Ports, Ended, Detachable, Detach, ExitTraps, OthersRun;
    SameRuns(a.os, c);
    DetachKeeps(a.os, u);
    StateTellsHome(a.os, u);
    RunningHome(a.os, c);
    if a.os.state[u] != Running || u == Caller(a, c) {
      EndedRuns(a.os, c, u, a.detached[u]);
    }
  }

  lemma StoppedByRuns(a: Snap, b: Snap, c: nat, u: Pid)
    requires Calling(a, c) && StoppedBy(a, b, c, u)
    ensures OthersRun(a.os, b.os, c) && b.halt == a.halt && b.interrupted == a.interrupted
  {
    hide BlockOn, Move, WakeOne, WakeAll, WaitOn, JoinOn, SleepOn, Listen, Rendezvous, Created, Reprioritise, SetPort, Handed, Accept, OthersRun;
    SameRuns(a.os, c);
    QuietRuns(a.os, c, ReadyRing(a.os.priority[u]), StoppedRing, u, 0);
    BlockingRuns(a.os, c, StoppedRing, u, false, a.expired);
  }

  lemma ContinuedByRuns(a: Snap, b: Snap, c: nat, u: Pid)
    requires Calling(a, c) && ContinuedBy(a, b, c, u)
    ensures OthersRun(a.os, b.os, c) && b.halt == a.halt && b.interrupted == a.interrupted
  {
    hide BlockOn, Move, WakeOne, WakeAll, WaitOn, JoinOn, SleepOn, Listen, Rendezvous, Created, Reprioritise, SetPort, Handed, Accept, OthersRun;
    SameRuns(a.os, c);
    QuietRuns(a.os, c, FreeRing, FreeRing, u, 0);
  }

  lemma AlarmedByRuns(a: Snap, b: Snap, c: nat, u: Pid, signum: Word, now: int)
    requires Calling(a, c) && 1 <= signum <= 32 && AlarmedBy(a, b, c, u, signum, now)
    ensures OthersRun(a.os, b.os, c) && b.halt == a.halt
    ensures b.interrupted != a.interrupted ==> a.os.state[u] == WaitingMsg
  {
    hide BlockOn, Move, WakeOne, WakeAll, WaitOn, JoinOn, SleepOn, Listen, Rendezvous, Created, Reprioritise, SetPort, Handed, Accept, OthersRun, WithSignal, AlarmReturn;
    SameRuns(a.os, c);
    QuietRuns(a.os, c, FreeRing, FreeRing, u, 0);
  }

  /** No signal disturbs what another core runs, and only an alarm takes a thread out of a receive. */
  lemma KilledRuns(a: Snap, b: Snap, c: nat, v: Word, sig: Word, now: int)
    requires Calling(a, c) && a.halt.None? && Homes(a.os) && Ports(a.os) && Settled(a.os) && Killed(a, b, c, v, sig, now)
    ensures b.halt.None? ==> OthersRun(a.os, b.os, c)
    ensures b.halt.Some? ==> b.halt.value == SignalOutOfTable
    ensures b.interrupted != a.interrupted ==> sig == 14 && v in a.index && a.os.state[a.index[v]] == WaitingMsg
  {
    hide Homes, Ports, Settled, OthersRun, KilledBy, StoppedBy, ContinuedBy, AlarmedBy;
    SameRuns(a.os, c);
    if v in a.index && sig <= 31 {
      var u := a.index[v];
      match HandlerOf(sig)
      case Ignore =>
      case Kill => KilledByRuns(a, b, c, u, 128 + sig);
      case Stop => StoppedByRuns(a, b, c, u);
      case Continue => ContinuedByRuns(a, b, c, u);
      case Alarm => AlarmedByRuns(a, b, c, u, sig, now);
    }
  }

  /** The oldest free thread becomes ready under an unused vid: the reserved one if that is free,
      else one of those given out in turn. */
  ghost predicate Made(a: Snap, b: Snap, c: nat, reserved: Word, priority: Word, garbage: Word)
    requires Calling(a, c)
  {
    var s := Caller(a, c);
    if priority >= 8 then b == Returned(a, s, Ret2(EINVAL, garbage))
    else if At(a.os.rings, FreeRing) == [] then b == Returned(a, s, Ret2(EAGAIN, garbage))
    else
      var t := At(a.os.rings, FreeRing)[0];
      && |b.vid| == 32
      && var v := b.vid[t];
      && v !in a.index
      && (if reserved == 0 && !a.vid0 then v == 0
          else if reserved != 0 && reserved != AUTO && reserved !in a.index then v == reserved
          else 1 <= v < V.AUTO_LIMIT)
      && b == a.(os := Created(a.os, t, priority), vid := a.vid[t := v], index := a.index[v := t], vid0 := a.vid0 || reserved == 0,
                 detached := a.detached[t := false], signals := a.signals[t := 0],
                 trap := a.trap[t := a.trap[t].(phase := Done)][s := Ret2(0, v)])
  }

  /** The priority field keeps the low eight bits of what it is given. */
  ghost predicate PrioritySet(a: Snap, b: Snap, c: nat, v: Word, p: Word)
    requires Calling(a, c)
  {
    if v !in a.index || a.os.state[a.index[v]] == Zombie then b == Returned(a, Caller(a, c), Ret1(ESRCH))
    else if p % 256 >= 8 then b == a.(halt := Some(PriorityOutOfTable))
    else b == Returned(a, Caller(a, c), Ret1(0)).(os := Reprioritise(a.os, a.index[v], p % 256))
  }

  /** A zombie gives up its exit code and its vid, a live thread gets the caller as its joiner. */
  ghost predicate Joined(a: Snap, b: Snap, c: nat, v: Word)
    requires Calling(a, c)
  {
    var t := Caller(a, c);
    if v !in a.index then b == Returned(a, t, Ret1(ESRCH))
    else
      var u := a.index[v];
      if a.detached[u] then b == Returned(a, t, Ret1(EINVAL))
      else if a.os.state[u] == Zombie then
        b == Returned(a, t, Ret2(0, a.exitCode[u])).(
          os := Move(a.os, ZombieRing, FreeRing, u), vid := a.vid[u := 0], index := a.index - {v})
      else if a.os.joiner[u].None? then b == a.(os := JoinOn(a.os, c, u))
      else b == Returned(a, t, Ret1(EINVAL))
  }

  ghost predicate MadeDetached(a: Snap, b: Snap, c: nat, v: Word)
    requires Calling(a, c)
  {
    var t := Caller(a, c);
    if v !in a.index then b == Returned(a, t, Ret1(ESRCH))
    else
      var u := a.index[v];
      if a.os.state[u] == Zombie then
        b == Returned(a, t, Ret1(EINVAL)).(
          os := Move(a.os, ZombieRing, FreeRing, u), vid := a.vid[u := 0], index := a.index - {v})
      else b == Returned(a, t, Ret1(0)).(detached := a.detached[u := true])
  }

  /** The queued event of line `i` answers the receive of thread `t`. */
  ghost function EventTaken(a: Snap, t: Pid, i: nat, address: nat -> Word): Snap
    requires Whole(a) && i < I.IRQS
  {
    Returned(a, t, Ret4(0, SenderVid(i), address(i), 16)).(os := SetPort(a.os, t, WaitListen), lines := I.Taken(a.lines, i))
  }

  /** The IRQ server gets the lowest deliverable event; failing that, and for all other threads, the
      oldest pending sender is accepted or the caller waits. */
  ghost predicate Received(a: Snap, b: Snap, c: nat, address: nat -> Word)
    requires Calling(a, c)
  {
    var t, d := Caller(a, c), I.NextEvent(a.lines.queued, a.lines.inflight, 0);
    if a.vid[t] == IRQ_SERVER_VID && d.Some? then
      b == EventTaken(a, t, d.value, address)
    else PortReceived(a, b, c)
  }

  /** The oldest pending sender is accepted, or the caller waits with its port ready. */
  ghost predicate PortReceived(a: Snap, b: Snap, c: nat)
    requires Calling(a, c)
  {
    if At(a.os.rings, PendingRing(Caller(a, c))) != [] then AcceptedFirst(a, b, Caller(a, c))
    else b == a.(os := Listen(a.os, c))
  }

  ghost predicate AcceptedFirst(a: Snap, b: Snap, t: Pid)
    requires Shaped(a.os) && |a.trap| == |a.message| == |a.vid| == 32 && At(a.os.rings, PendingRing(t)) != []
  {
    var source := At(a.os.rings, PendingRing(t))[0];
    b == Returned(a, t, Ret4(0, a.vid[source], a.message[source].ptr, a.message[source].size)).(os := Accept(a.os, t))
  }

  ghost predicate Polled(a: Snap, b: Snap, c: nat)
    requires Calling(a, c)
  {
    var t := Caller(a, c);
    if At(a.os.rings, PendingRing(t)) != [] then AcceptedFirst(a, b, t) else b == Returned(a, t, Ret1(EAGAIN))
  }

  /** The queued event of line `i` is handed to thread `u`, blocked in a receive. */
  ghost function Given(a: Snap, u: Pid, i: nat, address: nat -> Word): (b: Snap)
    requires Whole(a) && i < I.IRQS
    ensures Whole(b)
  {
    Returned(a, u, Ret4(0, SenderVid(i), address(i), 16)).(
      os := Handed(a.os, u), lines := I.Taken(a.lines, i))
  }

  /** A panic leaves the lists and frames of the caller and its partner as they happen to be. */
  ghost predicate Panicked(a: Snap, b: Snap, reason: HaltReason) {
    b == a.(os := b.os, trap := b.trap, message := b.message, halt := Some(reason))
  }

  /** The line is unmasked and its flight ends; an event queued meanwhile goes to a waiting server. */
  ghost predicate Acknowledged(a: Snap, b: Snap, c: nat, i: nat, address: nat -> Word)
    requires Calling(a, c) && i < I.IRQS
  {
    var w := Returned(a, Caller(a, c), Ret1(0)).(lines := I.Acked(a.lines, i));
    if a.lines.queued[i] && WaitsAs(a.os, a.vid, IRQ_SERVER_VID) then
      IRQ_SERVER_VID in a.index && b == Given(w, a.index[IRQ_SERVER_VID], i, address)
    else b == w
  }

  ghost predicate Replied(a: Snap, b: Snap, c: nat, v: Word, msg: Word, size: Word, address: nat -> Word)
    requires Calling(a, c)
  {
    var t := Caller(a, c);
    if LineOf(v).Some? then Acknowledged(a, b, c, LineOf(v).value, address)
    else if a.os.port[t].PortReady? then Panicked(a, b, ReplyPortReady)
    else if v in a.index && a.index[v] in At(a.os.rings, ReplyRing(t)) then
      b == Returned(Returned(a, a.index[v], Ret3(0, msg, size)), t, Ret1(0)).(os := WakeOne(a.os, a.index[v]))
    else Panicked(a, b, ReplyNotListed)
  }

  /** The message is handed over to a thread in a receive; the sender is then owed a reply. */
  ghost function Met(a: Snap, c: nat, u: Pid, v: Word, msg: Word, size: Word): Snap
    requires Calling(a, c)
  {
    Returned(a, u, Ret4(0, a.vid[Caller(a, c)], msg, size)).(
      os := Rendezvous(a.os, c, u), message := a.message[Caller(a, c) := Message(v, msg, size)])
  }

  ghost predicate Sent(a: Snap, b: Snap, c: nat, v: Word, msg: Word, size: Word)
    requires Calling(a, c)
  {
    var t := Caller(a, c);
    if v !in a.index || a.os.state[a.index[v]] == Zombie then b == Returned(a, t, Ret1(ESRCH))
    else if a.os.port[a.index[v]].WaitListen? then
      b == a.(os := BlockOn(a.os, c, PendingRing(a.index[v])), message := a.message[t := Message(v, msg, size)])
    else if a.os.state[a.index[v]] == WaitingMsg then b == Met(a, c, a.index[v], v, msg, size)
    else Panicked(a, b, SendNotWaiting)
  }

  ghost predicate Offered(a: Snap, b: Snap, c: nat, v: Word, msg: Word)
    requires Calling(a, c)
  {
    var t := Caller(a, c);
    if v !in a.index then b == Returned(a, t, Ret1(ESRCH))
    else if a.os.port[a.index[v]].WaitListen? then b == Returned(a, t, Ret1(EAGAIN))
    else if a.os.state[a.index[v]] == WaitingMsg then b == Met(a, c, a.index[v], v, v, msg)
    else Panicked(a, b, SendNotWaiting)
  }

  /** The caller enters queue `q`, for a limited time if the timeout register is not negative and
      not at all if it is 0. */
  ghost function Queued(a: Snap, c: nat, q: RingId, timeout: Word, now: int): Snap
    requires Calling(a, c)
  {
    var t, timed := Caller(a, c), timeout < 0x8000_0000;
    if timeout == 0 then Returned(a, t, Ret1(ETIMEDOUT))
    else a.(os := WaitOn(a.os, c, q, timed), expired := if timed then a.expired[t := now + timeout] else a.expired)
  }

  ghost predicate FutexWaited(a: Snap, b: Snap, c: nat, addr: Word, expected: Word, timeout: Word, actual: Word, now: int)
    requires Calling(a, c)
  {
    var t := Caller(a, c);
    if addr == 0 then b == Returned(a, t, Ret1(EINVAL))
    else if actual != expected then b == Returned(a, t, Ret1(EAGAIN))
    else if Some(addr) !in a.keys && None !in a.keys then b == Returned(a, t, Ret1(ENOMEM))
    else
      && |b.keys| == F.SLOTS && Some(addr) in b.keys && F.SlotOf(b.keys, addr) < |a.keys|
      && b.keys == a.keys[F.SlotOf(b.keys, addr) := Some(addr)]
      && b == Queued(a.(keys := b.keys), c, FutexRing(F.SlotOf(b.keys, addr)), timeout, now)
  }

  ghost predicate FutexWoke(a: Snap, b: Snap, c: nat, addr: Word, count: Word)
    requires Calling(a, c)
  {
    var woken := FutexWoken(a.os, a.keys, addr, count);
    b == Returned(a.(os := WakeAll(a.os, woken), trap := Answered(a.trap, woken, Ret1(0))),
                  Caller(a, c), Ret1(|woken| % 0x1_0000_0000))
  }

  ghost predicate TimerMade(a: Snap, b: Snap, c: nat)
    requires Calling(a, c)
  {
    var t := Caller(a, c);
    if forall j :: 0 <= j < T.TIMERS ==> a.timers[j].inUse then b == Returned(a, t, Ret1(ENOMEM))
    else exists i ::
      && 0 <= i < T.TIMERS && !a.timers[i].inUse && (forall j :: 0 <= j < i ==> a.timers[j].inUse)
      && b == Returned(a, t, Ret2(0, a.nextTimer)).(
        timers := a.timers[i := T.Timer(a.nextTimer, a.vid[t], 0, 0, 0, 0, true, false)],
        nextTimer := if a.nextTimer == 0xFFFF_FFFF then 1 else a.nextTimer + 1)
  }

  ghost predicate TimerDeleted(a: Snap, b: Snap, c: nat, id: Word)
    requires Calling(a, c)
  {
    var t := Caller(a, c);
    match AccessTo(a.timers, id, a.vid[t])
    case Denied(code) => b == Returned(a, t, Ret1(code))
    case Owned(i) =>
      var woken := At(a.os.rings, TimerRing(i));
      b == Returned(a.(os := WakeAll(a.os, woken), trap := Answered(a.trap, woken, Ret1(ECANCELED)),
                       timers := a.timers[i := T.Timer(id, 0, 0, 0, 0, 0, false, false)]), t, Ret1(0))
  }

  ghost predicate TimerArmed(a: Snap, b: Snap, c: nat, id: Word, duration: Word, flags: Word, now: nat)
    requires Calling(a, c)
  {
    var t := Caller(a, c);
    if duration == 0 then b == Returned(a, t, Ret1(EINVAL))
    else
      match AccessTo(a.timers, id, a.vid[t])
      case Denied(code) => b == Returned(a, t, Ret1(code))
      case Owned(i) =>
        b == Returned(a, t, Ret1(0)).(timers := a.timers[i :=
          T.Timer(id, a.vid[t], now + duration, if flags % 2 == 1 then duration else 0, flags, 0, true, true)])
  }

  ghost predicate TimerCancelled(a: Snap, b: Snap, c: nat, id: Word)
    requires Calling(a, c)
  {
    var t := Caller(a, c);
    match AccessTo(a.timers, id, a.vid[t])
    case Denied(code) => b == Returned(a, t, Ret1(code))
    case Owned(i) => b == Returned(a, t, Ret1(0)).(timers := a.timers[i := a.timers[i].(armed := false)])
  }

  ghost predicate TimerWaited(a: Snap, b: Snap, c: nat, id: Word, timeout: Word, now: int)
    requires Calling(a, c)
  {
    var t := Caller(a, c);
    match AccessTo(a.timers, id, a.vid[t])
    case Denied(code) => b == Returned(a, t, Ret1(code))
    case Owned(i) =>
      if a.timers[i].pending > 0 then
        b == Returned(a, t, Ret1(0)).(timers := a.timers[i := a.timers[i].(pending := a.timers[i].pending - 1)])
      else b == Queued(a, c, TimerRing(i), timeout, now)
  }

  ghost predicate ClockRead(a: Snap, b: Snap, c: nat, id: Word, now: int, offset: int)
    requires Calling(a, c)
  {
    var ns := (if id == 0 then offset + now else now) * 1000;
    b == Returned(a, Caller(a, c), Ret3(0, (ns / 0x1_0000_0000) % 0x1_0000_0000, ns % 0x1_0000_0000))
  }

  /** The two words of a clock reading make up the 64-bit value. */
  lemma ClockWords(ns: int)
    ensures ((ns / 0x1_0000_0000) % 0x1_0000_0000) * 0x1_0000_0000 + ns % 0x1_0000_0000 == ns % 0x1_0000_0000_0000_0000
  {
    var hi, lo := ns / 0x1_0000_0000, ns % 0x1_0000_0000;
    assert ns == (hi / 0x1_0000_0000) * 0x1_0000_0000_0000_0000 + (hi % 0x1_0000_0000) * 0x1_0000_0000 + lo;
  }

  ghost predicate Signalled(a: Snap, b: Snap, c: nat, v: Word, signum: Word)
    requires Calling(a, c)
  {
    var t := Caller(a, c);
    if signum == 0 || signum > 32 then b == Returned(a, t, Ret1(EINVAL))
    else if v !in a.index then b == Returned(a, t, Ret1(ESRCH))
    else b == Returned(SignalSent(a, a.index[v], signum), t, Ret1(0))
  }

  ghost predicate SignalsTaken(a: Snap, b: Snap, c: nat)
    requires Calling(a, c)
  {
    b == Returned(a, Caller(a, c), Ret1(SignalBits(a.signals[Caller(a, c)]))).(signals := a.signals[Caller(a, c) := 0])
  }

  /** A fault ends the thread; its frame needs no further service. */
  ghost predicate Faulted(a: Snap, b: Snap, c: nat, code: Word)
    requires Calling(a, c)
  {
    var t := Caller(a, c);
    Detachable(a.os, t) && b == var e := AfterExit(a, c, t, code); Returned(e, t, e.trap[t].(phase := Done))
  }

  /** The number of a call is kept in eight bits. */
  function CallId(f: Trap): (id: nat)
    ensures id < 256
  {
    f.r0 % 256
  }

  /** The system call table: what the call in frame `f`, made on core `c`, does.  The answer to a
      number outside the table stays in the frame: its phase says that nothing is to be handed out. */
  ghost predicate CallDone(a: Snap, b: Snap, c: nat, f: Trap, env: Env, address: nat -> Word)
    requires Calling(a, c)
  {
    match CallId(f)
    case 0 => Slept(a, b, c, f.r1, f.r2, env.now)
    case 1 => Killed(a, b, c, f.r1, f.r2, env.now)
    case 2 => Made(a, b, c, if f.r2 != 0 then env.word else AUTO, f.r3, env.garbage)
    case 3 => PrioritySet(a, b, c, f.r1, f.r2)
    case 4 => Joined(a, b, c, f.r1)
    case 5 => MadeDetached(a, b, c, f.r1)
    case 6 => Exited(a, b, c, f.r1)
    case 7 => Received(a, b, c, address)
    case 8 => Replied(a, b, c, f.r1, f.r2, f.r3, address)
    case 9 => Sent(a, b, c, f.r1, f.r2, f.r3)
    case 10 => Polled(a, b, c)
    case 11 => Offered(a, b, c, f.r1, f.r2)
    case 12 => FutexWaited(a, b, c, f.r1, f.r2, f.r3, env.word, env.now)
    case 13 => FutexWoke(a, b, c, f.r1, f.r2)
    case 14 => TimerMade(a, b, c)
    case 15 => TimerDeleted(a, b, c, f.r1)
    case 16 => TimerArmed(a, b, c, f.r1, f.r2, f.r3, env.now)
    case 17 => TimerCancelled(a, b, c, f.r1)
    case 18 => TimerWaited(a, b, c, f.r1, f.r2, env.now)
    case 19 => ClockRead(a, b, c, f.r1, env.now, env.offset)
    case 20 => Signalled(a, b, c, f.r1, f.r2)
    case 21 => SignalsTaken(a, b, c)
    case 255 => Faulted(a, b, c, f.r1)
    case _ => b == Returned(a, Caller(a, c), Ret1(ENOSYS).(phase := Done))
  }

  lemma SleptRuns(a: Snap, b: Snap, c: nat, r1: Word, r2: Word, now: int)
    requires Calling(a, c) && Slept(a, b, c, r1, r2, now)
    ensures b.interrupted == a.interrupted && OthersRun(a.os, b.os, c)
  {
    hide BlockOn, Move, WakeOne, WakeAll, WaitOn, JoinOn, SleepOn, Listen, Rendezvous, Created, Reprioritise, SetPort, Handed, Accept, OthersRun, At, Duration;
    var t := Caller(a, c);
    BlockingRuns(a.os, c, ReadyRing(a.os.priority[t]), 0, false, a.expired[t := now + Duration(r1, r2)]);
  }

  lemma ThreadRuns(a: Snap, b: Snap, c: nat, v: Word, p: Word)
    requires Calling(a, c)
    requires PrioritySet(a, b, c, v, p) || Joined(a, b, c, v) || MadeDetached(a, b, c, v)
    ensures b.interrupted == a.interrupted && (b.halt.None? ==> OthersRun(a.os, b.os, c))
  {
    hide BlockOn, Move, WakeOne, WakeAll, WaitOn, JoinOn, SleepOn, Listen, Rendezvous, Created, Reprioritise, SetPort, Handed, Accept, OthersRun, At;
    SameRuns(a.os, c);
    if v in a.index {
      BlockingRuns(a.os, c, WaitRing, a.index[v], false, a.expired);
      QuietRuns(a.os, c, ZombieRing, FreeRing, a.index[v], if p % 256 < 8 then p % 256 else 0);
    }
  }

  lemma MadeRuns(a: Snap, b: Snap, c: nat, reserved: Word, p: Word, garbage: Word)
    requires Calling(a, c) && Made(a, b, c, reserved, p, garbage)
    ensures b.interrupted == a.interrupted && OthersRun(a.os, b.os, c)
  {
    hide BlockOn, Move, WakeOne, WakeAll, WaitOn, JoinOn, SleepOn, Listen, Rendezvous, Created, Reprioritise, SetPort, Handed, Accept, OthersRun, At;
    CreateRuns(a.os, c, p);
  }

  lemma ExitedRuns(a: Snap, b: Snap, c: nat, code: Word)
    requires Calling(a, c) && Homes(a.os) && Ports(a.os) && Settled(a.os) && (Exited(a, b, c, code) || Faulted(a, b, c, code))
    ensures b.interrupted == a.interrupted && OthersRun(a.os, b.os, c)
  {
    hide Homes, Ports, Ended, Detachable, Detach, ExitTraps, OthersRun;
    RunningHome(a.os, c);
    EndedRuns(a.os, c, Caller(a, c), a.detached[Caller(a, c)]);
  }

  lemma MessageRuns(a: Snap, b: Snap, c: nat, v: Word, msg: Word, size: Word, address: nat -> Word)
    requires Calling(a, c)
    requires Received(a, b, c, address) || Polled(a, b, c) || Sent(a, b, c, v, msg, size) || Offered(a, b, c, v, msg)
    ensures b.interrupted == a.interrupted && (b.halt.None? ==> OthersRun(a.os, b.os, c))
  {
    hide BlockOn, Move, WakeOne, WakeAll, WaitOn, JoinOn, SleepOn, Listen, Rendezvous, Created, Reprioritise, SetPort, Handed, Accept, OthersRun, At, I.NextEvent;
    IpcRuns(a.os, c, Caller(a, c));
    if v in a.index {
      IpcRuns(a.os, c, a.index[v]);
    }
  }

  lemma RepliedRuns(a: Snap, b: Snap, c: nat, v: Word, msg: Word, size: Word, address: nat -> Word)
    requires Calling(a, c) && Replied(a, b, c, v, msg, size, address)
    ensures b.interrupted == a.interrupted && (b.halt.None? ==> OthersRun(a.os, b.os, c))
  {
    hide BlockOn, Move, WakeOne, WakeAll, WaitOn, JoinOn, SleepOn, Listen, Rendezvous, Created, Reprioritise, SetPort, Handed, Accept, OthersRun, At, WaitsAs;
    SameRuns(a.os, c);
    if v in a.index {
      IpcRuns(a.os, c, a.index[v]);
    }
    if IRQ_SERVER_VID in a.index {
      IpcRuns(a.os, c, a.index[IRQ_SERVER_VID]);
    }
  }

  lemma FutexRuns(a: Snap, b: Snap, c: nat, addr: Word, expected: Word, timeout: Word, actual: Word, now: int)
    requires Calling(a, c)
    requires FutexWaited(a, b, c, addr, expected, timeout, actual, now) || FutexWoke(a, b, c, addr, expected)
    ensures b.interrupted == a.interrupted && OthersRun(a.os, b.os, c)
  {
    hide BlockOn, Move, WakeOne, WakeAll, WaitOn, JoinOn, SleepOn, Listen, Rendezvous, Created, Reprioritise, SetPort, Handed, Accept, OthersRun, At, FutexWoken, F.SlotOf, Answered;
    SameRuns(a.os, c);
    WakingRuns(a.os, c, FutexWoken(a.os, a.keys, addr, expected));
    if addr != 0 && Some(addr) in b.keys {
      BlockingRuns(a.os, c, FutexRing(F.SlotOf(b.keys, addr)), 0, timeout < 0x8000_0000, a.expired);
    }
  }

  lemma TimerRuns(a: Snap, b: Snap, c: nat, id: Word, timeout: Word, flags: Word, now: nat)
    requires Calling(a, c)
    requires
      || TimerMade(a, b, c) || TimerDeleted(a, b, c, id) || TimerArmed(a, b, c, id, timeout, flags, now)
      || TimerCancelled(a, b, c, id) || TimerWaited(a, b, c, id, timeout, now)
    ensures b.interrupted == a.interrupted && OthersRun(a.os, b.os, c)
  {
    hide BlockOn, Move, WakeOne, WakeAll, WaitOn, JoinOn, SleepOn, Listen, Rendezvous, Created, Reprioritise, SetPort, Handed, Accept, OthersRun, At, AccessTo, Answered;
    SameRuns(a.os, c);
    var access := AccessTo(a.timers, id, a.vid[Caller(a, c)]);
    if access.Owned? {
      WakingRuns(a.os, c, At(a.os.rings, TimerRing(access.index)));
      BlockingRuns(a.os, c, TimerRing(access.index), 0, timeout < 0x8000_0000, a.expired);
    }
  }

  lemma SignalRuns(a: Snap, b: Snap, c: nat, v: Word, signum: Word)
    requires Calling(a, c) && Signalled(a, b, c, v, signum)
    ensures OthersRun(a.os, b.os, c)
    ensures b.interrupted != a.interrupted ==> v in a.index && a.os.state[a.index[v]] == WaitingMsg
  {
    hide BlockOn, Move, WakeOne, WakeAll, WaitOn, JoinOn, SleepOn, Listen, Rendezvous, Created, Reprioritise, SetPort, Handed, Accept, OthersRun, At, WithSignal;
    SameRuns(a.os, c);
    if v in a.index {
      QuietRuns(a.os, c, FreeRing, FreeRing, a.index[v], 0);
    }
  }

  lemma AnswerRuns(a: Snap, b: Snap, c: nat, id: Word, now: int, offset: int)
    requires Calling(a, c) && (SignalsTaken(a, b, c) || ClockRead(a, b, c, id, now, offset))
    ensures b.interrupted == a.interrupted && OthersRun(a.os, b.os, c)
  {
    hide OthersRun, SignalBits;
    SameRuns(a.os, c);
  }

  /** No call disturbs what another core runs, and only a signal takes a thread out of a receive. */
  lemma CallRuns(a: Snap, b: Snap, c: nat, f: Trap, env: Env, address: nat -> Word)
    requires Calling(a, c) && a.halt.None? && Homes(a.os) && Ports(a.os) && Settled(a.os) && CallDone(a, b, c, f, env, address)
    ensures b.halt.None? ==> OthersRun(a.os, b.os, c)
    ensures b.interrupted != a.interrupted ==> CallId(f) in {1, 20} && f.r1 in a.index && a.os.state[a.index[f.r1]] == WaitingMsg
  {
    hide Homes, Ports, Settled, OthersRun, Slept, Killed, Made, PrioritySet, Joined, MadeDetached, Exited, Received, Replied, Sent, Polled, Offered, FutexWaited, FutexWoke,
      TimerMade, TimerDeleted, TimerArmed, TimerCancelled, TimerWaited, ClockRead, Signalled, SignalsTaken, Faulted;
    match CallId(f)
    case 0 => SleptRuns(a, b, c, f.r1, f.r2, env.now);
    case 1 => KilledRuns(a, b, c, f.r1, f.r2, env.now);
    case 2 => MadeRuns(a, b, c, if f.r2 != 0 then env.word else AUTO, f.r3, env.garbage);
    case 3 => ThreadRuns(a, b, c, f.r1, f.r2);
    case 4 => ThreadRuns(a, b, c, f.r1, f.r2);
    case 5 => ThreadRuns(a, b, c, f.r1, f.r2);
    case 6 => ExitedRuns(a, b, c, f.r1);
    case 7 => MessageRuns(a, b, c, f.r1, f.r2, f.r3, address);
    case 8 => RepliedRuns(a, b, c, f.r1, f.r2, f.r3, address);
    case 9 => MessageRuns(a, b, c, f.r1, f.r2, f.r3, address);
    case 10 => MessageRuns(a, b, c, f.r1, f.r2, f.r3, address);
    case 11 => MessageRuns(a, b, c, f.r1, f.r2, f.r3, address);
    case 12 => FutexRuns(a, b, c, f.r1, f.r2, f.r3, env.word, env.now);
    case 13 => FutexRuns(a, b, c, f.r1, f.r2, f.r3, env.word, env.now);
    case 14 => TimerRuns(a, b, c, f.r1, f.r2, f.r3, env.now);
    case 15 => TimerRuns(a, b, c, f.r1, f.r2, f.r3, env.now);
    case 16 => TimerRuns(a, b, c, f.r1, f.r2, f.r3, env.now);
    case 17 => TimerRuns(a, b, c, f.r1, f.r2, f.r3, env.now);
    case 18 => TimerRuns(a, b, c, f.r1, f.r2, f.r3, env.now);
    case 19 => AnswerRuns(a, b, c, f.r1, env.now, env.offset);
    case 20 => SignalRuns(a, b, c, f.r1, f.r2);
    case 21 => AnswerRuns(a, b, c, f.r1, env.now, env.offset);
    case 255 => ExitedRuns(a, b, c, f.r1);
    case _ => SameRuns(a.os, c);
  }

  /** The threads at the front of a list whose time has come. */
  ghost function Due(a: Snap, r: RingId, now: int): seq<Pid>
    requires Whole(a)
  {
    var w := At(a.os.rings, r); w[..DuePrefix(w, a.expired, now)]
  }

  ghost function Awoken(a: Snap, r: RingId, now: int, ret: Trap): (b: Snap)
    requires Whole(a)
    ensures Whole(b)
  {
    RunningSame(a.os, Due(a, r, now));
    a.(os := WakeAll(a.os, Due(a, r, now)), trap := Answered(a.trap, Due(a, r, now), ret))
  }

  /** The timers fire as `log` and `times` tell: every due timer as often as it is due, each time for
      its oldest waiter, or to be found pending if it has none. */
  ghost predicate TimersFired(a: Snap, b: Snap, log: seq<nat>, times: seq<int>, now: int)
    requires Whole(a)
  {
    && T.Chronicle(a.timers, log, times, now)
    && (forall i :: 0 <= i < T.TIMERS ==> T.Count(log, i) == T.Remaining(a.timers[i], now))
    && |b.timers| == T.TIMERS
    && (forall i :: 0 <= i < T.TIMERS ==>
          var n, w := T.Remaining(a.timers[i], now), |At(a.os.rings, TimerRing(i))|;
          b.timers[i] == T.AfterTick(a.timers[i], now).(pending := a.timers[i].pending + if n <= w then 0 else n - w))
    && var woken := T.WokenBy(a.os.rings, log);
       b == a.(os := WakeAll(a.os, woken), trap := Answered(a.trap, woken, Ret1(0)), timers := b.timers)
  }

  /** Timer `t` fired `n` times up to `now` and is then `t'`: if it was due and repeats, once for every
      period begun since its deadline, and it is armed for the next; if it was due and does not, once. */
  ghost predicate TimerTicked(t: T.Timer, t': T.Timer, n: nat, now: int) {
    && t'.id == t.id && t'.owner == t.owner && t'.period == t.period && t'.flags == t.flags && t'.inUse == t.inUse
    && if !t.armed || t.deadline > now then n == 0 && t'.armed == t.armed && t'.deadline == t.deadline
       else if t.flags % 2 == 1 && t.period > 0 then
         n == (now - t.deadline) / t.period + 1 && t'.armed && t'.deadline == t.deadline + n * t.period && now < t'.deadline <= now + t.period
       else n == 1 && !t'.armed && t'.deadline == t.deadline
  }

  lemma TickedOnce(t: T.Timer, t': T.Timer, n: nat, now: int)
    requires n == T.Remaining(t, now) && t' == T.AfterTick(t, now).(pending := t'.pending)
    ensures TimerTicked(t, t', n, now)
  {
    hide T.Remaining, T.AfterTick;
    if t.armed && t.deadline <= now && t.flags % 2 == 1 && t.period > 0 {
      T.PeriodicTick(t, now);
    } else {
      T.OneShotTick(t, now);
    }
  }

  /** What the tick does to the timers, from their fields. */
  lemma TimersTicked(a: Snap, b: Snap, log: seq<nat>, times: seq<int>, now: int, i: nat)
    requires Whole(a) && TimersFired(a, b, log, times, now) && i < T.TIMERS
    ensures |b.timers| == T.TIMERS && TimerTicked(a.timers[i], b.timers[i], multiset(log)[i], now)
    ensures var n, w := multiset(log)[i], |At(a.os.rings, TimerRing(i))|;
      b.timers[i].pending == a.timers[i].pending + if n <= w then 0 else n - w
  {
    hide T.Chronicle, T.WokenBy, WakeAll, Answered, At, T.Remaining, T.AfterTick, TimerTicked, T.Count;
    T.CountIs(log, i);
    TickedOnce(a.timers[i], b.timers[i], multiset(log)[i], now);
  }

  /** A timer armed at `now` for `duration`, and next ticked at `later`: with the low bit of the flags set
      it has fired once for every whole duration that has passed, without it once if that long has. */
  lemma ArmedFires(a: Snap, b: Snap, c: nat, id: Word, duration: Word, flags: Word, now: nat, i: nat,
                   m: Snap, log: seq<nat>, times: seq<int>, later: nat)
    requires Calling(a, c) && TimerArmed(a, b, c, id, duration, flags, now) && duration > 0 && i < T.TIMERS
    requires a.timers[i].inUse && a.timers[i].id == id && a.timers[i].owner == a.vid[Caller(a, c)]
    requires forall j :: 0 <= j < i && a.timers[j].inUse ==> a.timers[j].id != id
    requires Whole(b) && TimersFired(b, m, log, times, later) && later >= now
    ensures b.timers[i].armed && b.timers[i].deadline == now + duration
    ensures multiset(log)[i] == if flags % 2 == 1 then (later - now) / duration else if later >= now + duration then 1 else 0
    ensures flags % 2 == 1 ==> m.timers[i].armed
  {
    hide T.FirstFrom, TimersFired, TimerTicked;
    var access := AccessTo(a.timers, id, a.vid[Caller(a, c)]);
    assert access == Owned(i);
    TimersTicked(b, m, log, times, later, i);
    TickedFields(b.timers[i], m.timers[i], multiset(log)[i], later);
    T.DivStep(later - now, duration);
  }

  lemma TickedFields(t: T.Timer, t': T.Timer, n: nat, now: int)
    requires TimerTicked(t, t', n, now)
    ensures !t.armed || t.deadline > now ==> n == 0 && t'.armed == t.armed && t'.deadline == t.deadline
    ensures t.armed && t.deadline <= now && t.flags % 2 == 1 && t.period > 0 ==>
      n == (now - t.deadline) / t.period + 1 && t'.armed && now < t'.deadline <= now + t.period
    ensures t.armed && t.deadline <= now && !(t.flags % 2 == 1 && t.period > 0) ==> n == 1 && !t'.armed
  {
  }

  /** What is due by `now` happens: timers fire, sleeps end, waits time out. */
  ghost predicate Ticked(a: Snap, b: Snap, now: int)
    requires Whole(a)
  {
    exists log, times, m ::
      && TimersFired(a, m, log, times, now) && Whole(m)
      && b == Awoken(Awoken(m, SleepRing, now, Ret3(0, 0, 0)), SyncSleepRing, now, Ret1(ETIMEDOUT))
  }

  /** The frames of the threads that run are untouched. */
  ghost predicate FramesKept(running: seq<Option<Pid>>, trap: seq<Trap>, trap': seq<Trap>) {
    && |trap| == |trap'| == 32
    && forall c :: 0 <= c < |running| && running[c].Some? ==> trap'[running[c].value] == trap[running[c].value]
  }

  lemma AnsweredKept(k: Sched, trap: seq<Trap>, woken: seq<Pid>, ret: Trap)
    requires Shaped(k) && Homes(k) && Settled(k) && |trap| == 32 && forall t :: t in woken ==> k.home[t].InRing?
    ensures FramesKept(k.running, trap, Answered(trap, woken, ret))
  {
    hide Homes;
    forall c | 0 <= c < |k.running| && k.running[c].Some? ensures k.running[c].value !in woken {
      RunningHome(k, c);
    }
  }

  /** Whoever the timers wake was waiting for them. */
  lemma {:induction false} WokenListed(k: Sched, log: seq<nat>)
    requires Homes(k)
    ensures forall t :: t in T.WokenBy(k.rings, log) ==> k.home[t].InRing?
  {
    hide Homes, At, T.Count;
    if log != [] {
      WokenListed(k, log[..|log| - 1]);
      QueueBlocked(k, TimerRing(log[|log| - 1]));
    }
  }

  /** The lowest deliverable event goes to the IRQ server, if that is waiting for one. */
  ghost predicate Flushed(a: Snap, b: Snap, address: nat -> Word)
    requires Whole(a)
  {
    var d := I.NextEvent(a.lines.queued, a.lines.inflight, 0);
    if d.Some? && WaitsAs(a.os, a.vid, IRQ_SERVER_VID)
    then IRQ_SERVER_VID in a.index && b == Given(a, a.index[IRQ_SERVER_VID], d.value, address)
    else b == a
  }

  /** A thread that runs gets what its call returned, once. */
  ghost function GivenOut(a: Snap, t: Pid): (b: Snap)
    requires Whole(a)
    ensures Whole(b)
  {
    if a.trap[t].phase == Output then Returned(a, t, a.trap[t].(phase := Done)) else a
  }

  /** The earliest of the heads of the sleep and timeout lists and of the armed timers; 0 for none. */
  ghost function NextEventTime(a: Snap): int
    requires Whole(a)
  {
    var s, y := At(a.os.rings, SleepRing), At(a.os.rings, SyncSleepRing);
    var d := if s != [] then a.expired[s[0]] else 0;
    var d' := if y != [] then Earlier(d, a.expired[y[0]]) else d;
    match T.Earliest(a.timers, 0)
    case Some(x) => Earlier(d', x)
    case None => d'
  }

  /** The tick of core `c` is armed for the next event, or for the end of the quantum of `running` if
      it has a ready peer. */
  ghost function Armed(a: Snap, c: nat, now: int, running: Option<Pid>): (b: Snap)
    requires Whole(a) && c < |a.os.running|
    ensures Whole(b)
  {
    var d := NextEventTime(a);
    var peer := running.Some? && At(a.os.rings, ReadyRing(a.os.priority[running.value])) != [];
    a.(nextTick := a.nextTick[c := if peer then Earlier(d, now + TIME_SLICE) else d])
  }

  /** The oldest of the most urgent ready threads takes core `c`, gets what its call returned, and the
      tick is armed; with none ready the core idles until the next event. */
  ghost predicate PickedBy(a: Snap, b: Snap, c: nat, picked: Option<Pid>, now: int, address: nat -> Word)
    requires Whole(a) && c < |a.os.running|
  {
    && picked == NextReady(a.os.rings, 0)
    && if picked.None? then b == Armed(a, c, now, None)
       else
         var p := GivenOut(a.(os := Picked(a.os, c, picked.value)), picked.value);
         Flushed(Armed(p, c, now, picked), b, address)
  }

  /** One round of the outer scheduler loop. */
  ghost predicate Scheduled(a: Snap, b: Snap, c: nat, picked: Option<Pid>, now: int, address: nat -> Word)
    requires Whole(a)
  {
    exists m, n ::
      && Ticked(a, m, now) && Whole(m) && Flushed(m, n, address)
      && Whole(n) && c < |n.os.running| && PickedBy(n, b, c, picked, now, address)
  }

  /** Whether the thread on core `c` makes way: for a more urgent one at once, for a peer when its
      quantum is over. */
  ghost predicate MakesWay(a: Snap, c: nat, now: int)
    requires Calling(a, c)
  {
    var p := a.os.priority[Caller(a, c)];
    || (exists q :: 0 <= q < p && At(a.os.rings, ReadyRing(q)) != [])
    || (At(a.os.rings, ReadyRing(p)) != [] && a.nextTick[c] != 0 && now >= a.nextTick[c])
  }

  /** A thread that did not block makes way, waiting behind its peers, or goes on. */
  ghost predicate Continued(a: Snap, b: Snap, c: nat, now: int, address: nat -> Word)
    requires Calling(a, c)
  {
    var t := Caller(a, c);
    if MakesWay(a, c, now) then b == a.(os := BlockOn(a.os, c, ReadyRing(a.os.priority[t])))
    else Flushed(Armed(GivenOut(a, t), c, now, Some(t)), b, address)
  }

  /** The state in which a pending call is served. */
  ghost function Serve(a: Snap, c: nat, f: Trap): (b: Snap)
    requires Calling(a, c)
    ensures Calling(b, c)
  {
    if CallId(f) <= 21 then Returned(a, Caller(a, c), f.(phase := Serving)) else a
  }

  /** One round of the inner scheduler loop, through the states after the tick and after the call
      that the thread has made. */
  ghost predicate EnteredBy(a: Snap, m: Snap, n: Snap, b: Snap, c: nat, env: Env, address: nat -> Word)
    requires Calling(a, c)
  {
    var f := a.trap[Caller(a, c)];
    && Ticked(a, m, env.now) && Calling(m, c) && Caller(m, c) == Caller(a, c) && m.trap[Caller(m, c)] == f
    && (if f.phase == Pending then CallDone(Serve(m, c, f), n, c, f, env, address) else n == m)
    && if n.halt.None? && c < |n.os.running| && n.os.running[c].Some? then Calling(n, c) && Continued(n, b, c, env.now, address)
       else b == n
  }

  ghost predicate Entered(a: Snap, b: Snap, c: nat, env: Env, address: nat -> Word)
    requires Calling(a, c)
  {
    exists m, n :: EnteredBy(a, m, n, b, c, env, address)
  }

  ghost function Trapped(a: Snap, c: nat, f: Trap): Snap
    requires Whole(a) && c < |a.os.running|
  {
    if a.os.running[c].Some? then Returned(a, a.os.running[c].value, f) else a
  }

  /** An interrupt on a line that is not masked is latched, and masks its line. */
  ghost function Raised(a: Snap, i: nat): Snap
    requires Whole(a)
  {
    if i in a.lines.masked || i >= I.IRQS then a else a.(lines := I.Latched(a.lines, i))
  }

  /** One event in the life of the kernel. */
  ghost predicate Stepped(a: Snap, b: Snap, e: Event, address: nat -> Word)
    requires Whole(a)
  {
    match e
    case Call(c, r0, r1, r2, r3) => b == if c < |a.os.running| then Trapped(a, c, Trap(r0, r1, r2, r3, Pending)) else a
    case Switch(c, env) =>
      if c >= |a.os.running| then b == a
      else if a.os.running[c].Some? then Entered(a, b, c, env, address)
      else exists picked :: Scheduled(a, b, c, picked, env.now, address)
    case Interrupt(i) => b == Raised(a, i)
  }

  /** The states of a run: one step for each event, until the kernel stops. */
  ghost predicate IsRun(trace: seq<Snap>, events: seq<Event>, address: nat -> Word) {
    && |trace| == |events| + 1
    && forall i :: 0 <= i < |events| ==> StepOrStop(trace[i], trace[i + 1], events[i], address)
  }

  ghost predicate StepOrStop(a: Snap, b: Snap, e: Event, address: nat -> Word) {
    if a.halt.Some? then b == a else Whole(a) && Stepped(a, b, e, address)
  }

  lemma NoRun(trace: seq<Snap>, address: nat -> Word)
    requires |trace| == 1
    ensures IsRun(trace, [], address)
  {
  }

  /** The run so far, and the next state. */
  lemma RunOn(trace: seq<Snap>, events: seq<Event>, b: Snap, e: Event, address: nat -> Word)
    requires IsRun(trace, events, address) && StepOrStop(trace[|events|], b, e, address)
    ensures IsRun(trace + [b], events + [e], address)
  {
    hide StepOrStop;
    var trace', events' := trace + [b], events + [e];
    forall i | 0 <= i < |events'| ensures StepOrStop(trace'[i], trace'[i + 1], events'[i], address) {
      assert i < |events| ==> StepOrStop(trace[i], trace[i + 1], events[i], address);
    }
  }

  /** No frame becomes pending: the frames that are were already. */
  ghost predicate NoNewCalls(a: Snap, b: Snap) {
    |a.trap| == |b.trap| == 32 && forall t: Pid :: b.trap[t].phase == Pending ==> b.trap[t] == a.trap[t]
  }

  /** What neither signals a receiver nor replies to a line: unless the kernel stops, no frame becomes
      pending either. */
  ghost predicate Plain(a: Snap, b: Snap) {
    && b.interrupted == a.interrupted && b.lines.disciplined == a.lines.disciplined
    && (b.halt.None? ==> NoNewCalls(a, b))
  }

  lemma Told(a: Snap, b: Snap, t: Pid, ret: Trap)
    requires |a.trap| == 32 && b.trap == a.trap[t := ret] && ret.phase != Pending
    ensures NoNewCalls(a, b)
  {
  }

  lemma ToldBoth(a: Snap, b: Snap, u: Pid, x: Trap, t: Pid, y: Trap)
    requires |a.trap| == 32 && b.trap == a.trap[u := x][t := y] && x.phase != Pending && y.phase != Pending
    ensures NoNewCalls(a, b)
  {
  }

  lemma SleptPlain(a: Snap, b: Snap, c: nat, r1: Word, r2: Word, now: int)
    requires Calling(a, c) && Slept(a, b, c, r1, r2, now)
    ensures Plain(a, b)
  {
    hide BlockOn, Move, WakeOne, WakeAll, WaitOn, JoinOn, SleepOn, Listen, Rendezvous, Created, Reprioritise, SetPort, Handed, Accept, At, Duration;
  }

  lemma MadePlain(a: Snap, b: Snap, c: nat, reserved: Word, priority: Word, garbage: Word)
    requires Calling(a, c) && Made(a, b, c, reserved, priority, garbage)
    ensures Plain(a, b)
  {
    hide BlockOn, Move, WakeOne, WakeAll, WaitOn, JoinOn, SleepOn, Listen, Rendezvous, Created, Reprioritise, SetPort, Handed, Accept, At;
  }

  lemma ThreadPlain(a: Snap, b: Snap, c: nat, v: Word, p: Word)
    requires Calling(a, c) && (PrioritySet(a, b, c, v, p) || Joined(a, b, c, v) || MadeDetached(a, b, c, v))
    ensures Plain(a, b)
  {
    hide BlockOn, Move, WakeOne, WakeAll, WaitOn, JoinOn, SleepOn, Listen, Rendezvous, Created, Reprioritise, SetPort, Handed, Accept, At;
  }

  lemma ExitedPlain(a: Snap, b: Snap, c: nat, u: Pid, code: Word)
    requires Calling(a, c) && Detachable(a.os, u) && b == AfterExit(a, c, u, code)
    ensures Plain(a, b) && b.halt == a.halt && NoNewCalls(a, b)
  {
    hide BlockOn, Move, WakeOne, WakeAll, WaitOn, JoinOn, SleepOn, Listen, Rendezvous, Created, Reprioritise, SetPort, Handed, Accept, At, Ended, Detach, Detachable, PortWaiters;
  }

  lemma KilledPlain(a: Snap, b: Snap, c: nat, v: Word, sig: Word, now: int)
    requires Calling(a, c) && Killed(a, b, c, v, sig, now)
    ensures b.lines.disciplined == a.lines.disciplined && (b.halt.None? ==> NoNewCalls(a, b))
  {
    hide BlockOn, Move, WakeOne, WakeAll, WaitOn, JoinOn, SleepOn, Listen, Rendezvous, Created, Reprioritise, SetPort, Handed, Accept, At, Ended, Detach, Detachable, ExitTraps, WithSignal, AfterExit, KilledBy, StoppedBy, ContinuedBy, AlarmedBy;
    if v in a.index && sig <= 31 {
      var u := a.index[v];
      match HandlerOf(sig)
      case Ignore =>
      case Kill => KilledByPlain(a, b, c, u, 128 + sig);
      case Stop => StoppedByPlain(a, b, c, u);
      case Continue => StoppedByPlain(a, b, c, u);
      case Alarm => AlarmedByPlain(a, b, c, u, sig, now);
    }
  }

  lemma KilledByPlain(a: Snap, b: Snap, c: nat, u: Pid, code: Word)
    requires Calling(a, c) && KilledBy(a, b, c, u, code)
    ensures Plain(a, b)
  {
    hide BlockOn, Move, WakeOne, WakeAll, WaitOn, JoinOn, SleepOn, Listen, Rendezvous, Created, Reprioritise, SetPort, Handed, Accept, At, Ended, Detach, Detachable, ExitTraps, AfterExit;
    var t := Caller(a, c);
    if a.os.state[u] != Zombie && !(a.os.state[u] == Running && u != t) {
      ExitedPlain(a, AfterExit(a, c, u, code), c, u, code);
    }
  }

  lemma StoppedByPlain(a: Snap, b: Snap, c: nat, u: Pid)
    requires Calling(a, c) && (StoppedBy(a, b, c, u) || ContinuedBy(a, b, c, u))
    ensures Plain(a, b)
  {
    hide BlockOn, Move, WakeOne, WakeAll, WaitOn, JoinOn, SleepOn, Listen, Rendezvous, Created, Reprioritise, SetPort, Handed, Accept, At;
  }

  lemma AlarmedByPlain(a: Snap, b: Snap, c: nat, u: Pid, signum: Word, now: int)
    requires Calling(a, c) && 1 <= signum <= 32 && AlarmedBy(a, b, c, u, signum, now)
    ensures b.lines.disciplined == a.lines.disciplined && NoNewCalls(a, b)
  {
    hide BlockOn, Move, WakeOne, WakeAll, WaitOn, JoinOn, SleepOn, Listen, Rendezvous, Created, Reprioritise, SetPort, Handed, Accept, At, WithSignal, AlarmReturn, NoNewCalls;
    var t := Caller(a, c);
    match a.os.state[u]
    case Sleep => ToldBoth(a, b, u, AlarmReturn(a.expired[u], now), t, Ret1(0));
    case WaitingMsg => ToldBoth(a, b, u, Ret1(EINTR), t, Ret1(0));
    case WaitingSync => ToldBoth(a, b, u, Ret1(EINTR), t, Ret1(0));
    case _ => Told(a, b, t, Ret1(0));
  }

  lemma ReceivedPlain(a: Snap, b: Snap, c: nat, address: nat -> Word)
    requires Calling(a, c) && (Received(a, b, c, address) || Polled(a, b, c))
    ensures Plain(a, b)
  {
    hide BlockOn, Move, WakeOne, WakeAll, WaitOn, JoinOn, SleepOn, Listen, Rendezvous, Created, Reprioritise, SetPort, Handed, Accept, At, I.NextEvent;
  }

  lemma SentPlain(a: Snap, b: Snap, c: nat, v: Word, msg: Word, size: Word)
    requires Calling(a, c) && (Sent(a, b, c, v, msg, size) || Offered(a, b, c, v, msg))
    ensures Plain(a, b)
  {
    hide BlockOn, Move, WakeOne, WakeAll, WaitOn, JoinOn, SleepOn, Listen, Rendezvous, Created, Reprioritise, SetPort, Handed, Accept, At;
  }

  /** A reply to an interrupt line that is not in flight. */
  ghost predicate SpuriousReply(l: I.Lines, f: Trap)
    requires I.Full(l)
  {
    CallId(f) == 8 && LineOf(f.r1).Some? && !l.inflight[LineOf(f.r1).value]
  }

  lemma RepliedPlain(a: Snap, b: Snap, c: nat, f: Trap, address: nat -> Word)
    requires Calling(a, c) && CallId(f) == 8 && Replied(a, b, c, f.r1, f.r2, f.r3, address)
    ensures b.interrupted == a.interrupted && (b.halt.None? ==> NoNewCalls(a, b))
    ensures b.lines.disciplined == (a.lines.disciplined && !SpuriousReply(a.lines, f))
  {
    hide BlockOn, Move, WakeOne, WakeAll, WaitOn, JoinOn, SleepOn, Listen, Rendezvous, Created, Reprioritise, SetPort, Handed, Accept, At, CallId;
  }

  lemma FutexPlain(a: Snap, b: Snap, c: nat, addr: Word, expected: Word, timeout: Word, actual: Word, now: int)
    requires Calling(a, c)
    requires FutexWaited(a, b, c, addr, expected, timeout, actual, now) || FutexWoke(a, b, c, addr, expected)
    ensures Plain(a, b)
  {
    hide BlockOn, Move, WakeOne, WakeAll, WaitOn, JoinOn, SleepOn, Listen, Rendezvous, Created, Reprioritise, SetPort, Handed, Accept, At, FutexWoken, F.SlotOf;
  }

  lemma TimerMadePlain(a: Snap, b: Snap, c: nat)
    requires Calling(a, c) && TimerMade(a, b, c)
    ensures Plain(a, b)
  {
    Told(a, b, Caller(a, c), b.trap[Caller(a, c)]);
  }

  lemma TimerArmedPlain(a: Snap, b: Snap, c: nat, id: Word, duration: Word, flags: Word, now: nat)
    requires Calling(a, c) && (TimerArmed(a, b, c, id, duration, flags, now) || TimerCancelled(a, b, c, id))
    ensures Plain(a, b)
  {
    hide AccessTo, NoNewCalls;
    Told(a, b, Caller(a, c), b.trap[Caller(a, c)]);
  }

  lemma TimerDeletedPlain(a: Snap, b: Snap, c: nat, id: Word)
    requires Calling(a, c) && TimerDeleted(a, b, c, id)
    ensures Plain(a, b)
  {
    hide BlockOn, Move, WakeOne, WakeAll, WaitOn, JoinOn, SleepOn, Listen, Rendezvous, Created, Reprioritise, SetPort, Handed, Accept, At, AccessTo;
  }

  lemma TimerWaitedPlain(a: Snap, b: Snap, c: nat, id: Word, timeout: Word, now: int)
    requires Calling(a, c) && TimerWaited(a, b, c, id, timeout, now)
    ensures Plain(a, b)
  {
    hide BlockOn, Move, WakeOne, WakeAll, WaitOn, JoinOn, SleepOn, Listen, Rendezvous, Created, Reprioritise, SetPort, Handed, Accept, At, AccessTo;
  }

  lemma SignalledPlain(a: Snap, b: Snap, c: nat, v: Word, signum: Word)
    requires Calling(a, c) && Signalled(a, b, c, v, signum)
    ensures b.lines.disciplined == a.lines.disciplined && NoNewCalls(a, b)
  {
    hide BlockOn, Move, WakeOne, WakeAll, WaitOn, JoinOn, SleepOn, Listen, Rendezvous, Created, Reprioritise, SetPort, Handed, Accept, At, WithSignal;
  }

  lemma AnswerPlain(a: Snap, b: Snap, c: nat, id: Word, now: int, offset: int)
    requires Calling(a, c) && (SignalsTaken(a, b, c) || ClockRead(a, b, c, id, now, offset))
    ensures Plain(a, b)
  {
    hide SignalBits;
  }

  /** Of all calls, only kills and signals take a thread out of a receive, and only a reply to a line
      not in flight breaks the discipline of the lines; none makes a frame pending. */
  lemma CallPlain(a: Snap, b: Snap, c: nat, f: Trap, env: Env, address: nat -> Word)
    requires Calling(a, c) && CallDone(a, b, c, f, env, address)
    ensures b.halt.None? ==> NoNewCalls(a, b)
    ensures b.interrupted != a.interrupted ==> CallId(f) in {1, 20}
    ensures b.lines.disciplined == (a.lines.disciplined && !SpuriousReply(a.lines, f))
  {
    hide CallId, NoNewCalls, Slept, Killed, Made, PrioritySet, Joined, MadeDetached, Exited, Received, Replied, Sent, Polled, Offered, FutexWaited,
      FutexWoke, TimerMade, TimerDeleted, TimerArmed, TimerCancelled, TimerWaited, ClockRead, Signalled, SignalsTaken, Faulted;
    match CallId(f)
    case 0 => SleptPlain(a, b, c, f.r1, f.r2, env.now);
    case 1 => KilledPlain(a, b, c, f.r1, f.r2, env.now);
    case 2 => MadePlain(a, b, c, if f.r2 != 0 then env.word else AUTO, f.r3, env.garbage);
    case 3 => ThreadPlain(a, b, c, f.r1, f.r2);
    case 4 => ThreadPlain(a, b, c, f.r1, f.r2);
    case 5 => ThreadPlain(a, b, c, f.r1, f.r2);
    case 6 => OwnExitPlain(a, b, c, f.r1);
    case 7 => ReceivedPlain(a, b, c, address);
    case 8 => RepliedPlain(a, b, c, f, address);
    case 9 => SentPlain(a, b, c, f.r1, f.r2, f.r3);
    case 10 => ReceivedPlain(a, b, c, address);
    case 11 => SentPlain(a, b, c, f.r1, f.r2, f.r3);
    case 12 => FutexPlain(a, b, c, f.r1, f.r2, f.r3, env.word, env.now);
    case 13 => FutexPlain(a, b, c, f.r1, f.r2, f.r3, env.word, env.now);
    case 14 => TimerMadePlain(a, b, c);
    case 15 => TimerDeletedPlain(a, b, c, f.r1);
    case 16 => TimerArmedPlain(a, b, c, f.r1, f.r2, f.r3, env.now);
    case 17 => TimerArmedPlain(a, b, c, f.r1, f.r2, f.r3, env.now);
    case 18 => TimerWaitedPlain(a, b, c, f.r1, f.r2, env.now);
    case 19 => AnswerPlain(a, b, c, f.r1, env.now, env.offset);
    case 20 => SignalledPlain(a, b, c, f.r1, f.r2);
    case 21 => AnswerPlain(a, b, c, f.r1, env.now, env.offset);
    case 255 => OwnExitPlain(a, b, c, f.r1);
    case _ => RefusedPlain(a, c);
  }

  lemma OwnExitPlain(a: Snap, b: Snap, c: nat, code: Word)
    requires Calling(a, c) && (Exited(a, b, c, code) || Faulted(a, b, c, code))
    ensures Plain(a, b)
  {
    hide BlockOn, Move, WakeOne, WakeAll, WaitOn, JoinOn, SleepOn, Listen, Rendezvous, Created, Reprioritise, SetPort, Handed, Accept, At, Ended, Detach, Detachable, ExitTraps, AfterExit;
    ExitedPlain(a, AfterExit(a, c, Caller(a, c), code), c, Caller(a, c), code);
  }

  lemma RefusedPlain(a: Snap, c: nat)
    requires Calling(a, c)
    ensures Plain(a, Returned(a, Caller(a, c), Ret1(ENOSYS).(phase := Done)))
  {
  }

  lemma TickedPlain(a: Snap, b: Snap, now: int)
    requires Whole(a) && Ticked(a, b, now)
    ensures Plain(a, b) && b.halt == a.halt && b.lines == a.lines && NoNewCalls(a, b)
  {
    hide WakeAll, At, DuePrefix, T.Chronicle, T.WokenBy, T.Remaining, T.AfterTick, T.Count;
  }

  lemma FlushedPlain(a: Snap, b: Snap, address: nat -> Word)
    requires Whole(a) && Flushed(a, b, address)
    ensures Plain(a, b) && b.halt == a.halt && NoNewCalls(a, b)
  {
    hide BlockOn, Move, WakeOne, WakeAll, WaitOn, JoinOn, SleepOn, Listen, Rendezvous, Created, Reprioritise, SetPort, Handed, Accept, At, I.NextEvent, WaitsAs;
  }

  lemma ScheduledPlain(a: Snap, b: Snap, c: nat, picked: Option<Pid>, now: int, address: nat -> Word)
    requires Whole(a) && Scheduled(a, b, c, picked, now, address)
    ensures Plain(a, b) && b.halt == a.halt && NoNewCalls(a, b)
  {
    hide Ticked, Flushed, Picked, NextReady, NextEventTime;
    var m, n :|
      && Ticked(a, m, now) && Whole(m) && Flushed(m, n, address)
      && Whole(n) && c < |n.os.running| && PickedBy(n, b, c, picked, now, address);
    TickedPlain(a, m, now);
    FlushedPlain(m, n, address);
    if picked.Some? {
      var p := GivenOut(n.(os := Picked(n.os, c, picked.value)), picked.value);
      FlushedPlain(Armed(p, c, now, picked), b, address);
    }
  }

  lemma ContinuedPlain(a: Snap, b: Snap, c: nat, now: int, address: nat -> Word)
    requires Calling(a, c) && Continued(a, b, c, now, address)
    ensures Plain(a, b) && b.halt == a.halt && NoNewCalls(a, b)
  {
    hide Flushed, BlockOn, MakesWay, NextEventTime;
    if !MakesWay(a, c, now) {
      FlushedPlain(Armed(GivenOut(a, Caller(a, c)), c, now, Some(Caller(a, c))), b, address);
    }
  }

  /** The frame with which the thread on core `c` has entered the kernel. */
  ghost predicate Asks(a: Snap, e: Event, f: Trap) {
    e.Switch? && Calling(a, e.core) && f == a.trap[Caller(a, e.core)] && f.phase == Pending
  }

  lemma EnteredPlain(a: Snap, b: Snap, c: nat, env: Env, address: nat -> Word)
    requires Calling(a, c) && a.halt.None? && Entered(a, b, c, env, address)
    ensures b.halt.None? ==> NoNewCalls(a, b)
    ensures var f := a.trap[Caller(a, c)];
      && (b.interrupted != a.interrupted ==> f.phase == Pending && CallId(f) in {1, 20})
      && b.lines.disciplined == (a.lines.disciplined && !(f.phase == Pending && SpuriousReply(a.lines, f)))
  {
    hide CallId, Ticked, CallDone, Continued;
    var m, n :| EnteredBy(a, m, n, b, c, env, address);
    var f := a.trap[Caller(a, c)];
    TickedPlain(a, m, env.now);
    if f.phase == Pending {
      CallPlain(Serve(m, c, f), n, c, f, env, address);
    }
    if n.halt.None? && c < |n.os.running| && n.os.running[c].Some? {
      ContinuedPlain(n, b, c, env.now, address);
    }
  }

  /** A step in which the IRQ server, or whoever answers in its place, replies to a line not in flight. */
  ghost predicate Spurious(a: Snap, e: Event) {
    exists f :: Asks(a, e, f) && SpuriousReply(a.lines, f)
  }

  lemma StepPlain(a: Snap, b: Snap, e: Event, address: nat -> Word)
    requires Whole(a) && a.halt.None? && Stepped(a, b, e, address)
    ensures b.lines.disciplined == (a.lines.disciplined && !Spurious(a, e))
    ensures b.interrupted != a.interrupted ==> exists f :: Asks(a, e, f) && CallId(f) in {1, 20}
    ensures b.halt.None? ==>
      && |b.trap| == 32
      && forall t: Pid :: b.trap[t].phase == Pending ==> b.trap[t] == a.trap[t] || (e.Call? && b.trap[t].r0 == e.r0)
  {
    hide CallId, SpuriousReply, Entered, Scheduled;
    if e.Switch? && e.core < |a.os.running| {
      if a.os.running[e.core].Some? {
        var f := a.trap[Caller(a, e.core)];
        EnteredPlain(a, b, e.core, e.env, address);
        assert f.phase == Pending ==> Asks(a, e, f);
      } else {
        var picked :| Scheduled(a, b, e.core, picked, e.env.now, address);
        ScheduledPlain(a, b, e.core, picked, e.env.now, address);
      }
    }
  }

  /** Over every run the lines keep their discipline exactly as long as no reply to a line misses an
      event in flight. */
  lemma {:induction false} RunDiscipline(trace: seq<Snap>, events: seq<Event>, n: nat, address: nat -> Word)
    requires IsRun(trace, events, address) && n <= |events| && trace[0].lines.disciplined
    ensures trace[n].lines.disciplined <==>
      forall i :: 0 <= i < n && trace[i].halt.None? ==> !Spurious(trace[i], events[i])
  {
    hide Spurious, Stepped;
    if n > 0 {
      RunDiscipline(trace, events, n - 1, address);
      assert StepOrStop(trace[n - 1], trace[n - 1 + 1], events[n - 1], address);
      if trace[n - 1].halt.None? {
        StepPlain(trace[n - 1], trace[n], events[n - 1], address);
      }
    }
  }

  /** No thread makes a kill or signal call. */
  ghost predicate NoSignals(events: seq<Event>) {
    forall i :: 0 <= i < |events| && events[i].Call? ==> events[i].r0 % 256 !in {1, 20}
  }

  ghost predicate NoSignalPending(a: Snap) {
    |a.trap| == 32 && forall t: Pid :: a.trap[t].phase == Pending ==> CallId(a.trap[t]) !in {1, 20}
  }

  /** Without kill and signal calls no thread is ever taken out of a receive. */
  lemma {:induction false} RunWithoutSignals(trace: seq<Snap>, events: seq<Event>, n: nat, address: nat -> Word)
    requires IsRun(trace, events, address) && n <= |events| && NoSignals(events)
    requires trace[0].interrupted == {} && NoSignalPending(trace[0])
    ensures trace[n].interrupted == {} && (trace[n].halt.None? ==> NoSignalPending(trace[n]))
  {
    hide Spurious, Stepped;
    if n > 0 {
      RunWithoutSignals(trace, events, n - 1, address);
      assert StepOrStop(trace[n - 1], trace[n - 1 + 1], events[n - 1], address);
      if trace[n - 1].halt.None? {
        StepPlain(trace[n - 1], trace[n], events[n - 1], address);
      }
    }
  }

  /** The state at power-on, with the root thread ready and everything else at rest. */
  ghost predicate AtBoot(a: Snap, cores: nat) {
    && Whole(a) && a.halt.None? && a.interrupted == {} && !a.vid0 && (forall v :: v in a.index ==> 1 <= v < V.AUTO_LIMIT)
    && At(Boot(cores).rings, FreeRing) != [] && a.os == Created(Boot(cores), At(Boot(cores).rings, FreeRing)[0], 0)
    && (forall t: Pid :: a.trap[t].phase == Done) && (forall i :: 0 <= i < T.TIMERS ==> !a.timers[i].armed)
    && a.lines.disciplined && a.lines.masked == {}
    && (forall i :: 0 <= i < I.IRQS ==>
          !a.lines.queued[i] && !a.lines.inflight[i] && a.lines.latched[i] == a.lines.delivered[i] == 0)
  }

  lemma BootQuiet(a: Snap, cores: nat)
    requires AtBoot(a, cores)
    ensures a.halt.None? && a.interrupted == {} && a.lines.disciplined && NoSignalPending(a)
  {
    hide Boot, Created, At;
  }
}
