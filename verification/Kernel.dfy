/** The kernel: threads, ports, wait queues, joins, signals, timers, interrupts and the scheduler
    loop, one method per kernel routine. */
module Kernel {
  import opened Lists
  import opened KernelState
  import opened Syscalls
  import L = CallLaws
  import V = VidIndex
  import F = FutexTable
  import T = TimerTable
  import I = IrqTable

  class Kernel {
    var os: Sched                         // thread states, lists and running slots
    var detached: seq<bool>               // FLAG_DETACH
    var vid: seq<Word>
    var expired: seq<int>
    var exitCode: seq<Word>
    var trap: seq<Trap>
    var message: seq<Message>
    var signals: seq<bv32>                // pending signal bits; no call ever masks one
    var nextTick: seq<int>
    var vid0Assigned: bool
    var halt: Option<HaltReason>

    const vids: V.VidTable
    const futex: F.Table
    const timers: T.Table
    const irq: I.Table
    const eventAddress: nat -> Word       // where the event record of each interrupt line lies

    ghost var interrupted: set<Pid>       // threads a signal has ever taken out of a receive

    ghost predicate Columns()
      reads this, futex, timers
    {
      && Shaped(os)
      && |detached| == |vid| == |expired| == |exitCode| == |trap| == |message| == |signals| == 32
      && |nextTick| == |os.running|
      && |futex.keys| == F.SLOTS && |timers.timers| == T.TIMERS
    }

    ghost predicate Tables()
      reads vids, futex, timers, irq
    {
      vids.Valid() && futex.Valid() && timers.Valid() && irq.Valid()
    }

    /** What holds throughout a kernel routine. */
    ghost predicate Core()
      reads this, vids, futex, timers, irq
    {
      && Columns()
      && Homes(os) && Ports(os)
      && Tables()
      && Named(vids.index, vid, os.home)
      && Served(os.rings, timers.timers, futex.keys)
      && (0 in vids.index ==> vid0Assigned)
    }

    /** What holds between kernel routines.  While the IRQ server is blocked in a receive, every
        event it could be handed has its bit in the pending bitmap. */
    ghost predicate Valid()
      reads this, vids, futex, timers, irq
    {
      && Core()
      && Settled(os)
      && Receivers(os, interrupted)
      && (WaitsAs(os, vid, IRQ_SERVER_VID) ==> irq.Shaped() && irq.Announced())
    }

    /** noza_init: every thread is free and no core runs anything. */
    constructor (cores: nat, eventAddress: nat -> Word)
      ensures Valid() && halt.None? && interrupted == {}
      ensures fresh(vids) && fresh(futex) && fresh(timers) && fresh(irq)
      ensures os == Boot(cores) && |os.running| == cores && forall t: Pid :: os.home[t] == InRing(FreeRing)
      ensures this.eventAddress == eventAddress && vids.index == map[] && !vid0Assigned
      ensures |trap| == 32 && forall t: Pid :: trap[t].phase == Done
      ensures timers.ring == [] && timers.timers == seq(T.TIMERS, _ => T.UNUSED)
      ensures irq.disciplined && irq.masked == {} && irq.queued == irq.inflight == seq(I.IRQS, _ => false)
      ensures irq.latched == irq.delivered == seq(I.IRQS, _ => 0)
    {
      hide All, Homes, Ports, Boot, Shaped, Settled, Receivers, Named, Served, WaitsAs, At,
        V.VidTable.Valid, F.Table.Valid, T.Table.Valid, I.Table.Valid;
      vids := new V.VidTable();
      futex := new F.Table();
      timers := new T.Table();
      irq := new I.Table();
      this.eventAddress := eventAddress;
      os := Boot(cores);
      detached := All(32, false);
      vid := All(32, 0);
      expired := All(32, 0);
      exitCode := All(32, 0);
      trap := All(32, Trap(0, 0, 0, 0, Done));
      message := All(32, Message(0, 0, 0));
      signals := All(32, 0);
      nextTick := All(cores, 0);
      vid0Assigned, halt, interrupted := false, None, {};
      new;
      Booted(cores, vid, timers.timers, futex.keys);
    }

    /** The test with which noza_os_remove_thread begins, whatever the list. */
    method CheckState(r: RingId, t: Pid)
      requires Shaped(os)
      modifies `halt
      ensures halt == if os.state[t] == StateOf(r) then old(halt) else Some(WrongList)
      ensures (old(Core()) ==> Core()) && (old(Valid()) ==> Valid())
    {
      hide Homes, Ports, Named, Tables, Served, Receivers, WaitsAs, At;
      if os.state[t] != StateOf(r) {
        halt := Some(WrongList);
      }
    }

    /** noza_os_remove_thread */
    method RemoveThread(r: RingId, t: Pid)
      requires Core() && !IsQueue(r) && !r.SyncSleepRing? && !r.FreeRing?
      requires os.state[t] == StateOf(r) ==> t in At(os.rings, r)
      modifies `os, `halt
      ensures Core()
      ensures old(os).state[t] == StateOf(r) ==> os == Unlink(old(os), r, t) && halt == old(halt)
      ensures old(os).state[t] != StateOf(r) ==> os == old(os) && halt == Some(WrongList)
    {
      hide Homes, Ports, Named, Tables, Served;
      CheckState(r, t);
      if os.state[t] != StateOf(r) {
        return;
      }
      InRingAt(os, r, t);
      HomesUnlink(os, r, t);
      PortsUnlink(os, r, t);
      NamedMove(vids.index, vid, os.home, t, Limbo);
      ServedLess(os.rings, r, Without(At(os.rings, r), t), timers.timers, futex.keys);
      assert os.queue[t := None] == os.queue;
      os := os.(rings := Put(os.rings, r, Without(At(os.rings, r), t)), home := os.home[t := Limbo]);
    }

    /** noza_os_add_thread, for every list but the free list. */
    method AddThread(r: RingId, t: Pid)
      requires Core() && os.home[t].Limbo? && !os.timeout[t]
      requires !IsQueue(r) && !r.SyncSleepRing? && !r.FreeRing? && (r.ReadyRing? ==> r.priority == os.priority[t])
      requires MayLink(os, r, t)
      modifies `os
      ensures Core()
      ensures os == Link(old(os), r, t, Placed(At(old(os).rings, r), r, t, expired))
    {
      hide Homes, Ports, Named, Tables, Served, Placed, MayLink;
      var s := Placed(At(os.rings, r), r, t, expired);
      LimboNowhere(os, t, r);
      HomesLink(os, r, t, s);
      PortsLink(os, r, t, s);
      NamedMove(vids.index, vid, os.home, t, InRing(r));
      ServedLess(os.rings, r, s, timers.timers, futex.keys);
      assert os.queue[t := None] == os.queue;
      os := os.(rings := Put(os.rings, r, s), state := os.state[t := StateOf(r)], home := os.home[t := InRing(r)]);
    }

    /** noza_os_add_thread with the free list: the thread also gives up its vid. */
    method AddFree(t: Pid)
      requires Core() && os.home[t].Limbo? && !os.timeout[t] && MayLink(os, FreeRing, t)
      modifies `os, `vid, vids
      ensures Core() && vids.nextId == old(vids.nextId)
      ensures os == TailLink(old(os), FreeRing, t)
      ensures vid == old(vid)[t := 0] && vids.index == old(vids.index) - {old(vid)[t]}
    {
      hide Homes, Ports, Named, Served, MayLink, V.VidTable.Valid, F.Table.Valid, T.Table.Valid, I.Table.Valid;
      var s := At(os.rings, FreeRing) + [t];
      NamedFree(vids.index, vid, os.home, t);
      LimboNowhere(os, t, FreeRing);
      HomesLink(os, FreeRing, t, s);
      PortsLink(os, FreeRing, t, s);
      ServedLess(os.rings, FreeRing, s, timers.timers, futex.keys);
      assert os.queue[t := None] == os.queue;
      os := os.(rings := Put(os.rings, FreeRing, s), state := os.state[t := Free], home := os.home[t := InRing(FreeRing)]);
      vids.Remove(t, vid[t]);
      vid := vid[t := 0];
    }

    /** Marks, for the proof only, that the running thread is about to be put elsewhere. */
    method LeaveCore(core: nat)
      requires Core() && core < |os.running| && os.running[core].Some? && os.leaving.None?
      modifies `os
      ensures Core() && os == Depart(old(os), core)
    {
      hide Homes, Ports, Named, Tables;
      RunningHome(os, core);
      HomesDepart(os, core);
      NamedMove(vids.index, vid, os.home, os.running[core].value, Limbo);
      os := os.(home := os.home[os.running[core].value := Limbo], leaving := Some(core));
    }

    /** noza_os_clear_running_thread */
    method ClearRunning(core: nat)
      requires Core() && core < |os.running| && os.leaving == Some(core)
      modifies `os
      ensures Core() && os == ClearCore(old(os), core)
    {
      hide Homes, Ports, Named, Tables;
      HomesClearCore(os, core);
      os := os.(running := os.running[core := None], leaving := None);
    }

    /** The port of a thread that is not blocked in a receive stops being ready. */
    method PortListen(t: Pid)
      requires Core() && os.home[t] != InRing(WaitRing)
      modifies `os
      ensures Core() && os == SetPort(old(os), t, WaitListen)
    {
      hide Homes, Ports, Named, Tables;
      PortsListen(os, t);
      os := os.(port := os.port[t := WaitListen]);
    }

    /** The running thread of this core goes to the tail of a list. */
    method Block(core: nat, r: RingId)
      requires Core() && core < |os.running| && os.running[core].Some? && os.leaving.None?
      requires !IsQueue(r) && !r.SyncSleepRing? && !r.FreeRing? && !r.SleepRing?
      requires r.ReadyRing? ==> r.priority == os.priority[os.running[core].value]
      requires MayLink(Depart(os, core), r, os.running[core].value)
      modifies `os
      ensures Core() && os == BlockOn(old(os), core, r)
    {
      hide Homes, Ports, Named, Tables, Served, MayLink, At, Put, Placed;
      RunningHome(os, core);
      var t := os.running[core].value;
      LeaveCore(core);
      AddThread(r, t);
      ClearRunning(core);
    }

    /** noza_os_change_state from a list to the ready list of the thread's priority. */
    method WakeListed(r: RingId, t: Pid)
      requires Core() && os.home[t] == InRing(r) && !IsQueue(r) && !r.ReadyRing? && !r.FreeRing?
      modifies `os, `halt
      ensures Core() && halt == old(halt) && os == WakeOne(old(os), t)
    {
      hide Homes, Ports, Named, Tables, Served, At, Put, Placed, Without;
      BlockedAt(os, t);
      NotTimed(os, t);
      RemoveThread(r, t);
      AddThread(ReadyRing(os.priority[t]), t);
    }

    /** The receiver's half of a send: out of the wait list and ready. */
    method Deliver(target: Pid, sender: Word, msg: Word, size: Word)
      requires Core() && os.home[target] == InRing(WaitRing)
      modifies `os, `trap, `halt
      ensures Core() && halt == old(halt) && trap == old(trap)[target := Ret4(0, sender, msg, size)]
      ensures os == Handed(old(os), target)
    {
      hide Homes, Ports, Named, Tables, Served, At, Put, Without, Placed;
      StateTellsHome(os, target);
      NotTimed(os, target);
      RemoveThread(WaitRing, target);
      AddThread(ReadyRing(os.priority[target]), target);
      trap := trap[target := Ret4(0, sender, msg, size)];
      PortListen(target);
    }

    /** The sender's half of a send: off its core and on the reply list of the target. */
    method AwaitReply(core: nat, target: Pid)
      requires Core() && Settled(os) && core < |os.running| && os.running[core].Some? && !Dead(os, target)
      modifies `os
      ensures Core() && os == TailLink(Depart(old(os), core), ReplyRing(target), old(os).running[core].value)
    {
      hide Homes, Ports, Named, Tables, Served, At, Put, Without, Placed;
      var t := os.running[core].value;
      RunningHome(os, core);
      LeaveCore(core);
      AddThread(ReplyRing(target), t);
    }

    /** The send to a ready port. */
    method Meet(core: nat, target: Pid, msg: Word, size: Word)
      requires Core() && Settled(os) && core < |os.running| && os.running[core].Some? && halt.None?
      requires os.port[target].PortReady? && !Dead(os, target)
      modifies `os, `trap, `halt
      ensures old(os).state[target] == WaitingMsg ==>
        && Core() && halt.None? && os == Rendezvous(old(os), core, target)
        && trap == old(trap)[target := Ret4(0, vid[old(os).running[core].value], msg, size)]
      ensures old(os).state[target] != WaitingMsg ==> halt == Some(SendNotWaiting)
    {
      hide Homes, Ports, Named, Tables, Served, At, Put, Without, Placed;
      var t := os.running[core].value;
      StateTellsHome(os, target);
      RunningHome(os, core);
      AwaitReply(core, target);
      if os.state[target] != WaitingMsg {
        halt := Some(SendNotWaiting);
        return;
      }
      Deliver(target, vid[t], msg, size);
      ClearRunning(core);
    }

    method SetMessage(t: Pid, m: Message)
      requires Valid()
      modifies `message
      ensures Valid() && message == old(message)[t := m]
    {
      hide Homes, Ports, Named, Tables, Served, At, Put, Without, Placed, Receivers, WaitsAs;
      message := message[t := m];
    }

    method MeetReady(core: nat, target: Pid, msg: Word, size: Word)
      requires Valid() && core < |os.running| && os.running[core].Some? && halt.None?
      requires os.port[target].PortReady? && !Dead(os, target)
      modifies `os, `trap, `halt
      ensures old(os).state[target] == WaitingMsg ==>
        && Valid() && halt.None? && os == Rendezvous(old(os), core, target)
        && trap == old(trap)[target := Ret4(0, vid[old(os).running[core].value], msg, size)]
      ensures old(os).state[target] != WaitingMsg ==> halt == Some(SendNotWaiting) && target in interrupted
    {
      hide Homes, Ports, Named, Tables, Served, At, Put, Without, Placed, Calm, WaitsAs, Rendezvous, Receivers;
      ghost var k := os;
      StateTellsHome(k, target);
      Meet(core, target, msg, size);
      if halt.Some? {
        ReadyPort(k, interrupted, target);
        return;
      }
      RendezvousCalm(k, core, target);
      CalmKeeps(k, os, interrupted, vid, IRQ_SERVER_VID);
    }

    method BlockOnPort(core: nat, target: Pid)
      requires Valid() && core < |os.running| && os.running[core].Some?
      requires os.port[target].WaitListen? && !Dead(os, target)
      modifies `os
      ensures Valid() && os == BlockOn(old(os), core, PendingRing(target))
    {
      hide Homes, Ports, Named, Tables, Served, At, Put, Without, Placed, Calm, WaitsAs, BlockOn, Receivers;
      ghost var k := os;
      RunningHome(k, core);
      Block(core, PendingRing(target));
      BlockOnCalm(k, core, PendingRing(target));
      CalmKeeps(k, os, interrupted, vid, IRQ_SERVER_VID);
    }

    /** noza_os_send.  The one panic needs a target that a signal took out of a receive. */
    method Send(core: nat, target: Pid, msg: Word, size: Word)
      requires Valid() && core < |os.running| && os.running[core].Some? && halt.None?
      modifies `os, `trap, `message, `halt
      ensures halt.None? ==> Valid()
      ensures old(os).state[target] in {Free, Zombie} ==>
        && os == old(os) && message == old(message) && halt.None?
        && trap == old(trap)[old(os).running[core].value := Ret1(ESRCH)]
      ensures old(os).state[target] !in {Free, Zombie} ==>
        message == old(message)[old(os).running[core].value := Message(vid[target], msg, size)]
      ensures old(os).state[target] !in {Free, Zombie} && old(os).port[target].WaitListen? ==>
        os == BlockOn(old(os), core, PendingRing(target)) && trap == old(trap) && halt.None?
      ensures old(os).port[target].PortReady? && old(os).state[target] == WaitingMsg ==>
        && os == Rendezvous(old(os), core, target) && halt.None?
        && trap == old(trap)[target := Ret4(0, vid[old(os).running[core].value], msg, size)]
      ensures halt.Some? <==> old(os).port[target].PortReady? && old(os).state[target] != WaitingMsg
      ensures halt.Some? ==> halt.value == SendNotWaiting && target in interrupted
    {
      hide Valid, Core, Homes, Ports, At, Rendezvous, BlockOn;
      Known();
      var t := os.running[core].value;
      StateTellsHome(os, target);
      if os.state[target] == Free || os.state[target] == Zombie {
        DeadPort(os, target);
        SetReturn(t, Ret1(ESRCH));
        return;
      }
      SetMessage(t, Message(vid[target], msg, size));
      match os.port[target] {
        case PortReady => MeetReady(core, target, msg, size);
        case WaitListen => BlockOnPort(core, target);
      }
    }

    /** noza_os_nonblock_send */
    method NonblockSend(core: nat, target: Pid, msg: Word, size: Word)
      requires Valid() && core < |os.running| && os.running[core].Some? && halt.None?
      modifies `os, `trap, `message, `halt
      ensures halt.None? ==> Valid()
      ensures old(os).port[target].WaitListen? ==>
        && os == old(os) && message == old(message) && halt.None?
        && trap == old(trap)[old(os).running[core].value := Ret1(EAGAIN)]
      ensures old(os).port[target].PortReady? && old(os).state[target] == WaitingMsg ==>
        && os == Rendezvous(old(os), core, target) && halt.None?
        && message == old(message)[old(os).running[core].value := Message(vid[target], msg, size)]
        && trap == old(trap)[target := Ret4(0, vid[old(os).running[core].value], msg, size)]
      ensures halt.Some? <==> old(os).port[target].PortReady? && old(os).state[target] != WaitingMsg
      ensures halt.Some? ==> halt.value == SendNotWaiting && target in interrupted
    {
      hide Valid, Core, Homes, Ports, At, Rendezvous, BlockOn;
      Known();
      StateTellsHome(os, target);
      if os.port[target].PortReady? {
        Send(core, target, msg, size);
      } else {
        SetReturn(os.running[core].value, Ret1(EAGAIN));
      }
    }

    /** noza_os_recv: the oldest pending sender is served, with exactly the message it sent; with
        none the thread blocks and its port becomes ready. */
    method Recv(core: nat)
      requires Valid() && core < |os.running| && os.running[core].Some? && halt.None?
      requires vid[os.running[core].value] == IRQ_SERVER_VID ==>
        At(os.rings, PendingRing(os.running[core].value)) != [] || (irq.Shaped() && irq.Announced())
      modifies `os, `trap, `halt
      ensures Valid() && halt.None?
      ensures old(Calling(Now(), core)) && PortReceived(old(Now()), Now(), core)
    {
      hide Valid, Core, Homes, Ports, At, Accept, Listen, WaitsAs;
      KnownCall(core);
      var t := os.running[core].value;
      if At(os.rings, PendingRing(t)) != [] {
        var source := At(os.rings, PendingRing(t))[0];
        SetReturn(t, Ret4(0, vid[source], message[source].ptr, message[source].size));
        AcceptNext(core);
      } else {
        BeginListen(core);
      }
    }

    /** The oldest pending sender of the running thread moves to its reply list. */
    method AcceptNext(core: nat)
      requires Valid() && core < |os.running| && os.running[core].Some?
      requires At(os.rings, PendingRing(os.running[core].value)) != []
      modifies `os, `halt
      ensures Valid() && halt == old(halt) && os == Accept(old(os), old(os).running[core].value)
    {
      hide Homes, Ports, Named, Tables, Served, At, Put, Without, Placed, Calm, WaitsAs, Receivers;
      ghost var k := os;
      var t := os.running[core].value;
      RunningHome(os, core);
      var source := At(os.rings, PendingRing(t))[0];
      InRingAt(os, PendingRing(t), source);
      NotTimed(os, source);
      RemoveThread(PendingRing(t), source);
      AddThread(ReplyRing(t), source);
      AcceptCalm(k, t);
      CalmKeeps(k, os, interrupted, vid, IRQ_SERVER_VID);
    }

    /** The running thread blocks in a receive. */
    method BeginListen(core: nat)
      requires Valid() && core < |os.running| && os.running[core].Some?
      requires At(os.rings, PendingRing(os.running[core].value)) == []
      requires vid[os.running[core].value] == IRQ_SERVER_VID ==> irq.Shaped() && irq.Announced()
      modifies `os
      ensures Valid() && os == Listen(old(os), core)
    {
      hide Homes, Ports, Named, Tables, Served, At, Put, Without, Placed, Calm, WaitsAs, Receivers;
      ghost var k := os;
      var t := os.running[core].value;
      RunningHome(os, core);
      PortsReady(os, t);
      os := os.(port := os.port[t := PortReady]);
      Block(core, WaitRing);
      ListenKeeps(k, core, interrupted, vid, IRQ_SERVER_VID);
    }

    /** noza_os_nonblock_recv */
    method NonblockRecv(core: nat)
      requires Valid() && core < |os.running| && os.running[core].Some? && halt.None?
      modifies `os, `trap, `halt
      ensures Valid() && halt.None?
      ensures old(Calling(Now(), core)) && Polled(old(Now()), Now(), core)
    {
      hide Valid, Core, Homes, Ports, At, AcceptedFirst, Listen;
      KnownCall(core);
      var t := os.running[core].value;
      if At(os.rings, PendingRing(t)) != [] {
        Recv(core);
      } else {
        SetReturn(t, Ret1(EAGAIN));
      }
    }

    /** noza_os_reply.  The caller must be on the reply list; an empty list, which the routine
        does not test for, counts as not being on it. */
    method Reply(core: nat, v: Word, msg: Word, size: Word)
      requires Valid() && core < |os.running| && os.running[core].Some? && halt.None?
      modifies `os, `trap, `halt, `interrupted
      ensures (halt.None? ==> Valid()) && interrupted == old(interrupted)
      ensures var t := old(os).running[core].value;
        && (old(os).port[t].PortReady? ==> halt == Some(ReplyPortReady) && t in interrupted)
        && (old(os).port[t].WaitListen? ==>
              if v in vids.index && vids.index[v] in At(old(os).rings, ReplyRing(t)) then
                && halt.None? && os == WakeOne(old(os), vids.index[v])
                && trap == old(trap)[vids.index[v] := Ret3(0, msg, size)][t := Ret1(0)]
              else halt == Some(ReplyNotListed))
    {
      hide Homes, Ports, Named, Tables, Served, At, Put, Without, Placed, Calm, WaitsAs, Receivers, WakeOne;
      var t := os.running[core].value;
      RunningHome(os, core);
      if !os.port[t].WaitListen? {
        ReadyPort(os, interrupted, t);
        halt := Some(ReplyPortReady);
        return;
      }
      var list := At(os.rings, ReplyRing(t));
      var i := 0;
      while i < |list| && vid[list[i]] != v
        invariant i <= |list|
        invariant forall j :: 0 <= j < i ==> vid[list[j]] != v
      {
        i := i + 1;
      }
      NamedList(vids.index, vid, os, ReplyRing(t));
      if i == |list| {
        halt := Some(ReplyNotListed);
        return;
      }
      var u := list[i];
      InRingAt(os, ReplyRing(t), u);
      Resume(ReplyRing(t), u);
      SetReturn(u, Ret3(0, msg, size));
      SetReturn(t, Ret1(0));
    }

    /** One of the two drain loops of noza_release_waiters_from_port: list `r` is emptied after
        the threads `pre` have been woken. */
    method ReleaseFrom(r: RingId, ghost pre: seq<Pid>, error: Word, ghost k: Sched)
      requires Core() && Shaped(k) && Homes(k) && Ports(k) && os == WakeAll(k, pre)
      requires r.PendingRing? || r.ReplyRing?
      requires NoDup(pre + At(k.rings, r)) && forall u :: u in pre + At(k.rings, r) ==> Blocked(k, u)
      modifies `os, `trap, `halt
      ensures Core() && halt == old(halt) && os == WakeAll(k, pre + At(k.rings, r))
      ensures trap == Answered(old(trap), At(k.rings, r), Ret1(error))
    {
      hide Homes, Ports, Named, Tables, Served, At, Put, Without, Placed, WakeAll, WakeOne, Blocked, Answered;
      ghost var w := At(k.rings, r);
      ghost var i := 0;
      assert pre + w[..0] == pre;
      Drained(k, r, pre, 0);
      AnsweredNone(trap, Ret1(error));
      while At(os.rings, r) != []
        invariant Core() && halt == old(halt) && i <= |w| && os == WakeAll(k, pre + w[..i])
        invariant At(os.rings, r) == w[i..]
        invariant trap == Answered(old(trap), w[..i], Ret1(error))
        decreases |w| - i
      {
        var u := At(os.rings, r)[0];
        AnsweredSnoc(old(trap), w[..i], u, Ret1(error));
        WakeAllSnoc(k, pre + w[..i], u);
        assert w[..i] + [u] == w[..i + 1] && pre + w[..i] + [u] == pre + w[..i + 1];
        trap := trap[u := Ret1(error)];
        InRingAt(os, r, u);
        WakeListed(r, u);
        i := i + 1;
        Drained(k, r, pre, i);
      }
      assert w[..i] == w;
    }

    /** noza_release_waiters_from_port: every pending sender, then every sender awaiting a reply,
        becomes ready with the error, in list order. */
    method ReleaseWaitersFromPort(t: Pid, error: Word)
      requires Core()
      modifies `os, `trap, `halt
      ensures Core() && halt == old(halt) && os == WakeAll(old(os), PortWaiters(old(os), t))
      ensures trap == Answered(old(trap), PortWaiters(old(os), t), Ret1(error))
    {
      hide Homes, Ports, Named, Tables, Served, At, Put, Without, Placed, WakeAll, WakeOne, Answered;
      ghost var k := os;
      ghost var a, b := At(os.rings, PendingRing(t)), At(os.rings, ReplyRing(t));
      PortWaitersBlocked(k, t);
      WakeAllNone(k);
      assert [] + a == a;
      DisjointParts(a, b);
      AnsweredBoth(trap, a, b, Ret1(error));
      ReleaseFrom(PendingRing(t), [], error, k);
      ReleaseFrom(ReplyRing(t), a, error, k);
    }

    /** noza_wait_queue_remove */
    method WaitQueueRemove(t: Pid)
      requires Core() && os.queue[t].Some? && !os.home[t].Limbo?
      modifies `os
      ensures Core() && os == Unlink(old(os), old(os).queue[t].value, t)
      ensures old(os).state[t] == WaitingSync
    {
      hide Homes, Ports, Named, Tables, Served;
      StateTellsHome(os, t);
      var q := os.queue[t].value;
      HomesUnlink(os, q, t);
      PortsUnlink(os, q, t);
      NamedMove(vids.index, vid, os.home, t, Limbo);
      ServedLess(os.rings, q, Without(At(os.rings, q), t), timers.timers, futex.keys);
      os := os.(rings := Put(os.rings, q, Without(At(os.rings, q), t)), queue := os.queue[t := None],
                home := os.home[t := Limbo]);
    }

    /** noza_wait_queue_cancel_timeout */
    method CancelWait(t: Pid)
      requires Core() && os.home[t].Limbo? && os.state[t] == WaitingSync
      modifies `os
      ensures Core() && os == CancelTimeout(old(os), t)
    {
      hide Homes, Ports, Named, Tables, Served;
      HomesCancelTimeout(os, t);
      ServedLess(os.rings, SyncSleepRing, Without(At(os.rings, SyncSleepRing), t), timers.timers, futex.keys);
      if os.timeout[t] && os.state[t] == WaitingSync {
        os := os.(rings := Put(os.rings, SyncSleepRing, Without(At(os.rings, SyncSleepRing), t)),
                  timeout := os.timeout[t := false]);
      }
    }

    /** A thread leaves its wait queue for the ready list. */
    method WakeQueued(t: Pid)
      requires Core() && os.queue[t].Some? && !os.home[t].Limbo?
      modifies `os
      ensures Core() && os == WakeOne(old(os), t)
    {
      hide Homes, Ports, Named, Tables, Served, At, Put, Without, Placed;
      StateTellsHome(os, t);
      WaitQueueRemove(t);
      CancelWait(t);
      AddThread(ReadyRing(os.priority[t]), t);
    }

    /** noza_wait_queue_wake: the oldest `count` waiters, or all of them if there are fewer. */
    method WaitQueueWake(q: RingId, count: Word, result: Word) returns (woke: nat, ghost woken: seq<Pid>)
      requires Core() && IsQueue(q)
      modifies `os, `trap
      ensures Core() && woke == |woken|
      ensures woken == var w := At(old(os).rings, q); w[..if count <= |w| then count else |w|]
      ensures os == WakeAll(old(os), woken) && At(os.rings, q) == At(old(os).rings, q)[woke..]
      ensures trap == Answered(old(trap), woken, Ret1(result))
    {
      hide Homes, Ports, Named, Tables, Served, At, Put, Without, Placed, WakeAll, WakeOne, Blocked, Answered;
      ghost var k := os;
      ghost var w := At(k.rings, q);
      WakeAllNone(k);
      AnsweredNone(trap, Ret1(result));
      woke := 0;
      woken := [];
      while At(os.rings, q) != [] && woke < count
        invariant Core() && woke <= |w| && woke <= count && woken == w[..woke] && os == WakeAll(k, woken)
        invariant At(os.rings, q) == w[woke..]
        invariant trap == Answered(old(trap), woken, Ret1(result))
        decreases |w| - woke
      {
        var u := At(os.rings, q)[0];
        AnsweredSnoc(old(trap), woken, u, Ret1(result));
        WakeAllSnoc(k, woken, u);
        InRingAt(os, q, u);
        WakeQueued(u);
        trap := trap[u := Ret1(result)];
        woken := woken + [u];
        woke := woke + 1;
        QueueDrained(k, q, woke);
      }
    }

    /** noza_wait_queue_enqueue */
    method Enqueue(q: RingId, t: Pid)
      requires Core() && IsQueue(q) && os.home[t].Limbo? && !os.timeout[t]
      requires q.TimerRing? ==> q.index < T.TIMERS && timers.timers[q.index].inUse
      requires q.FutexRing? ==> q.slot < F.SLOTS && futex.keys[q.slot].Some?
      modifies `os
      ensures Core() && os == TailLink(old(os), q, t)
    {
      hide Homes, Ports, Named, Tables;
      var s := At(os.rings, q) + [t];
      LimboNowhere(os, t, q);
      HomesLink(os, q, t, s);
      PortsLink(os, q, t, s);
      NamedMove(vids.index, vid, os.home, t, InRing(q));
      os := os.(rings := Put(os.rings, q, s), state := os.state[t := WaitingSync], queue := os.queue[t := Some(q)],
                home := os.home[t := InRing(q)]);
    }

    method StartTimeout(t: Pid)
      requires Core() && !os.timeout[t] && os.home[t].InRing? && IsQueue(os.home[t].ring)
      modifies `os
      ensures Core() && os == SetTimeout(old(os), t)
    {
      hide Homes, Ports, Named, Tables, Served;
      HomesSetTimeout(os, t);
      BlockedAt(os, t);
      ServedLess(os.rings, SyncSleepRing, At(os.rings, SyncSleepRing) + [t], timers.timers, futex.keys);
      os := os.(rings := Put(os.rings, SyncSleepRing, At(os.rings, SyncSleepRing) + [t]),
                timeout := os.timeout[t := true], state := os.state[t := WaitingSync]);
      assert old(os).state[t := WaitingSync] == old(os).state;
    }

    method EnterQueue(core: nat, q: RingId)
      requires Core() && Settled(os) && core < |os.running| && os.running[core].Some? && IsQueue(q)
      requires q.TimerRing? ==> q.index < T.TIMERS && timers.timers[q.index].inUse
      requires q.FutexRing? ==> q.slot < F.SLOTS && futex.keys[q.slot].Some?
      modifies `os
      ensures Core() && os == TailLink(Depart(old(os), core), q, old(os).running[core].value)
    {
      hide Homes, Ports, Named, Tables, Served, At, Put, Without, Placed;
      var t := os.running[core].value;
      RunningHome(os, core);
      LeaveCore(core);
      Enqueue(q, t);
    }

    /** noza_wait_queue_sleep.  Its callers pass either "for ever" or a timeout that is not negative. */
    method WaitQueueSleep(core: nat, q: RingId, wait: Option<nat>, now: int) returns (rc: Word)
      requires Valid() && core < |os.running| && os.running[core].Some?
      requires IsQueue(q)
      requires q.TimerRing? ==> q.index < T.TIMERS && timers.timers[q.index].inUse
      requires q.FutexRing? ==> q.slot < F.SLOTS && futex.keys[q.slot].Some?
      modifies `os, `expired
      ensures Valid()
      ensures wait == Some(0) ==> rc == ETIMEDOUT && os == old(os) && expired == old(expired)
      ensures wait != Some(0) ==>
        && rc == 0 && os == WaitOn(old(os), core, q, wait.Some?)
        && expired == (if wait.Some? then old(expired)[old(os).running[core].value := now + wait.value] else old(expired))
    {
      hide Homes, Ports, Named, Tables, Served, At, Put, Without, Placed, Calm, WaitsAs, Receivers;
      if wait == Some(0) {
        return ETIMEDOUT;
      }
      ghost var k := os;
      var t := os.running[core].value;
      RunningHome(os, core);
      EnterQueue(core, q);
      if wait.Some? {
        expired := expired[t := now + wait.value];
        StartTimeout(t);
      }
      ClearRunning(core);
      WaitOnCalm(k, core, q, wait.Some?);
      CalmKeeps(k, os, interrupted, vid, IRQ_SERVER_VID);
      return 0;
    }

    ghost function Now(): Snap
      reads this, vids, futex, timers, irq
    {
      Snap(os, trap, message, vid, vids.index, vid0Assigned, detached, expired, exitCode, signals, futex.keys,
           timers.timers, timers.nextSeq, irq.State(), nextTick, halt, interrupted)
    }

    lemma KnownWhole()
      requires Valid()
      ensures Whole(Now()) && Columns()
    {
      hide Homes, Ports, Settled, Named, Served, Receivers, WaitsAs, V.VidTable.Valid, F.Table.Valid, T.Table.Valid;
    }

    /** Every law about the calls holds of every state between kernel routines. */
    lemma KnownSane()
      requires Valid()
      ensures L.Sane(Now()) && F.Probing(futex.keys)
    {
      hide Homes, Ports, Settled, Named, Served, Receivers, WaitsAs, F.Probing;
    }

    lemma KnownCall(core: nat)
      requires Valid() && core < |os.running| && os.running[core].Some?
      ensures Calling(Now(), core) && Homes(os) && Ports(os) && Settled(os) && Columns()
    {
      hide Homes, Ports, Settled, Named, Served, Receivers, WaitsAs, V.VidTable.Valid, F.Table.Valid, T.Table.Valid;
    }

    lemma Known()
      requires Valid()
      ensures Columns() && Homes(os) && Ports(os) && Settled(os)
    {
    }

    method SetReturn(t: Pid, ret: Trap)
      requires Valid()
      modifies `trap
      ensures Valid() && trap == old(trap)[t := ret]
    {
      hide Homes, Ports, Named, Tables, Served, At, Put, Without, Placed, Receivers, WaitsAs;
      trap := trap[t := ret];
    }

    /** A blocked thread becomes ready; taking it out of a receive leaves its port marked ready. */
    method Resume(r: RingId, t: Pid)
      requires Valid() && os.home[t] == InRing(r) && !r.FreeRing? && !r.ReadyRing?
      modifies `os, `halt, `interrupted
      ensures Valid() && halt == old(halt) && os == WakeOne(old(os), t)
      ensures interrupted == if r.WaitRing? then old(interrupted) + {t} else old(interrupted)
    {
      hide Homes, Ports, Named, Tables, Served, At, Put, Without, Placed, WakeOne, Receivers, WaitsAs;
      WakeOneSettles(os, t, interrupted, vid, IRQ_SERVER_VID);
      BlockedAt(os, t);
      if r.WaitRing? {
        interrupted := interrupted + {t};
      }
      if IsQueue(r) {
        WakeQueued(t);
      } else {
        WakeListed(r, t);
      }
    }

    /** noza_signal_interrupt_thread: only a thread that waits, receives or sleeps is interrupted. */
    method Interrupt(target: Pid)
      requires Valid()
      modifies `os, `trap, `halt, `interrupted
      ensures Valid() && halt == old(halt)
      ensures old(Whole(Now())) && Now() == Interrupted(old(Now()), target)
    {
      hide Valid, Core, Homes, Ports, WakeOne, At;
      Known();
      KnownWhole();
      StateTellsHome(os, target);
      match os.state[target] {
        case WaitingSync => Resume(os.queue[target].value, target);
        case WaitingMsg => Resume(WaitRing, target);
        case Sleep => Resume(SleepRing, target);
        case _ => return;
      }
      SetReturn(target, Ret1(EINTR));
    }

    method PostSignal(target: Pid, signum: Word)
      requires Valid() && 1 <= signum <= 32
      modifies `signals
      ensures Valid() && signals == old(signals)[target := WithSignal(old(signals)[target], signum)]
    {
      hide Homes, Ports, Named, Tables, Served, At, Put, Without, Placed, Receivers, WaitsAs, WithSignal;
      signals := signals[target := WithSignal(signals[target], signum)];
    }

    /** noza_signal_send_thread */
    method SignalSend(target: Pid, signum: Word)
      requires Valid()
      modifies `os, `trap, `halt, `interrupted, `signals
      ensures Valid() && halt == old(halt)
      ensures old(Whole(Now())) && Now() == if 1 <= signum <= 32 then SignalSent(old(Now()), target, signum) else old(Now())
    {
      hide Valid, Core, Homes, Ports, At, WakeOne, WithSignal, Interrupted;
      KnownWhole();
      if signum == 0 || signum > 32 {
        return;
      }
      PostSignal(target, signum);
      Interrupt(target);
    }

    /** noza_find_port_wait_owner */
    method FindPortWaitOwner(target: Pid) returns (r: Option<RingId>)
      ensures r.Some? ==> (r.value.PendingRing? || r.value.ReplyRing?) && target in At(os.rings, r.value)
      ensures r.None? ==> forall o: Pid :: target !in At(os.rings, PendingRing(o)) && target !in At(os.rings, ReplyRing(o))
    {
      hide At;
      for i := 0 to 32
        invariant forall o: Pid :: o < i ==> target !in At(os.rings, PendingRing(o)) && target !in At(os.rings, ReplyRing(o))
      {
        var found := OnList(At(os.rings, PendingRing(i)), target);
        if found {
          return Some(PendingRing(i));
        }
        found := OnList(At(os.rings, ReplyRing(i)), target);
        if found {
          return Some(ReplyRing(i));
        }
      }
      return None;
    }

    /** noza_find_join_owner */
    method FindJoinOwner(joiner: Pid) returns (r: Option<Pid>)
      requires Shaped(os)
      ensures r.Some? ==> os.joiner[r.value] == Some(joiner)
      ensures r.None? ==> forall o: Pid :: os.joiner[o] != Some(joiner)
    {
      for i := 0 to 32
        invariant forall o: Pid :: o < i ==> os.joiner[o] != Some(joiner)
      {
        if os.joiner[i] == Some(joiner) {
          return Some(i);
        }
      }
      return None;
    }

    /** Ends a join: the waiting thread is no longer linked from `o`. */
    method DropJoin(o: Pid)
      requires Core() && os.joiner[o].Some?
      modifies `os
      ensures Core() && os == Unjoin(old(os), o)
    {
      hide Homes, Ports, Named, Tables, Served;
      HomesUnjoin(os, o);
      JoinerHome(os, o);
      NamedMove(vids.index, vid, os.home, os.joiner[o].value, Limbo);
      os := os.(joiner := os.joiner[o := None], home := os.home[os.joiner[o].value := Limbo]);
    }

    /** noza_detach_blocked_thread: the target leaves wherever it is, unless it runs on another
        core or is dead already. */
    method DetachBlocked(core: nat, target: Pid) returns (rc: Word)
      requires Valid() && core < |os.running|
      modifies `os, `expired, `halt
      ensures Core() && halt == old(halt)
      ensures rc == (if old(os).state[target] in {Free, Zombie} then ESRCH
                     else if old(os).state[target] == Running && old(os).running[core] != Some(target) then EBUSY
                     else 0)
      ensures rc != 0 ==> os == old(os) && expired == old(expired)
      ensures rc == 0 ==>
        && Detachable(old(os), target) && os == Detach(old(os), target) && os.home[target].Limbo? && !os.timeout[target]
        && expired == if old(os).state[target] == Sleep then old(expired)[target := 0] else old(expired)
    {
      hide Homes, Ports, Named, Tables, Served, At, Put, Without, Placed, WaitsAs, Receivers;
      StateTellsHome(os, target);
      NotTimedIf(os, target);
      rc := 0;
      match os.state[target] {
        case Ready => RemoveThread(ReadyRing(os.priority[target]), target);
        case WaitingMsg => RemoveThread(WaitRing, target);
        case WaitingSync =>
          WaitQueueRemove(target);
          CancelWait(target);
        case Sleep =>
          RemoveThread(SleepRing, target);
          expired := expired[target := 0];
        case WaitingRead =>
          rc := DetachFromPort(target);
        case WaitingReply =>
          rc := DetachFromPort(target);
        case PendingJoin =>
          var owner := FindJoinOwner(target);
          JoinOwnerUnique(os, target);
          DropJoin(owner.value);
        case Stopped => RemoveThread(StoppedRing, target);
        case Running =>
          if os.running[core] != Some(target) {
            return EBUSY;
          }
          OnThisCore(os, core, target);
          LeaveCore(core);
        case _ =>
          return ESRCH;
      }
    }

    method DetachFromPort(target: Pid) returns (rc: Word)
      requires Core() && os.home[target].InRing? && (os.home[target].ring.PendingRing? || os.home[target].ring.ReplyRing?)
      modifies `os, `halt
      ensures Core() && halt == old(halt) && rc == 0
      ensures os == Unlink(old(os), old(os).home[target].ring, target)
    {
      hide Homes, Ports, Named, Tables, Served, At, Put, Without, Placed;
      BlockedAt(os, target);
      var wait := FindPortWaitOwner(target);
      if wait.None? {
        return ESRCH;
      }
      InRingAt(os, wait.value, target);
      RemoveThread(wait.value, target);
      return 0;
    }

    /** noza_release_join_waiter */
    method ReleaseJoinWaiter(t: Pid)
      requires Core() && os.joiner[t].Some?
      modifies `os, `trap
      ensures var j := old(os).joiner[t].value;
        && Core() && os == TailLink(Unjoin(old(os), t), ReadyRing(old(os).priority[j]), j)
        && trap == old(trap)[j := Ret2(0, exitCode[t])]
    {
      hide Homes, Ports, Named, Tables, Served, At, Put, Without, Placed;
      var j := os.joiner[t].value;
      JoinerHome(os, t);
      NotTimed(os, j);
      DropJoin(t);
      AddThread(ReadyRing(os.priority[j]), j);
      trap := trap[j := Ret2(0, exitCode[t])];
    }

    /** The last part of noza_finalize_thread_exit, once nobody waits on the port any more. */
    method SettleExit(t: Pid)
      requires Core() && os.home[t].Limbo? && !os.timeout[t] && os.port[t].WaitListen?
      requires At(os.rings, PendingRing(t)) == [] && At(os.rings, ReplyRing(t)) == []
      modifies `os, `trap, `vid, vids
      ensures Core() && os == Settle(old(os), t, detached[t])
      ensures old(os).joiner[t].None? ==> trap == old(trap)
      ensures old(os).joiner[t].Some? ==> trap == old(trap)[old(os).joiner[t].value := Ret2(0, exitCode[t])]
      ensures if old(os).joiner[t].Some? || detached[t]
        then vid == old(vid)[t := 0] && vids.index == old(vids.index) - {old(vid)[t]}
        else vid == old(vid) && vids.index == old(vids.index)
    {
      hide Homes, Ports, Named, Tables, Served, Without, Placed;
      if os.joiner[t].None? {
        if detached[t] {
          AddFree(t);
        } else {
          AddThread(ZombieRing, t);
        }
      } else {
        JoinerHome(os, t);
        ReleaseJoinWaiter(t);
        AddFree(t);
      }
    }

    /** noza_finalize_thread_exit */
    method FinalizeExit(t: Pid)
      requires Core() && os.home[t].Limbo? && !os.timeout[t]
      modifies `os, `trap, `expired, `vid, `halt, vids
      ensures Core() && halt == old(halt) && os == Exit(old(os), t, detached[t]) && expired == old(expired)[t := 0]
      ensures trap == ExitTraps(old(trap), old(os), t, exitCode[t])
      ensures if old(os).joiner[t].Some? || detached[t]
        then vid == old(vid)[t := 0] && vids.index == old(vids.index) - {old(vid)[t]}
        else vid == old(vid) && vids.index == old(vids.index)
    {
      hide Homes, Ports, Named, Tables, Served, At, Put, Without, Placed, WakeAll, Settle, Answered, MovedToReady;
      PortListen(t);
      expired := expired[t := 0];
      Released(os, t);
      ReleaseWaitersFromPort(t, EINTR);
      SettleExit(t);
    }

    /** The rest of noza_terminate_thread, for a thread that has left `k`. */
    method ExitDetached(core: nat, target: Pid, code: Word, ghost k: Sched)
      requires Core() && halt.None? && core < |os.running|
      requires Shaped(k) && Homes(k) && Ports(k) && Settled(k) && Detachable(k, target) && os == Detach(k, target)
      requires |k.running| == |os.running| && (k.home[target].OnCore? ==> k.home[target].core == core)
      requires os.home[target].Limbo? && !os.timeout[target]
      modifies `os, `trap, `expired, `exitCode, `vid, `halt, vids
      ensures Core() && halt.None? && os == Ended(k, core, target, detached[target]) && Calm(k, os)
      ensures exitCode == old(exitCode)[target := code] && expired == old(expired)[target := 0]
      ensures trap == ExitTraps(old(trap), Detach(k, target), target, code)
      ensures os.home[target] == InRing(FreeRing) || os.home[target] == InRing(ZombieRing)
      ensures if os.home[target] == InRing(FreeRing)
           then vid == old(vid)[target := 0] && vids.index == old(vids.index) - {old(vid)[target]}
           else vid == old(vid) && vids.index == old(vids.index)
    {
      hide Homes, Ports, Named, Tables, Served, At, Put, Without, Placed, Exit, Detach, Detachable, Calm, ExitTraps;
      DetachPort(k, target);
      ExitSlots(k, core, target, detached[target]);
      EndedCalm(k, core, target, detached[target]);
      exitCode := exitCode[target := code];
      FinalizeExit(target);
      if os.running[core] == Some(target) {
        ClearRunning(core);
      }
    }

    /** noza_terminate_thread: see ExitTrapsMean for who is told what. */
    method Terminate(core: nat, target: Pid, code: Word) returns (rc: Word)
      requires Valid() && core < |os.running| && halt.None?
      modifies `os, `trap, `expired, `exitCode, `vid, `halt, vids
      ensures Valid() && halt.None?
      ensures rc == (if old(os).state[target] in {Free, Zombie} then ESRCH
                     else if old(os).state[target] == Running && old(os).running[core] != Some(target) then EBUSY
                     else 0)
      ensures rc != 0 ==>
        && os == old(os) && trap == old(trap) && expired == old(expired) && exitCode == old(exitCode)
        && vid == old(vid) && vids.index == old(vids.index)
      ensures rc == 0 ==>
        && Detachable(old(os), target) && os == Ended(old(os), core, target, detached[target])
        && exitCode == old(exitCode)[target := code] && expired == old(expired)[target := 0]
        && trap == ExitTraps(old(trap), Detach(old(os), target), target, code)
        && if os.home[target] == InRing(FreeRing)
           then vid == old(vid)[target := 0] && vids.index == old(vids.index) - {old(vid)[target]}
           else vid == old(vid) && vids.index == old(vids.index)
    {
      hide Homes, Ports, Named, Tables, Served, At, Put, Without, Placed, Exit, Detach, Detachable, Ended, Calm, WaitsAs, Receivers, ExitTraps;
      ghost var k := os;
      StateTellsHome(os, target);
      if os.running[core] == Some(target) {
        OnThisCore(os, core, target);
      }
      rc := DetachBlocked(core, target);
      if rc != 0 {
        return;
      }
      ExitDetached(core, target, code, k);
      CalmKeeps(k, os, interrupted, old(vid), IRQ_SERVER_VID);
      WaitsAsRenamed(os, old(vid), target, 0, IRQ_SERVER_VID);
    }

    method FreeZombie(t: Pid)
      requires Core() && os.home[t] == InRing(ZombieRing)
      modifies `os, `vid, `halt, vids
      ensures Core() && halt == old(halt) && os == Move(old(os), ZombieRing, FreeRing, t) && os.home[t] == InRing(FreeRing)
      ensures vid == old(vid)[t := 0] && vids.index == old(vids.index) - {old(vid)[t]}
    {
      hide Homes, Ports, Named, Tables, Served, Without, Placed;
      BlockedAt(os, t);
      NotTimed(os, t);
      DeadPort(os, t);
      RemoveThread(ZombieRing, t);
      AddFree(t);
    }

    /** Reaping: a zombie becomes free and gives up its vid. */
    method Reap(t: Pid)
      requires Valid() && os.home[t] == InRing(ZombieRing) && halt.None?
      modifies `os, `vid, `halt, vids
      ensures Valid() && halt.None? && os == Move(old(os), ZombieRing, FreeRing, t)
      ensures vid == old(vid)[t := 0] && vids.index == old(vids.index) - {old(vid)[t]}
    {
      hide Homes, Ports, Named, Tables, Served, At, Put, Without, Placed, Calm, WaitsAs, Receivers, Move;
      ghost var k := os;
      FreeZombie(t);
      MoveCalm(k, ZombieRing, FreeRing, t);
      CalmKeeps(k, os, interrupted, old(vid), IRQ_SERVER_VID);
      WaitsAsRenamed(os, old(vid), t, 0, IRQ_SERVER_VID);
    }

    method BlockJoin(core: nat, u: Pid)
      requires Core() && os.leaving.None? && core < |os.running| && os.running[core].Some?
      requires os.joiner[u].None? && !Dead(os, u)
      modifies `os
      ensures Core() && os == JoinOn(old(os), core, u)
    {
      hide Homes, Ports, Named, Tables, Served, At, Put, Without, Placed;
      var t := os.running[core].value;
      RunningHome(os, core);
      LeaveCore(core);
      StartJoin(u, t);
      ClearRunning(core);
    }

    /** The running thread waits for the exit of `u`. */
    method WaitForExit(core: nat, u: Pid)
      requires Valid() && core < |os.running| && os.running[core].Some? && os.joiner[u].None? && !Dead(os, u)
      modifies `os
      ensures Valid() && os == JoinOn(old(os), core, u)
    {
      hide Homes, Ports, Named, Tables, Served, At, Put, Without, Placed, Calm, WaitsAs, Receivers, JoinOn;
      ghost var k := os;
      BlockJoin(core, u);
      JoinOnCalm(k, core, u);
      CalmKeeps(k, os, interrupted, vid, IRQ_SERVER_VID);
    }

    /** syscall_thread_join */
    method Join(core: nat, v: Word)
      requires Valid() && core < |os.running| && os.running[core].Some? && halt.None?
      modifies `os, `trap, `vid, `halt, vids
      ensures Valid() && halt.None?
      ensures old(Calling(Now(), core)) && Joined(old(Now()), Now(), core, v)
    {
      hide Valid, Core, Homes, Ports, At, Move, JoinOn;
      KnownCall(core);
      var t := os.running[core].value;
      var target := FindThread(v);
      if target.None? {
        SetReturn(t, Ret1(ESRCH));
        return;
      }
      var u := target.value;
      StateTellsHome(os, u);
      if detached[u] {
        SetReturn(t, Ret1(EINVAL));
      } else if os.state[u] == Zombie {
        SetReturn(t, Ret2(0, exitCode[u]));
        Reap(u);
      } else if os.joiner[u].None? {
        WaitForExit(core, u);
      } else {
        SetReturn(t, Ret1(EINVAL));
      }
    }

    /** get_thread_by_vid: the one live thread with that vid. */
    method FindThread(v: Word) returns (r: Option<Pid>)
      requires Valid()
      ensures r == if v in vids.index then Some(vids.index[v]) else None
      ensures forall t: Pid :: r == Some(t) <==> os.home[t] != InRing(FreeRing) && vid[t] == v
    {
      hide Homes, Ports, Served, Receivers, WaitsAs, V.VidTable.Valid, F.Table.Valid, T.Table.Valid, I.Table.Valid;
      r := vids.Lookup(v);
    }

    method StartJoin(o: Pid, t: Pid)
      requires Core() && os.home[t].Limbo? && !os.timeout[t] && os.joiner[o].None? && !Dead(os, o)
      modifies `os
      ensures Core() && os == KernelState.Join(old(os), o, t)
    {
      hide Homes, Ports, Named, Tables, Served;
      HomesJoin(os, o, t);
      NamedMove(vids.index, vid, os.home, t, Joining(o));
      os := os.(joiner := os.joiner[o := Some(t)], state := os.state[t := PendingJoin], home := os.home[t := Joining(o)]);
    }

    method SetDetached(t: Pid)
      requires Valid()
      modifies `detached
      ensures Valid() && detached == old(detached)[t := true]
    {
      hide Homes, Ports, Named, Tables, Served, At, Put, Without, Placed, Receivers, WaitsAs;
      detached := detached[t := true];
    }

    /** syscall_thread_detach: a zombie is freed on the spot, and that is still reported as an error. */
    method DetachThread(core: nat, v: Word)
      requires Valid() && core < |os.running| && os.running[core].Some? && halt.None?
      modifies `os, `trap, `detached, `vid, `halt, vids
      ensures Valid() && halt.None?
      ensures old(Calling(Now(), core)) && MadeDetached(old(Now()), Now(), core, v)
    {
      hide Valid, Core, Homes, Ports, At, Move;
      KnownCall(core);
      var t := os.running[core].value;
      var target := FindThread(v);
      if target.None? {
        SetReturn(t, Ret1(ESRCH));
        return;
      }
      StateTellsHome(os, target.value);
      if os.state[target.value] == Zombie {
        SetReturn(t, Ret1(EINVAL));
        Reap(target.value);
      } else {
        SetDetached(target.value);
        SetReturn(t, Ret1(0));
      }
    }

    method Requeue(u: Pid, p: Priority)
      requires Core() && os.home[u] == InRing(ReadyRing(os.priority[u]))
      modifies `os, `halt
      ensures Core() && halt == old(halt) && os == Reprioritise(old(os), u, p)
    {
      hide Homes, Ports, Named, Tables, Served, At, Put, Without, Placed;
      BlockedAt(os, u);
      NotTimed(os, u);
      RemoveThread(ReadyRing(os.priority[u]), u);
      SetPriorityOf(u, p);
      AddThread(ReadyRing(p), u);
    }

    /** syscall_thread_change_priority, for a priority below the limit (which it does not check). */
    method ChangePriority(core: nat, v: Word, p: Priority)
      requires Valid() && core < |os.running| && os.running[core].Some? && halt.None?
      modifies `os, `trap, `halt
      ensures Valid() && halt.None?
      ensures var t := old(os).running[core].value;
        if v !in vids.index || old(os).state[vids.index[v]] == Zombie then os == old(os) && trap == old(trap)[t := Ret1(ESRCH)]
        else os == Reprioritise(old(os), vids.index[v], p) && trap == old(trap)[t := Ret1(0)]
    {
      hide Valid, Core, Homes, Ports, At, Reprioritise;
      Known();
      var t := os.running[core].value;
      var target := FindThread(v);
      if target.None? {
        SetReturn(t, Ret1(ESRCH));
        return;
      }
      var u := target.value;
      StateTellsHome(os, u);
      RunningHome(os, core);
      if u != t && os.state[u] == Zombie {
        SetReturn(t, Ret1(ESRCH));
        return;
      }
      GivePriority(u, p);
      SetReturn(t, Ret1(0));
    }

    /** A ready thread changes lists with its priority; for any other only the number changes. */
    method GivePriority(u: Pid, p: Priority)
      requires Valid() && halt.None?
      modifies `os, `halt
      ensures Valid() && halt.None? && os == Reprioritise(old(os), u, p)
    {
      hide Homes, Ports, Named, Tables, Served, At, Put, Without, Placed, Calm, WaitsAs, Receivers;
      ghost var k := os;
      StateTellsHome(os, u);
      if os.state[u] == Ready {
        Requeue(u, p);
      } else {
        SetPriorityOf(u, p);
      }
      ReprioritiseCalm(k, u, p);
      CalmKeeps(k, os, interrupted, vid, IRQ_SERVER_VID);
    }

    method SetPriorityOf(t: Pid, p: Priority)
      requires Core() && !(os.home[t].InRing? && os.home[t].ring.ReadyRing?)
      modifies `os
      ensures Core() && os == SetPriority(old(os), t, p)
    {
      hide Homes, Ports, Named, Tables, Served;
      HomesSetPriority(os, t, p);
      os := os.(priority := os.priority[t := p]);
    }

    /** A ready thread is stopped. */
    method StopReady(target: Pid)
      requires Valid() && os.home[target] == InRing(ReadyRing(os.priority[target])) && halt.None?
      modifies `os, `halt
      ensures Valid() && halt.None? && os == Move(old(os), ReadyRing(old(os).priority[target]), StoppedRing, target)
    {
      hide Homes, Ports, Named, Tables, Served, At, Put, Without, Placed, Calm, WaitsAs, Receivers;
      ghost var k := os;
      BlockedAt(os, target);
      NotTimed(os, target);
      RemoveThread(ReadyRing(os.priority[target]), target);
      AddThread(StoppedRing, target);
      MoveCalm(k, ReadyRing(k.priority[target]), StoppedRing, target);
      CalmKeeps(k, os, interrupted, vid, IRQ_SERVER_VID);
    }

    /** The running thread goes to the tail of a list other than the wait list. */
    method BlockRunning(core: nat, r: RingId)
      requires Valid() && core < |os.running| && os.running[core].Some?
      requires r.StoppedRing? || (r.ReadyRing? && r.priority == os.priority[os.running[core].value])
      modifies `os
      ensures Valid() && os == BlockOn(old(os), core, r)
    {
      hide Homes, Ports, Named, Tables, Served, At, Put, Without, Placed, Calm, WaitsAs, Receivers, BlockOn;
      ghost var k := os;
      Block(core, r);
      BlockOnCalm(k, core, r);
      CalmKeeps(k, os, interrupted, vid, IRQ_SERVER_VID);
    }

    /** stop_signal_handler */
    method StopThread(core: nat, target: Pid)
      requires Valid() && core < |os.running| && os.running[core].Some? && halt.None?
      modifies `os, `trap, `halt
      ensures Valid() && halt.None?
      ensures old(Calling(Now(), core)) && StoppedBy(old(Now()), Now(), core, target)
    {
      hide Valid, Core, Homes, Ports, At, Move, BlockOn;
      KnownCall(core);
      var t := os.running[core].value;
      StateTellsHome(os, target);
      RunningHome(os, core);
      var rc := 0;
      if os.state[target] == Ready {
        StopReady(target);
      } else if os.state[target] == Running {
        if target != t {
          rc := EBUSY;
        } else {
          BlockRunning(core, StoppedRing);
        }
      }
      if t != target || rc != 0 {
        SetReturn(t, Ret1(rc));
      }
    }

    /** continue_signal_handler */
    method ContinueThread(core: nat, target: Pid)
      requires Valid() && core < |os.running| && os.running[core].Some? && halt.None?
      modifies `os, `trap, `halt, `interrupted
      ensures Valid() && halt.None?
      ensures old(Calling(Now(), core)) && ContinuedBy(old(Now()), Now(), core, target)
    {
      hide Valid, Core, Homes, Ports, At, WakeOne;
      KnownCall(core);
      var t := os.running[core].value;
      StateTellsHome(os, target);
      if os.state[target] == Stopped {
        Resume(StoppedRing, target);
      }
      SetReturn(t, Ret1(0));
    }

    method SetExpired(t: Pid, when: int)
      requires Valid()
      modifies `expired
      ensures Valid() && expired == old(expired)[t := when]
    {
      hide Homes, Ports, Named, Tables, Served, At, Put, Without, Placed, Receivers, WaitsAs;
      expired := expired[t := when];
    }

    method Alarm(target: Pid, signum: Word, now: int)
      requires Valid() && halt.None? && 1 <= signum <= 32
      modifies `os, `trap, `expired, `halt, `interrupted, `signals
      ensures Valid() && halt.None?
      ensures old(Whole(Now())) && Now() == Alarmed(old(Now()), target, signum, now)
    {
      hide Valid, Core, Homes, Ports, At, Interrupted, SignalSent, SleepCut;
      Known();
      KnownWhole();
      StateTellsHome(os, target);
      match os.state[target] {
        case Sleep => CutSleep(target, now);
        case WaitingMsg => Interrupt(target);
        case WaitingSync => Interrupt(target);
        case WaitingRead =>
        case WaitingReply =>
        case _ => SignalSend(target, signum);
      }
    }

    /** alarm_signal_handler */
    method AlarmThread(core: nat, target: Pid, signum: Word, now: int)
      requires Valid() && core < |os.running| && os.running[core].Some? && halt.None? && 1 <= signum <= 32
      modifies `os, `trap, `expired, `halt, `interrupted, `signals
      ensures Valid() && halt.None?
      ensures old(Calling(Now(), core)) && AlarmedBy(old(Now()), Now(), core, target, signum, now)
    {
      hide Valid, Core, Alarmed;
      KnownCall(core);
      var t := os.running[core].value;
      Alarm(target, signum, now);
      SetReturn(t, Ret1(0));
    }

    /** A sleeper is woken early and told how much time was left. */
    method CutSleep(target: Pid, now: int)
      requires Valid() && os.home[target] == InRing(SleepRing)
      modifies `os, `trap, `expired, `halt, `interrupted
      ensures Valid() && halt == old(halt)
      ensures old(Whole(Now())) && Now() == SleepCut(old(Now()), target, now)
    {
      hide Valid, Core, Homes, Ports, At, WakeOne, AlarmReturn;
      KnownWhole();
      Resume(SleepRing, target);
      Known();
      SetReturn(target, AlarmReturn(expired[target], now));
      SetExpired(target, 0);
    }

    /** terminate_signal_handler */
    method KillThread(core: nat, target: Pid, code: Word)
      requires Valid() && core < |os.running| && os.running[core].Some? && halt.None? && os.state[target] != Free
      modifies `os, `trap, `expired, `exitCode, `vid, `halt, vids
      ensures Valid() && halt.None?
      ensures old(Calling(Now(), core)) && KilledBy(old(Now()), Now(), core, target, code)
    {
      hide Valid, Core, Homes, Ports, At, Detachable, Ended, Detach, ExitTraps, AfterExit;
      KnownCall(core);
      RunningHome(os, core);
      var t := os.running[core].value;
      var rc := Terminate(core, target, code);
      if rc == 0 {
        ExitDone(old(Now()), Now(), core, target, code);
      }
      if t != target {
        SetReturn(t, Ret1(rc));
      }
    }

    /** syscall_thread_kill.  A signal number whose top bit is set is negative as an int, passes the
        bound check and indexes outside the handler table. */
    method Kill(core: nat, v: Word, sig: Word, now: int)
      requires Valid() && core < |os.running| && os.running[core].Some? && halt.None?
      modifies `os, `trap, `expired, `exitCode, `vid, `halt, `interrupted, `signals, vids
      ensures (halt.None? ==> Valid()) && (halt.Some? ==> halt.value == SignalOutOfTable)
      ensures old(Calling(Now(), core)) && Killed(old(Now()), Now(), core, v, sig, now)
      ensures v in old(vids.index) ==> (
        var u, was := old(vids.index)[v], old(os).state;
        && |was| == |os.state| == |exitCode| == 32
        && (sig in {1, 2, 3, 4, 5, 6, 7, 8, 9, 10, 11, 12, 13, 15, 16, 24, 25, 26, 27, 30, 31}
            && was[u] != Zombie && (was[u] == Running ==> old(os).running[core] == Some(u)) ==>
              os.state[u] in {Free, Zombie} && exitCode[u] == 128 + sig)
        && (sig == 18 && was[u] == Stopped ==> os.state[u] == Ready)
        && (sig in {19, 20} && was[u] == Ready ==> os.state[u] == Stopped)
        && (sig in {0, 17, 21, 22, 23, 28, 29} ==> os == old(os)))
    {
      hide Valid, Core, Homes, Ports, At, KilledBy, StoppedBy, ContinuedBy, AlarmedBy, Killed, L.Sane;
      KnownCall(core);
      KnownSane();
      KillBy(core, v, sig, now);
      if halt.None? {
        KnownWhole();
      }
      if v in old(vids.index) {
        L.KillColumns(old(Now()), Now(), core, v, sig, now);
      }
    }

    method KillBy(core: nat, v: Word, sig: Word, now: int)
      requires Valid() && core < |os.running| && os.running[core].Some? && halt.None?
      modifies `os, `trap, `expired, `exitCode, `vid, `halt, `interrupted, `signals, vids
      ensures (halt.None? ==> Valid()) && (halt.Some? ==> halt.value == SignalOutOfTable)
      ensures old(Calling(Now(), core)) && Killed(old(Now()), Now(), core, v, sig, now)
    {
      hide Valid, Core, Homes, Ports, At, KilledBy, StoppedBy, ContinuedBy, AlarmedBy;
      KnownCall(core);
      var t := os.running[core].value;
      var picked := FindThread(v);
      if picked.None? {
        SetReturn(t, Ret1(ESRCH));
        return;
      }
      var u := picked.value;
      if 31 < sig < 0x8000_0000 {
        SetReturn(t, Ret1(EINVAL));
        return;
      }
      if sig >= 0x8000_0000 {
        halt := Some(SignalOutOfTable);
        return;
      }
      StateTellsHome(os, u);
      match HandlerOf(sig) {
        case Ignore => SetReturn(t, Ret1(0));
        case Kill => KillThread(core, u, 128 + sig);
        case Stop => StopThread(core, u);
        case Continue => ContinueThread(core, u);
        case Alarm => AlarmThread(core, u, sig, now);
      }
    }

    /** syscall_thread_sleep: a duration that is not positive yields the core. */
    method SleepThread(core: nat, r1: Word, r2: Word, now: int)
      requires Valid() && core < |os.running| && os.running[core].Some? && halt.None?
      modifies `os, `trap, `expired
      ensures Valid()
      ensures old(Calling(Now(), core)) && Slept(old(Now()), Now(), core, r1, r2, now)
    {
      hide Valid, Core, Homes, Ports, At, BlockOn, SleepOn;
      KnownCall(core);
      var t := os.running[core].value;
      var d := Duration(r1, r2);
      if d <= 0 {
        SetReturn(t, Ret3(0, 0, 0));
        BlockRunning(core, ReadyRing(os.priority[t]));
      } else {
        SetExpired(t, now + d);
        BlockSleep(core);
      }
    }

    method BlockSleep(core: nat)
      requires Valid() && core < |os.running| && os.running[core].Some?
      modifies `os
      ensures Valid() && os == SleepOn(old(os), core, expired)
    {
      hide Homes, Ports, Named, Tables, Served, At, Put, Without, Placed, Calm, WaitsAs, Receivers;
      ghost var k := os;
      var t := os.running[core].value;
      RunningHome(os, core);
      LeaveCore(core);
      AddThread(SleepRing, t);
      ClearRunning(core);
      SleepOnCalm(k, core, expired);
      CalmKeeps(k, os, interrupted, vid, IRQ_SERVER_VID);
    }

    /** One more thread is woken and given its return value. */
    method WakeNext(r: RingId, t: Pid, ret: Trap, ghost k: Sched, ghost woken: seq<Pid>, ghost trap0: seq<Trap>)
      requires Valid() && os.home[t] == InRing(r) && !r.FreeRing? && !r.ReadyRing? && !r.WaitRing?
      requires Shaped(k) && os == WakeAll(k, woken) && |trap0| == 32 && trap == Answered(trap0, woken, ret)
      modifies `os, `trap, `halt, `interrupted
      ensures Valid() && halt == old(halt) && interrupted == old(interrupted)
      ensures os == WakeAll(k, woken + [t]) && trap == Answered(trap0, woken + [t], ret)
    {
      hide Valid, Core, Homes, Ports, At, WakeAll, WakeOne, Answered;
      AnsweredSnoc(trap0, woken, t, ret);
      WakeAllSnoc(k, woken, t);
      Resume(r, t);
      SetReturn(t, ret);
    }

    /** The sleeper number `i` of the list as it was in `k`, now its head, is woken. */
    method WakeSleeper(ghost k: Sched, ghost i: nat, ghost trap0: seq<Trap>)
      requires Valid() && halt.None? && Shaped(k) && Homes(k) && Ports(k) && |trap0| == 32
      requires i < |At(k.rings, SleepRing)| && At(os.rings, SleepRing) == At(k.rings, SleepRing)[i..]
      requires os == WakeAll(k, At(k.rings, SleepRing)[..i])
      requires trap == Answered(trap0, At(k.rings, SleepRing)[..i], Ret3(0, 0, 0))
      modifies `os, `trap, `halt, `interrupted
      ensures Valid() && halt.None? && interrupted == old(interrupted)
      ensures At(os.rings, SleepRing) == At(k.rings, SleepRing)[i + 1..]
      ensures os == WakeAll(k, At(k.rings, SleepRing)[..i + 1])
      ensures trap == Answered(trap0, At(k.rings, SleepRing)[..i + 1], Ret3(0, 0, 0))
    {
      hide Valid, Core, Homes, Ports, At, WakeAll, WakeOne, Answered;
      Known();
      ghost var w := At(k.rings, SleepRing);
      var t := At(os.rings, SleepRing)[0];
      assert w[..i + 1] == w[..i] + [t];
      InRingAt(os, SleepRing, t);
      WakeNext(SleepRing, t, Ret3(0, 0, 0), k, w[..i], trap0);
      QueueDrained(k, SleepRing, i + 1);
    }

    /** noza_wakeup: sleepers are woken from the front of the list while they have expired. */
    method Wakeup(now: int) returns (ghost woken: seq<Pid>)
      requires Valid() && halt.None?
      modifies `os, `trap, `halt, `interrupted
      ensures Valid() && halt.None? && interrupted == old(interrupted)
      ensures woken == var w := At(old(os).rings, SleepRing); w[..DuePrefix(w, expired, now)]
      ensures os == WakeAll(old(os), woken) && trap == Answered(old(trap), woken, Ret3(0, 0, 0))
    {
      hide Valid, Core, Homes, Ports, At, WakeAll, WakeOne, Answered, DuePrefix;
      Known();
      ghost var k := os;
      ghost var w := At(k.rings, SleepRing);
      WakeAllNone(k);
      AnsweredNone(trap, Ret3(0, 0, 0));
      woken := [];
      ghost var i := 0;
      while At(os.rings, SleepRing) != [] && expired[At(os.rings, SleepRing)[0]] <= now
        invariant Valid() && halt.None? && interrupted == old(interrupted) && |expired| == 32
        invariant i <= |w| && woken == w[..i] && At(os.rings, SleepRing) == w[i..]
        invariant forall j :: 0 <= j < i ==> expired[w[j]] <= now
        invariant os == WakeAll(k, woken) && trap == Answered(old(trap), woken, Ret3(0, 0, 0))
        decreases |w| - i
      {
        WakeSleeper(k, i, old(trap));
        i := i + 1;
        woken := w[..i];
      }
      DuePrefixUnique(w, expired, now, i);
    }

    /** One late waiter is moved off the timeout list, on which its state has to be that of the list. */
    method WakeTimedOut(ghost k: Sched, ghost i: nat, ghost trap0: seq<Trap>)
      requires Valid() && halt.None? && Shaped(k) && Homes(k) && Ports(k) && Settled(k) && |trap0| == 32
      requires i < |At(k.rings, SyncSleepRing)| && At(os.rings, SyncSleepRing) == At(k.rings, SyncSleepRing)[i..]
      requires os == WakeAll(k, At(k.rings, SyncSleepRing)[..i])
      requires trap == Answered(trap0, At(k.rings, SyncSleepRing)[..i], Ret1(ETIMEDOUT))
      modifies `os, `trap, `halt, `interrupted
      ensures Valid() && halt.None? && interrupted == old(interrupted)
      ensures At(os.rings, SyncSleepRing) == At(k.rings, SyncSleepRing)[i + 1..]
      ensures os == WakeAll(k, At(k.rings, SyncSleepRing)[..i + 1])
      ensures trap == Answered(trap0, At(k.rings, SyncSleepRing)[..i + 1], Ret1(ETIMEDOUT))
    {
      hide Valid, Core, Homes, Ports, At, WakeAll, WakeOne, Answered;
      Known();
      ghost var w := At(k.rings, SyncSleepRing);
      var t := At(os.rings, SyncSleepRing)[0];
      assert w[..i + 1] == w[..i] + [t];
      TimedBlocked(os);
      StateTellsHome(os, t);
      CheckState(SyncSleepRing, t);
      WakeNext(os.queue[t].value, t, Ret1(ETIMEDOUT), k, w[..i], trap0);
      TimeoutsDrained(k, i + 1);
    }

    /** noza_wakeup_sync: the same for the timeout list; the woken threads also leave their queues. */
    method WakeupSync(now: int) returns (ghost woken: seq<Pid>)
      requires Valid() && halt.None?
      modifies `os, `trap, `halt, `interrupted
      ensures Valid() && halt.None? && interrupted == old(interrupted)
      ensures woken == var w := At(old(os).rings, SyncSleepRing); w[..DuePrefix(w, expired, now)]
      ensures os == WakeAll(old(os), woken) && trap == Answered(old(trap), woken, Ret1(ETIMEDOUT))
    {
      hide Valid, Core, Homes, Ports, At, WakeAll, WakeOne, Answered, DuePrefix;
      Known();
      ghost var k := os;
      ghost var w := At(k.rings, SyncSleepRing);
      WakeAllNone(k);
      AnsweredNone(trap, Ret1(ETIMEDOUT));
      woken := [];
      ghost var i := 0;
      while At(os.rings, SyncSleepRing) != [] && expired[At(os.rings, SyncSleepRing)[0]] <= now
        invariant Valid() && halt.None? && interrupted == old(interrupted) && |expired| == 32
        invariant i <= |w| && woken == w[..i] && At(os.rings, SyncSleepRing) == w[i..]
        invariant forall j :: 0 <= j < i ==> expired[w[j]] <= now
        invariant os == WakeAll(k, woken) && trap == Answered(old(trap), woken, Ret1(ETIMEDOUT))
        decreases |w| - i
      {
        WakeTimedOut(k, i, old(trap));
        i := i + 1;
        woken := w[..i];
      }
      DuePrefixUnique(w, expired, now, i);
    }

    method WakeWaiters(q: RingId, count: Word, result: Word) returns (woke: nat, ghost woken: seq<Pid>)
      requires Valid() && IsQueue(q)
      modifies `os, `trap
      ensures Valid() && woke == |woken|
      ensures woken == var w := At(old(os).rings, q); w[..if count <= |w| then count else |w|]
      ensures os == WakeAll(old(os), woken) && At(os.rings, q) == At(old(os).rings, q)[woke..]
      ensures trap == Answered(old(trap), woken, Ret1(result))
    {
      hide Homes, Ports, Named, Tables, Served, At, Put, Without, Placed, WakeAll, Answered, Calm, WaitsAs, Receivers;
      ghost var k := os;
      woke, woken := WaitQueueWake(q, count, result);
      QueueWakeCalm(k, q, woke);
      CalmKeeps(k, os, interrupted, vid, IRQ_SERVER_VID);
    }

    method FutexSlot(addr: Word, create: bool) returns (slot: Option<nat>)
      requires Valid()
      modifies futex
      ensures Valid() && F.Grows(old(futex.keys), futex.keys)
      ensures slot.Some? ==>
        slot.value < F.SLOTS && futex.keys[slot.value] == Some(addr) && slot.value == F.SlotOf(futex.keys, addr)
      ensures addr == 0 || !create ==> futex.keys == old(futex.keys)
      ensures addr != 0 && !create ==> (slot.Some? <==> Some(addr) in futex.keys)
      ensures addr != 0 && create ==> (slot.Some? <==> Some(addr) in old(futex.keys) || None in old(futex.keys))
      ensures addr != 0 && create && slot.None? ==> futex.keys == old(futex.keys)
      ensures addr != 0 && create && slot.Some? ==> futex.keys == old(futex.keys)[slot.value := Some(addr)]
    {
      hide Homes, Ports, Named, Receivers, WaitsAs, V.VidTable.Valid, T.Table.Valid, I.Table.Valid, F.Probing;
      slot := futex.GetQueue(addr, create);
    }

    /** The running thread waits in queue `q` for the time its timeout register gives. */
    method WaitIn(core: nat, q: RingId, timeout: Word, now: int)
      requires Valid() && core < |os.running| && os.running[core].Some? && IsQueue(q)
      requires q.TimerRing? ==> q.index < T.TIMERS && timers.timers[q.index].inUse
      requires q.FutexRing? ==> q.slot < F.SLOTS && futex.keys[q.slot].Some?
      modifies `os, `trap, `expired
      ensures Valid()
      ensures old(Calling(Now(), core)) && Now() == Queued(old(Now()), core, q, timeout, now)
    {
      hide Valid, Core, Homes, Ports, At, WaitOn;
      KnownCall(core);
      var t := os.running[core].value;
      var rc := WaitQueueSleep(core, q, WaitTime(timeout), now);
      if rc != 0 {
        SetReturn(t, Ret1(rc));
      }
    }

    /** syscall_futex_wait; `actual` is the word found at `addr`. */
    method FutexWait(core: nat, addr: Word, expected: Word, timeout: Word, actual: Word, now: int)
      requires Valid() && core < |os.running| && os.running[core].Some? && halt.None?
      modifies `os, `trap, `expired, futex
      ensures Valid() && halt.None?
      ensures old(Calling(Now(), core)) && FutexWaited(old(Now()), Now(), core, addr, expected, timeout, actual, now)
    {
      hide Valid, Core, Homes, Ports, At, Queued, F.Grows, F.SlotOf;
      KnownCall(core);
      var t := os.running[core].value;
      if addr == 0 {
        SetReturn(t, Ret1(EINVAL));
        return;
      }
      if actual != expected {
        SetReturn(t, Ret1(EAGAIN));
        return;
      }
      var slot := FutexSlot(addr, true);
      if slot.None? {
        SetReturn(t, Ret1(ENOMEM));
        return;
      }
      KnownCall(core);
      WaitIn(core, FutexRing(slot.value), timeout, now);
    }

    /** syscall_futex_wake: exactly the oldest `count` waiters of that address, and no others. */
    method FutexWake(core: nat, addr: Word, count: Word)
      requires Valid() && core < |os.running| && os.running[core].Some? && halt.None?
      modifies `os, `trap, futex
      ensures Valid() && futex.keys == old(futex.keys)
      ensures old(Calling(Now(), core)) && FutexWoke(old(Now()), Now(), core, addr, count)
    {
      hide Valid, Core, Homes, Ports, At, WakeAll, Answered;
      KnownCall(core);
      WakeAllNone(os);
      AnsweredNone(trap, Ret1(0));
      var t := os.running[core].value;
      if addr == 0 || count == 0 {
        SetReturn(t, Ret1(0));
        return;
      }
      var slot := FutexSlot(addr, false);
      if slot.None? {
        SetReturn(t, Ret1(0));
        return;
      }
      var woke;
      ghost var woken;
      woke, woken := WakeWaiters(FutexRing(slot.value), count, 0);
      SetReturn(t, Ret1(woke % 0x1_0000_0000));
    }

    /** Rewrites an unarmed timer without abandoning its waiters. */
    method TimerSet(i: nat, t: T.Timer)
      requires Valid() && i < T.TIMERS && !timers.timers[i].armed && !t.armed
      requires t.inUse || At(os.rings, TimerRing(i)) == []
      modifies timers`timers
      ensures Valid() && timers.timers == old(timers.timers)[i := t]
    {
      hide Homes, Ports, Receivers, WaitsAs, V.VidTable.Valid, F.Table.Valid, I.Table.Valid, T.RingOk, Named;
      timers.Set(i, t);
    }

    /** noza_timer_remove */
    method TimerRemove(i: nat)
      requires Valid() && i < T.TIMERS
      modifies timers`timers, timers`ring
      ensures Valid() && timers.ring == Without(old(timers.ring), i)
      ensures timers.timers == old(timers.timers)[i := old(timers.timers)[i].(armed := false)]
    {
      hide Homes, Ports, Receivers, WaitsAs, V.VidTable.Valid, F.Table.Valid, I.Table.Valid, T.RingOk, Named;
      timers.Remove(i);
    }

    /** noza_timer_insert */
    method TimerInsert(i: nat)
      requires Valid() && i < T.TIMERS && !timers.timers[i].armed && timers.timers[i].inUse && timers.timers[i].deadline > 0
      modifies timers`timers, timers`ring
      ensures Valid() && T.InRange(old(timers.ring)) && |old(timers.timers)| == T.TIMERS
      ensures timers.ring == InsertAt(old(timers.ring),
        TimerPosition(T.Deadlines(old(timers.timers), old(timers.ring)), old(timers.timers)[i].deadline), i)
      ensures timers.timers == old(timers.timers)[i := old(timers.timers)[i].(armed := true)]
    {
      hide Homes, Ports, Receivers, WaitsAs, V.VidTable.Valid, F.Table.Valid, I.Table.Valid, T.RingOk, Named, TimerPosition;
      timers.Insert(i);
    }

    method TimerAlloc(owner: Word) returns (r: Option<nat>)
      requires Valid()
      modifies timers
      ensures Valid() && timers.ring == old(timers.ring)
      ensures r.None? ==> timers.timers == old(timers.timers) && timers.nextSeq == old(timers.nextSeq)
      ensures r.None? <==> forall j :: 0 <= j < T.TIMERS ==> old(timers.timers)[j].inUse
      ensures r.Some? ==>
        && r.value < T.TIMERS && !old(timers.timers)[r.value].inUse
        && (forall j :: 0 <= j < r.value ==> old(timers.timers)[j].inUse)
        && timers.nextSeq == (if old(timers.nextSeq) == 0xFFFF_FFFF then 1 else old(timers.nextSeq) + 1)
        && timers.timers == old(timers.timers)[r.value := T.Timer(old(timers.nextSeq), owner, 0, 0, 0, 0, true, false)]
    {
      hide Homes, Ports, Receivers, WaitsAs, V.VidTable.Valid, F.Table.Valid, I.Table.Valid, T.RingOk, Named;
      r := timers.Alloc(owner);
    }

    /** The timer with that id, if the running thread owns it. */
    method OwnTimer(t: Pid, id: Word) returns (a: Access)
      requires Valid()
      ensures a == AccessTo(timers.timers, id, vid[t])
    {
      hide Homes, Ports, Receivers, WaitsAs, V.VidTable.Valid, F.Table.Valid, I.Table.Valid, T.RingOk, Named;
      var r := timers.Lookup(id);
      if r.None? {
        return Denied(ESRCH);
      }
      if timers.timers[r.value].owner != vid[t] {
        return Denied(EPERM);
      }
      return Owned(r.value);
    }

    /** syscall_timer_create */
    method TimerCreate(core: nat)
      requires Valid() && core < |os.running| && os.running[core].Some?
      modifies `trap, timers
      ensures Valid() && timers.ring == old(timers.ring)
      ensures old(Calling(Now(), core)) && TimerMade(old(Now()), Now(), core)
    {
      hide Valid, Core, Homes, Ports, At;
      KnownCall(core);
      var t := os.running[core].value;
      var r := TimerAlloc(vid[t]);
      Known();
      if r.None? {
        SetReturn(t, Ret1(ENOMEM));
        return;
      }
      SetReturn(t, Ret2(0, timers.timers[r.value].id));
    }

    /** syscall_timer_delete with noza_timer_release: the waiters of the timer are all cancelled. */
    method TimerDelete(core: nat, id: Word)
      requires Valid() && core < |os.running| && os.running[core].Some?
      modifies `os, `trap, timers`timers, timers`ring
      ensures Valid()
      ensures old(Calling(Now(), core)) && TimerDeleted(old(Now()), Now(), core, id)
    {
      hide Valid, Core, Homes, Ports, At, WakeAll, Answered, Without;
      KnownCall(core);
      var t := os.running[core].value;
      var a := OwnTimer(t, id);
      if a.Denied? {
        SetReturn(t, Ret1(a.code));
        return;
      }
      var i := a.index;
      TimerRemove(i);
      var n := CountWaiters(TimerRing(i));
      var woke;
      ghost var woken;
      woke, woken := WakeWaiters(TimerRing(i), n, ECANCELED);
      assert woken == At(old(os).rings, TimerRing(i));
      Known();
      TimerSet(i, T.Timer(timers.timers[i].id, 0, 0, 0, 0, 0, false, false));
      SetReturn(t, Ret1(0));
    }

    /** The waiter count of a queue; there are no more waiters than threads. */
    method CountWaiters(q: RingId) returns (n: Word)
      requires Valid() && IsQueue(q)
      ensures n == |At(os.rings, q)| && n <= 32
    {
      hide Homes, Ports, Named, Tables, Served, At, Put, Without, Placed, Receivers, WaitsAs;
      ListBound(os, q);
      return |At(os.rings, q)|;
    }

    /** Timer `i` gets new settings and is armed with them. */
    method TimerReset(i: nat, t: T.Timer)
      requires Valid() && i < T.TIMERS && timers.timers[i].inUse && t.inUse && !t.armed && t.deadline > 0
      modifies timers`timers, timers`ring
      ensures Valid() && timers.timers == old(timers.timers)[i := t.(armed := true)]
    {
      hide Valid, Core, Without, TimerPosition;
      Known();
      TimerRemove(i);
      TimerSet(i, t);
      TimerInsert(i);
    }

    /** syscall_timer_arm */
    method TimerArm(core: nat, id: Word, duration: Word, flags: Word, now: nat)
      requires Valid() && core < |os.running| && os.running[core].Some?
      modifies `trap, timers`timers, timers`ring
      ensures Valid()
      ensures old(Calling(Now(), core)) && TimerArmed(old(Now()), Now(), core, id, duration, flags, now)
    {
      hide Valid, Core, Homes, Ports, At, AccessTo;
      KnownCall(core);
      var t := os.running[core].value;
      if duration == 0 {
        SetReturn(t, Ret1(EINVAL));
        return;
      }
      var a := OwnTimer(t, id);
      if a.Denied? {
        SetReturn(t, Ret1(a.code));
        return;
      }
      var i := a.index;
      TimerReset(i, T.Timer(id, vid[t], now + duration, if flags % 2 == 1 then duration else 0, flags, 0, true, false));
      SetReturn(t, Ret1(0));
    }

    /** syscall_timer_cancel */
    method TimerCancel(core: nat, id: Word)
      requires Valid() && core < |os.running| && os.running[core].Some?
      modifies `trap, timers`timers, timers`ring
      ensures Valid()
      ensures old(Calling(Now(), core)) && TimerCancelled(old(Now()), Now(), core, id)
    {
      hide Valid, Core, Homes, Ports, At, Without;
      KnownCall(core);
      var t := os.running[core].value;
      var a := OwnTimer(t, id);
      if a.Denied? {
        SetReturn(t, Ret1(a.code));
        return;
      }
      TimerRemove(a.index);
      SetReturn(t, Ret1(0));
    }

    /** syscall_timer_wait: a pending firing is used up, otherwise the thread waits. */
    method TimerWait(core: nat, id: Word, timeout: Word, now: int)
      requires Valid() && core < |os.running| && os.running[core].Some?
      modifies `os, `trap, `expired, timers`timers
      ensures Valid()
      ensures old(Calling(Now(), core)) && TimerWaited(old(Now()), Now(), core, id, timeout, now)
    {
      hide Valid, Core, Homes, Ports, At, Queued, AccessTo;
      KnownCall(core);
      var t := os.running[core].value;
      var a := OwnTimer(t, id);
      if a.Denied? {
        SetReturn(t, Ret1(a.code));
        return;
      }
      var i := a.index;
      if timers.timers[i].pending > 0 {
        TimerPending(i, timers.timers[i].pending - 1);
        SetReturn(t, Ret1(0));
        return;
      }
      WaitIn(core, TimerRing(i), timeout, now);
    }

    method TimerPending(i: nat, pending: nat)
      requires Valid() && i < T.TIMERS
      modifies timers`timers
      ensures Valid() && timers.timers == old(timers.timers)[i := old(timers.timers)[i].(pending := pending)]
    {
      hide Homes, Ports, Receivers, WaitsAs, V.VidTable.Valid, F.Table.Valid, I.Table.Valid, T.RingOk, Named;
      timers.SetPending(i, pending);
    }

    /** Wakes the oldest waiter of a timer, if there is one. */
    method WakeFirst(q: RingId) returns (woke: nat)
      requires Valid() && IsQueue(q) && At(os.rings, q) != []
      modifies `os, `trap
      ensures Valid()
      ensures var t := At(old(os).rings, q)[0]; os == WakeOne(old(os), t) && trap == old(trap)[t := Ret1(0)]
      ensures forall r :: IsQueue(r) ==> At(os.rings, r) == if r == q then At(old(os).rings, q)[1..] else At(old(os).rings, r)
    {
      hide Valid, Core, Homes, Ports, At, WakeOne, WakeAll, Answered;
      Known();
      ghost var k, w := os, At(os.rings, q);
      ghost var woken;
      woke, woken := WakeWaiters(q, 1, 0);
      assert woken == w[..1] == [] + [w[0]];
      WakeAllNone(k);
      WakeAllSnoc(k, [], w[0]);
      AnsweredNone(old(trap), Ret1(0));
      AnsweredSnoc(old(trap), [], w[0], Ret1(0));
      forall r | IsQueue(r) ensures At(os.rings, r) == if r == q then w[1..] else At(k.rings, r) {
        if r != q {
          OtherQueues(k, q, 1, r);
        }
      }
    }

    /** noza_timer_fire, for a timer just taken off the ring: one waiter is woken or, with nobody
        waiting, the firing is kept; a periodic timer is armed again. */
    method TimerFire(i: nat)
      requires Valid() && i < T.TIMERS && !timers.timers[i].armed && timers.timers[i].inUse && timers.timers[i].deadline > 0
      modifies `os, `trap, timers`timers, timers`ring
      ensures Valid()
      ensures var w := At(old(os).rings, TimerRing(i));
        && timers.timers == old(timers.timers)[i := T.FiredWith(old(timers.timers)[i], w)]
        && (if w == [] then os == old(os) && trap == old(trap)
            else os == WakeOne(old(os), w[0]) && trap == old(trap)[w[0] := Ret1(0)])
        && forall r :: IsQueue(r) ==>
             At(os.rings, r) == if r == TimerRing(i) && w != [] then w[1..] else At(old(os).rings, r)
      ensures var t, t' := old(timers.timers)[i], timers.timers[i];
        && (t.flags % 2 == 1 && t.period > 0 ==> t'.armed && t'.deadline == t.deadline + t.period)
        && (t.flags % 2 == 0 || t.period <= 0 ==> !t'.armed && t'.deadline == t.deadline)
        && t'.pending == if At(old(os).rings, TimerRing(i)) == [] then t.pending + 1 else t.pending
    {
      hide Valid, Core, Homes, Ports, At, WakeOne, TimerPosition;
      Known();
      var n := CountWaiters(TimerRing(i));
      if n > 0 {
        n := WakeFirst(TimerRing(i));
      } else {
        TimerPending(i, timers.timers[i].pending + 1);
      }
      Known();
      var t := timers.timers[i];
      if t.flags % 2 == 1 && t.period > 0 {
        TimerSet(i, t.(deadline := t.deadline + t.period));
        TimerInsert(i);
      }
    }

    lemma TimerHead()
      requires Valid()
      ensures timers.ring != [] ==> var i := timers.ring[0];
        && i < T.TIMERS && timers.timers[i].armed && timers.timers[i].inUse && timers.timers[i].deadline > 0
        && forall j :: 0 <= j < T.TIMERS && timers.timers[j].armed ==> timers.timers[i].deadline <= timers.timers[j].deadline
      ensures timers.ring == [] ==> forall j :: 0 <= j < T.TIMERS ==> !timers.timers[j].armed
    {
      hide Homes, Ports, Named, Served, Receivers, WaitsAs, V.VidTable.Valid, F.Table.Valid, I.Table.Valid;
      if timers.ring != [] {
        T.HeadEarliest(timers.timers, timers.ring);
      }
    }

    /** The earliest timer, already due, is taken off the ring and fires. */
    method TimerFireHead(ghost t0: seq<T.Timer>, ghost k: Sched, ghost log: seq<nat>, ghost times: seq<int>,
                         ghost trap0: seq<Trap>, now: int) returns (ghost i: nat)
      requires Valid() && Shaped(k) && |trap0| == 32
      requires timers.ring != [] && timers.ring[0] < T.TIMERS && timers.timers[timers.ring[0]].deadline <= now
      requires T.Drain(t0, k.rings, timers.timers, os.rings, log, times, now)
      requires os == WakeAll(k, T.WokenBy(k.rings, log)) && trap == Answered(trap0, T.WokenBy(k.rings, log), Ret1(0))
      modifies `os, `trap, timers`timers, timers`ring
      ensures Valid() && i == old(timers.ring)[0]
      ensures T.Drain(t0, k.rings, timers.timers, os.rings, log + [i], times + [old(timers.timers)[i].deadline], now)
      ensures os == WakeAll(k, T.WokenBy(k.rings, log + [i]))
      ensures trap == Answered(trap0, T.WokenBy(k.rings, log + [i]), Ret1(0))
      ensures T.Total(timers.timers, now) < old(T.Total(timers.timers, now))
    {
      hide Valid, Core, Homes, Ports, At, WakeOne, WakeAll, Answered, T.Drain, T.WokenBy, T.FiredWith, T.Remaining, T.Total;
      Known();
      TimerHead();
      var head := timers.ring[0];
      i := head;
      ghost var ts, rings := timers.timers, os.rings;
      ghost var w, woken := At(rings, TimerRing(i)), T.WokenBy(k.rings, log);
      T.DueRemains(ts[i], now);
      T.WokenByStep(t0, k.rings, ts, rings, log, times, now, i);
      T.FiredTotal(ts, i, w, now);
      T.FiredUnarmed(ts[i], w);
      TimerRemove(head);
      TimerFire(head);
      assert timers.timers == ts[i := T.FiredWith(ts[i], w)];
      T.DrainStep(t0, k.rings, ts, rings, timers.timers, os.rings, log, times, now, i);
      if w == [] {
        assert woken + [] == woken;
      } else {
        WakeAllSnoc(k, woken, w[0]);
        AnsweredSnoc(trap0, woken, w[0], Ret1(0));
      }
    }

    /** noza_timer_tick: the due timers fire in the order of their deadlines, each as often as its
        deadline and period say, and each firing wakes the oldest waiter or is kept; afterwards
        nothing is due.  `log` and `times` say which timer fired when. */
    method TimerTick(now: int) returns (ghost log: seq<nat>, ghost times: seq<int>)
      requires Valid()
      modifies `os, `trap, timers`timers, timers`ring
      ensures Valid()
      ensures |old(timers.timers)| == T.TIMERS && T.Chronicle(old(timers.timers), log, times, now)
      ensures forall i :: 0 <= i < T.TIMERS ==> T.Count(log, i) == T.Remaining(old(timers.timers)[i], now)
      ensures forall i :: 0 <= i < T.TIMERS ==>
        var t, w := old(timers.timers)[i], At(old(os).rings, TimerRing(i));
        var n := T.Remaining(t, now);
        && At(os.rings, TimerRing(i)) == w[if n <= |w| then n else |w|..]
        && timers.timers[i] == T.AfterTick(t, now).(pending := t.pending + if n <= |w| then 0 else n - |w|)
      ensures var woken := T.WokenBy(old(os).rings, log);
        os == WakeAll(old(os), woken) && trap == Answered(old(trap), woken, Ret1(0))
      ensures forall i :: 0 <= i < T.TIMERS && timers.timers[i].armed ==> timers.timers[i].deadline > now
      ensures forall i :: 0 <= i < T.TIMERS ==> (
        var t, t' := old(timers.timers)[i], timers.timers[i];
        if !t.armed || t.deadline > now then multiset(log)[i] == 0 && t'.armed == t.armed && t'.deadline == t.deadline
        else if t.flags % 2 == 1 && t.period > 0 then
          multiset(log)[i] == (now - t.deadline) / t.period + 1 && t'.armed && now < t'.deadline <= now + t.period
        else multiset(log)[i] == 1 && !t'.armed)
    {
      hide Valid, Core, Homes, Ports, At, WakeOne, WakeAll, Answered, T.Drain, T.Chronicle, T.WokenBy, T.FiredWith, T.Remaining, T.AfterTick, T.Count, T.Total, TimerTicked;
      Known();
      ghost var t0, k := timers.timers, os;
      log, times := [], [];
      T.DrainStart(t0, k.rings, now);
      WakeAllNone(os);
      AnsweredNone(trap, Ret1(0));
      T.WokenByNone(k.rings);
      TimerHead();
      while timers.ring != [] && timers.timers[timers.ring[0]].deadline <= now
        invariant Valid() && Columns() && (timers.ring != [] ==> timers.ring[0] < T.TIMERS)
        invariant T.Drain(t0, k.rings, timers.timers, os.rings, log, times, now)
        invariant os == WakeAll(k, T.WokenBy(k.rings, log))
        invariant trap == Answered(old(trap), T.WokenBy(k.rings, log), Ret1(0))
        decreases T.Total(timers.timers, now)
      {
        ghost var ts := timers.timers;
        ghost var i := TimerFireHead(t0, k, log, times, old(trap), now);
        log, times := log + [i], times + [ts[i].deadline];
        Known();
        TimerHead();
      }
      TimerHead();
      forall i | 0 <= i < T.TIMERS
        ensures T.Count(log, i) == T.Remaining(t0[i], now)
        ensures var w := At(k.rings, TimerRing(i));
          var n := T.Remaining(t0[i], now);
          && At(os.rings, TimerRing(i)) == w[if n <= |w| then n else |w|..]
          && timers.timers[i] == T.AfterTick(t0[i], now).(pending := t0[i].pending + if n <= |w| then 0 else n - |w|)
        ensures TimerTicked(t0[i], timers.timers[i], multiset(log)[i], now)
      {
        T.DrainDone(t0, k.rings, timers.timers, os.rings, log, times, now, i);
        T.CountIs(log, i);
        TickedOnce(t0[i], timers.timers[i], multiset(log)[i], now);
      }
      T.DrainLog(t0, k.rings, timers.timers, os.rings, log, times, now);
      forall i | 0 <= i < T.TIMERS ensures (
        var t, t' := t0[i], timers.timers[i];
        if !t.armed || t.deadline > now then multiset(log)[i] == 0 && t'.armed == t.armed && t'.deadline == t.deadline
        else if t.flags % 2 == 1 && t.period > 0 then
          multiset(log)[i] == (now - t.deadline) / t.period + 1 && t'.armed && now < t'.deadline <= now + t.period
        else multiset(log)[i] == 1 && !t'.armed)
      {
        TickedFields(t0[i], timers.timers[i], multiset(log)[i], now);
      }
    }

    /** noza_os_insert_vid.  The item pool cannot be empty, since there are as many items as threads. */
    method BindFresh(t: Pid) returns (v: Word)
      requires vids.Valid() && t !in vids.index.Values
      modifies `halt, vids
      ensures vids.Valid() && halt == old(halt)
      ensures 1 <= v < V.AUTO_LIMIT && v !in old(vids.index) && vids.index == old(vids.index)[v := t]
    {
      hide V.VidTable.Valid;
      ghost var k;
      v, k := vids.FreshVid();
      var panic := vids.Insert(t, v);
      halt := if panic then Some(NoVidItem) else halt;
    }

    /** noza_thread_alloc: the thread leaves the free list with a vid of its own. */
    method TakeFree(t: Pid)
      requires Core() && os.home[t] == InRing(FreeRing)
      modifies `os, `vid, `halt, vids
      ensures Core() && halt == old(halt) && os == Unlink(old(os), FreeRing, t)
      ensures var v := vid[t]; 1 <= v < V.AUTO_LIMIT && v !in old(vids.index)
      ensures vid == old(vid)[t := vid[t]] && vids.index == old(vids.index)[vid[t] := t]
    {
      hide Homes, Ports, Named, Served, V.VidTable.Valid, F.Table.Valid, T.Table.Valid, I.Table.Valid, Without, At, Put;
      BlockedAt(os, t);
      CheckState(FreeRing, t);
      HomesUnlink(os, FreeRing, t);
      PortsUnlink(os, FreeRing, t);
      ServedLess(os.rings, FreeRing, Without(At(os.rings, FreeRing), t), timers.timers, futex.keys);
      FreeUnbound(vids.index, vid, os.home, t);
      ghost var index := vids.index;
      var v := BindFresh(t);
      NamedAlloc(index, vid, os.home, t, v, Limbo);
      vid := vid[t := v];
      assert os.queue[t := None] == os.queue;
      os := os.(rings := Put(os.rings, FreeRing, Without(At(os.rings, FreeRing), t)), home := os.home[t := Limbo]);
    }

    method EnterReady(t: Pid, p: Priority)
      requires Core() && os.home[t] == InRing(FreeRing) && !os.timeout[t]
      modifies `os, `vid, `halt, vids
      ensures Core() && halt == old(halt) && os == Created(old(os), t, p)
      ensures var v := vid[t]; 1 <= v < V.AUTO_LIMIT && v !in old(vids.index)
      ensures vid == old(vid)[t := vid[t]] && vids.index == old(vids.index)[vid[t] := t]
    {
      hide Homes, Ports, Named, Tables, Served, At, Put, Without, Placed;
      TakeFree(t);
      SetPriorityOf(t, p);
      AddThread(ReadyRing(p), t);
    }

    method ResetThread(t: Pid)
      requires Valid()
      modifies `detached, `signals, `trap
      ensures Valid() && detached == old(detached)[t := false] && signals == old(signals)[t := 0]
      ensures trap == old(trap)[t := old(trap)[t].(phase := Done)]
    {
      hide Homes, Ports, Named, Tables, Served, At, Put, Without, Placed, Receivers, WaitsAs;
      detached, signals, trap := detached[t := false], signals[t := 0], trap[t := trap[t].(phase := Done)];
    }

    /** A free thread becomes ready under a vid of its own. */
    method StartThread(t: Pid, p: Priority)
      requires Valid() && os.home[t] == InRing(FreeRing)
      modifies `os, `vid, `halt, `detached, `signals, `trap, vids
      ensures Valid() && halt == old(halt) && os == Created(old(os), t, p)
      ensures var v := vid[t]; 1 <= v < V.AUTO_LIMIT && v !in old(vids.index)
      ensures vid == old(vid)[t := vid[t]] && vids.index == old(vids.index)[vid[t] := t]
      ensures detached == old(detached)[t := false] && signals == old(signals)[t := 0]
      ensures trap == old(trap)[t := old(trap)[t].(phase := Done)]
    {
      hide Homes, Ports, Named, Tables, Served, At, Put, Without, Placed, Calm, WaitsAs, Receivers, Created;
      ghost var k := os;
      NotTimed(os, t);
      ResetThread(t);
      EnterReady(t, p);
      CreatedHome(k, t, p);
      CreatedCalm(k, t, p);
      CalmKeeps(k, os, interrupted, old(vid), IRQ_SERVER_VID);
      WaitsAsRenamed(os, old(vid), t, vid[t], IRQ_SERVER_VID);
    }

    /** noza_os_remove_vid and noza_os_insert_vid_with_value: a thread takes over an unused vid. */
    method Rename(t: Pid, w: Word)
      requires Valid() && os.home[t] != InRing(FreeRing) && os.home[t] != InRing(WaitRing)
      requires w !in vids.index && (w == 0 ==> vid0Assigned)
      modifies `vid, `halt, vids
      ensures Valid() && halt == old(halt)
      ensures vid == old(vid)[t := w] && vids.index == (old(vids.index) - {old(vid)[t]})[w := t]
    {
      hide Homes, Ports, Named, Served, Receivers, WaitsAs, V.VidTable.Valid, F.Table.Valid, T.Table.Valid, I.Table.Valid;
      NamedRename(vids.index, vid, os.home, t, w);
      WaitsAsRenamed(os, vid, t, w, IRQ_SERVER_VID);
      vids.Remove(t, vid[t]);
      var panic := vids.Insert(t, w);
      halt := if panic then Some(NoVidItem) else halt;
      vid := vid[t := w];
    }

    method ClaimVid0()
      requires Valid()
      modifies `vid0Assigned
      ensures Valid() && vid0Assigned
    {
      hide Homes, Ports, Named, Tables, Served, At, Put, Without, Placed, Receivers, WaitsAs;
      vid0Assigned := true;
    }

    /** noza_os_thread_create: the oldest free thread becomes ready under a vid nobody else has,
        which is the reserved one whenever that is free. */
    method CreateThread(priority: Word, reserved: Word) returns (code: Word, v: Word)
      requires Valid()
      modifies `os, `vid, `halt, `detached, `signals, `trap, `vid0Assigned, vids
      ensures Valid() && halt == old(halt)
      ensures code == if priority >= 8 then EINVAL else if At(old(os).rings, FreeRing) == [] then EAGAIN else 0
      ensures code != 0 ==>
        && os == old(os) && vid == old(vid) && detached == old(detached) && signals == old(signals) && trap == old(trap)
        && vids.index == old(vids.index) && vid0Assigned == old(vid0Assigned)
      ensures code == 0 ==>
        var t := At(old(os).rings, FreeRing)[0];
        && os == Created(old(os), t, priority)
        && v !in old(vids.index) && vids.index == old(vids.index)[v := t] && vid == old(vid)[t := v]
        && (if reserved == 0 && !old(vid0Assigned) then v == 0
            else if reserved != 0 && reserved != AUTO && reserved !in old(vids.index) then v == reserved
            else 1 <= v < V.AUTO_LIMIT)
        && vid0Assigned == (old(vid0Assigned) || reserved == 0)
        && detached == old(detached)[t := false] && signals == old(signals)[t := 0]
        && trap == old(trap)[t := old(trap)[t].(phase := Done)]
    {
      hide Valid, Core, Homes, Ports, At, Created;
      Known();
      v := 0;
      if priority >= 8 {
        return EINVAL, v;
      }
      if At(os.rings, FreeRing) == [] {
        return EAGAIN, v;
      }
      var t := At(os.rings, FreeRing)[0];
      InRingAt(os, FreeRing, t);
      CreatedHome(os, t, priority);
      StartThread(t, priority);
      AssignReserved(t, reserved, old(vids.index));
      Known();
      return 0, vid[t];
    }

    /** The reserved vid replaces the one just given out, `index` being the vids used before. */
    method AssignReserved(t: Pid, reserved: Word, ghost index: map<Word, Pid>)
      requires Valid() && os.home[t] != InRing(FreeRing) && os.home[t] != InRing(WaitRing)
      requires vid[t] !in index && vids.index == index[vid[t] := t] && 1 <= vid[t] < V.AUTO_LIMIT
      modifies `vid, `halt, `vid0Assigned, vids
      ensures Valid() && halt == old(halt)
      ensures vid == old(vid)[t := vid[t]] && vid[t] !in index && vids.index == index[vid[t] := t]
      ensures if reserved == 0 && !old(vid0Assigned) then vid[t] == 0
              else if reserved != 0 && reserved != AUTO && reserved !in index then vid[t] == reserved
              else vid[t] == old(vid)[t]
      ensures vid0Assigned == (old(vid0Assigned) || reserved == 0)
    {
      hide Valid, Core, Homes, Ports, At;
      Known();
      if reserved == 0 && !vid0Assigned {
        Vid0Unused();
        ClaimVid0();
        Rename(t, 0);
        assert vids.index == index[0 := t];
      } else if reserved != 0 && reserved != AUTO {
        var other := FindThread(reserved);
        if other.None? {
          Rename(t, reserved);
          assert vids.index == index[reserved := t];
        }
      }
    }

    lemma Vid0Unused()
      requires Valid() && !vid0Assigned
      ensures 0 !in vids.index
    {
    }

    /** syscall_thread_create; `reserved` is the word behind r2, and the vid returned with an error
        is whatever was there. */
    method ThreadCreate(core: nat, reserved: Word, priority: Word, garbage: Word)
      requires Valid() && core < |os.running| && os.running[core].Some?
      modifies `os, `vid, `halt, `detached, `signals, `trap, `vid0Assigned, vids
      ensures Valid() && halt == old(halt)
      ensures old(Calling(Now(), core)) && Made(old(Now()), Now(), core, reserved, priority, garbage)
    {
      hide Valid, Core, Homes, Ports, At, Created;
      KnownCall(core);
      var s := os.running[core].value;
      var code, v := CreateThread(priority, reserved);
      Known();
      SetReturn(s, Ret2(code, if code == 0 then v else garbage));
    }

    ghost function View(): IrqView
      reads this, irq
    {
      IrqView(os, trap, irq.State())
    }

    /** What `Valid` leaves to be shown while line `i` may be deliverable without its bit. */
    ghost predicate ValidBut(i: nat)
      reads this, vids, futex, timers, irq
    {
      && Core()
      && Settled(os)
      && Receivers(os, interrupted)
      && (WaitsAs(os, vid, IRQ_SERVER_VID) ==> irq.Shaped() && irq.AnnouncedBut(i))
    }

    /** The event of line `i` goes to the IRQ server `t`, blocked in a receive. */
    method HandEvent(i: nat, t: Pid)
      requires ValidBut(i) && i < I.IRQS && irq.Shaped() && irq.queued[i] && !irq.inflight[i]
      requires IRQ_SERVER_VID in vids.index && vids.index[IRQ_SERVER_VID] == t && os.home[t] == InRing(WaitRing)
      modifies `os, `trap, `halt, irq`queued, irq`inflight, irq`delivered
      ensures Valid() && halt == old(halt) && Columns() && View() == GiveEvent(old(View()), t, i, eventAddress(i))
      ensures !WaitsAs(os, vid, IRQ_SERVER_VID)
    {
      hide Homes, Ports, Named, Served, At, Put, Without, Placed, Calm, WaitsAs, Receivers, Handed, I.LineOk,
        V.VidTable.Valid, F.Table.Valid, T.Table.Valid;
      ghost var k := os;
      irq.Take(i);
      Deliver(t, SenderVid(i), eventAddress(i), 16);
      HandedCalm(k, t);
      CalmKeeps(k, os, interrupted, vid, IRQ_SERVER_VID);
      OnlyServer(vids.index, vid, os, IRQ_SERVER_VID);
    }

    /** irq_deliver_if_waiting */
    method IrqDeliver(i: nat)
      requires ValidBut(i) && i < I.IRQS && irq.Shaped()
      modifies `os, `trap, `halt, irq`queued, irq`inflight, irq`delivered
      ensures Valid() && halt == old(halt)
      ensures if old(irq.queued)[i] && !old(irq.inflight)[i] && old(WaitsAs(os, vid, IRQ_SERVER_VID)) then
          && IRQ_SERVER_VID in vids.index && !WaitsAs(os, vid, IRQ_SERVER_VID)
          && View() == GiveEvent(old(View()), vids.index[IRQ_SERVER_VID], i, eventAddress(i))
        else View() == old(View())
    {
      hide Valid, ValidBut, Core, Homes, Ports, Named, At, WaitsAs, Handed;
      KnownBut(i);
      if !irq.queued[i] || irq.inflight[i] {
        SettledBut(i);
        return;
      }
      OnlyServer(vids.index, vid, os, IRQ_SERVER_VID);
      var server := LookupVid(IRQ_SERVER_VID);
      if server.None? {
        SettledBut(i);
        return;
      }
      var t := server.value;
      StateTellsHome(os, t);
      ListeningPort(os, t);
      if os.state[t] != WaitingMsg || !os.port[t].PortReady? {
        SettledBut(i);
        return;
      }
      HandEvent(i, t);
    }

    lemma KnownBut(i: nat)
      requires ValidBut(i)
      ensures Columns() && Homes(os) && Ports(os) && Settled(os) && Tables() && Named(vids.index, vid, os.home)
    {
    }

    lemma SettledBut(i: nat)
      requires ValidBut(i) && i < I.IRQS && irq.Shaped() && |os.home| == |vid| == 32
      requires WaitsAs(os, vid, IRQ_SERVER_VID) ==> !(irq.queued[i] && !irq.inflight[i])
      ensures Valid()
    {
      hide Homes, Ports, Named, Tables, Served, WaitsAs, Receivers;
    }

    method LookupVid(v: Word) returns (r: Option<Pid>)
      requires Tables()
      ensures r == if v in vids.index then Some(vids.index[v]) else None
    {
      hide F.Table.Valid, T.Table.Valid, I.Table.Valid;
      r := vids.Lookup(v);
    }

    /** One round of irq_process_pending: the lowest bit is taken and its event delivered, if the
        server is there to take it. */
    method IrqProcessNext() returns (ghost i: nat, more: bool)
      requires Valid()
      modifies `os, `trap, `halt, irq`bits, irq`queued, irq`inflight, irq`delivered
      ensures Valid() && halt == old(halt) && irq.Shaped()
      ensures more <==> old(irq.bits) != {}
      ensures !more ==> View() == old(View()) && irq.bits == old(irq.bits)
      ensures more ==> i < I.IRQS && i in old(irq.bits) && irq.bits == old(irq.bits) - {i} && forall j :: j in old(irq.bits) ==> i <= j
      ensures more ==>
        if old(irq.queued)[i] && !old(irq.inflight)[i] && old(WaitsAs(os, vid, IRQ_SERVER_VID)) then
          && IRQ_SERVER_VID in vids.index && !WaitsAs(os, vid, IRQ_SERVER_VID)
          && View() == GiveEvent(old(View()), vids.index[IRQ_SERVER_VID], i, eventAddress(i))
        else View() == old(View())
    {
      hide Valid, ValidBut, Core, Homes, Ports, Named, At, WaitsAs, Handed, I.Table.Valid;
      Known();
      KnownIrq();
      var r := IrqFetch();
      if r.None? {
        i, more := 0, false;
        return;
      }
      i, more := r.value, true;
      IrqDeliver(r.value);
      KnownIrq();
    }

    lemma KnownIrq()
      requires Valid()
      ensures irq.Valid() && irq.Shaped() && |vid| == 32 && Shaped(os)
      ensures WaitsAs(os, vid, IRQ_SERVER_VID) ==> irq.Announced()
    {
    }

    /** irq_fetch_next_pending: from here on the line whose bit is gone may go unannounced. */
    method IrqFetch() returns (r: Option<nat>)
      requires Valid()
      modifies irq`bits
      ensures irq.Shaped()
      ensures r.None? ==> Valid() && irq.bits == old(irq.bits) == {}
      ensures r.Some? ==> ValidBut(r.value) && r.value < I.IRQS && r.value in old(irq.bits)
      ensures r.Some? ==> irq.bits == old(irq.bits) - {r.value} && forall j :: j in old(irq.bits) ==> r.value <= j
    {
      hide Homes, Ports, Named, Served, WaitsAs, Receivers, V.VidTable.Valid, F.Table.Valid, T.Table.Valid;
      r := irq.FetchNext();
    }

    /** noza_irq_handle_from_isr: the controller raises only lines that are not masked. */
    method IrqRaised(i: nat)
      requires Valid() && i !in irq.masked
      modifies irq
      ensures Valid() && old(I.Full(irq.State()))
      ensures irq.State() == if i < I.IRQS then I.Latched(old(irq.State()), i) else old(irq.State())
    {
      hide Homes, Ports, Named, Served, WaitsAs, Receivers, V.VidTable.Valid, F.Table.Valid, T.Table.Valid, I.LineOk;
      irq.Isr(i);
    }

    /** irq_process_pending: the bitmap is drained; if the server was waiting and some event could
        be handed over, the one of the lowest line is, and the others stay queued for its next
        receive.  So the server is never left waiting beside an event. */
    method IrqProcessPending()
      requires Valid()
      modifies `os, `trap, `halt, irq`bits, irq`queued, irq`inflight, irq`delivered
      ensures Valid() && halt == old(halt) && irq.bits == {}
      ensures irq.Shaped() && I.Full(old(irq.State()))
      ensures var d := I.NextEvent(old(irq.queued), old(irq.inflight), 0);
        if d.Some? && old(WaitsAs(os, vid, IRQ_SERVER_VID)) then
          && IRQ_SERVER_VID in vids.index
          && View() == GiveEvent(old(View()), vids.index[IRQ_SERVER_VID], d.value, eventAddress(d.value))
        else View() == old(View())
      ensures WaitsAs(os, vid, IRQ_SERVER_VID) ==> I.NextEvent(irq.queued, irq.inflight, 0).None?
    {
      hide Valid, Core, Homes, Ports, Named, At, WaitsAs, GiveEvent, I.Table.Valid, I.NextEvent;
      Known();
      KnownIrq();
      ghost var d, v := I.NextEvent(irq.queued, irq.inflight, 0), View();
      ghost var waits, done := WaitsAs(os, vid, IRQ_SERVER_VID), false;
      var more := true;
      while more
        invariant Valid() && irq.Shaped() && halt == old(halt) && Columns()
        invariant !more ==> irq.bits == {}
        invariant !done ==> View() == v
        invariant done ==> waits && d.Some? && IRQ_SERVER_VID in vids.index && !WaitsAs(os, vid, IRQ_SERVER_VID)
        invariant done ==> View() == GiveEvent(v, vids.index[IRQ_SERVER_VID], d.value, eventAddress(d.value))
        decreases irq.bits, more
      {
        KnownIrq();
        ghost var q, f := irq.queued, irq.inflight;
        ghost var here := WaitsAs(os, vid, IRQ_SERVER_VID);
        ghost var i;
        i, more := IrqProcessNext();
        Known();
        if more && here && q[i] && !f[i] {
          I.NextEventFirst(q, f, 0, i);
          done := true;
        }
      }
      KnownIrq();
    }

    /** The event of line `i` goes to the running thread `t`. */
    method TakeEvent(t: Pid, i: nat)
      requires Valid() && os.home[t] != InRing(WaitRing)
      requires i < I.IRQS && irq.Shaped() && irq.queued[i] && !irq.inflight[i]
      modifies `os, `trap, irq`queued, irq`inflight, irq`delivered
      ensures Valid() && old(Whole(Now())) && Now() == EventTaken(old(Now()), t, i, eventAddress)
    {
      hide Homes, Ports, Named, Served, At, Calm, WaitsAs, Receivers, I.LineOk, SetPort,
        V.VidTable.Valid, F.Table.Valid, T.Table.Valid;
      ghost var k := os;
      SetPortCalm(k, t);
      CalmKeeps(k, SetPort(k, t, WaitListen), interrupted, vid, IRQ_SERVER_VID);
      irq.Take(i);
      PortListen(t);
      trap := trap[t := Ret4(0, SenderVid(i), eventAddress(i), 16)];
    }

    /** syscall_recv: the IRQ server takes the event of the lowest line first; only with none to
        take does it look at its port like everyone else. */
    method ReceiveCall(core: nat)
      requires Valid() && core < |os.running| && os.running[core].Some? && halt.None?
      modifies `os, `trap, `halt, irq`queued, irq`inflight, irq`delivered
      ensures Valid() && halt.None?
      ensures old(Calling(Now(), core)) && Received(old(Now()), Now(), core, eventAddress)
    {
      hide Valid, Core, Homes, Ports, At, WaitsAs, Accept, Listen, SetPort, I.NextEvent, I.Table.Valid, EventTaken, PortReceived;
      KnownCall(core);
      KnownIrq();
      RunningHome(os, core);
      var t := os.running[core].value;
      if vid[t] == IRQ_SERVER_VID {
        var d := irq.FirstDeliverable();
        if d.Some? {
          TakeEvent(t, d.value);
          return;
        }
      }
      Recv(core);
    }

    /** The reply to line `i`: from here on its next event may go unannounced. */
    method IrqAcknowledge(i: nat)
      requires Valid() && i < I.IRQS
      modifies irq`inflight, irq`overflow, irq`masked, irq`disciplined
      ensures ValidBut(i) && irq.Shaped() && old(I.Full(irq.State())) && irq.State() == I.Acked(old(irq.State()), i)
    {
      hide Homes, Ports, Named, Served, WaitsAs, Receivers, V.VidTable.Valid, F.Table.Valid, T.Table.Valid, I.LineOk;
      irq.Acknowledge(i);
    }

    /** irq_try_handle_reply: the reply to line `i` unmasks it and, with another event already there,
        hands that over to a waiting server at once. */
    method IrqReply(core: nat, i: nat)
      requires Valid() && core < |os.running| && os.running[core].Some? && halt.None? && i < I.IRQS
      modifies `os, `trap, `halt, irq
      ensures Valid() && halt.None?
      ensures old(Calling(Now(), core)) && Acknowledged(old(Now()), Now(), core, i, eventAddress)
    {
      hide Valid, Core, Homes, Ports, At, ValidBut, WaitsAs, I.Table.Valid, Handed, I.Taken;
      KnownCall(core);
      SetReturn(os.running[core].value, Ret1(0));
      IrqAcknowledge(i);
      IrqDeliver(i);
    }

    /** syscall_call */
    method SendCall(core: nat, v: Word, msg: Word, size: Word)
      requires Valid() && core < |os.running| && os.running[core].Some? && halt.None?
      modifies `os, `trap, `message, `halt
      ensures halt.None? ==> Valid()
      ensures halt.Some? ==> halt.value == SendNotWaiting && v in vids.index && vids.index[v] in interrupted
      ensures old(Calling(Now(), core)) && Sent(old(Now()), Now(), core, v, msg, size)
    {
      hide Valid, Core, Homes, Ports, At, BlockOn, Rendezvous;
      KnownCall(core);
      var r := FindThread(v);
      if r.None? {
        SetReturn(os.running[core].value, Ret1(ESRCH));
        return;
      }
      StateTellsHome(os, r.value);
      Send(core, r.value, msg, size);
    }

    /** syscall_nbcall, which passes the vid on as the message and the message as its size. */
    method NonblockSendCall(core: nat, v: Word, msg: Word)
      requires Valid() && core < |os.running| && os.running[core].Some? && halt.None?
      modifies `os, `trap, `message, `halt
      ensures halt.None? ==> Valid()
      ensures halt.Some? ==> halt.value == SendNotWaiting && v in vids.index && vids.index[v] in interrupted
      ensures old(Calling(Now(), core)) && Offered(old(Now()), Now(), core, v, msg)
    {
      hide Valid, Core, Homes, Ports, At, Rendezvous;
      KnownCall(core);
      var r := FindThread(v);
      if r.None? {
        SetReturn(os.running[core].value, Ret1(ESRCH));
        return;
      }
      NonblockSend(core, r.value, v, msg);
    }

    method SetHalt(reason: Option<HaltReason>)
      requires Valid()
      modifies `halt
      ensures Valid() && halt == reason
    {
      hide Homes, Ports, Named, Tables, Served, Receivers, WaitsAs, At;
      halt := reason;
    }

    /** syscall_thread_terminate: it cannot fail, the thread being the running one. */
    method TerminateCall(core: nat, code: Word)
      requires Valid() && core < |os.running| && os.running[core].Some? && halt.None?
      modifies `os, `trap, `expired, `exitCode, `vid, `halt, vids
      ensures Valid() && halt.None?
      ensures old(Calling(Now(), core)) && Exited(old(Now()), Now(), core, code)
    {
      hide Valid, Core, Homes, Ports, At, Detachable, Ended, Detach, ExitTraps, AfterExit;
      KnownCall(core);
      RunningHome(os, core);
      var t := os.running[core].value;
      var rc := Terminate(core, t, code);
      SetHalt(if rc != 0 then Some(TerminateFailed) else halt);
      ExitDone(old(Now()), Now(), core, t, code);
    }

    /** syscall_thread_change_priority takes any priority; one that has no ready list is the end. */
    method PriorityCall(core: nat, v: Word, p: Word)
      requires Valid() && core < |os.running| && os.running[core].Some? && halt.None?
      modifies `os, `trap, `halt
      ensures (halt.None? ==> Valid()) && (halt.Some? ==> halt.value == PriorityOutOfTable)
      ensures old(Calling(Now(), core)) && PrioritySet(old(Now()), Now(), core, v, p)
    {
      hide Valid, Core, Homes, Ports, At, Reprioritise;
      KnownCall(core);
      var r := FindThread(v);
      if p % 256 < 8 {
        ChangePriority(core, v, p % 256);
      } else if r.None? || os.state[r.value] == Zombie {
        SetReturn(os.running[core].value, Ret1(ESRCH));
      } else {
        halt := Some(PriorityOutOfTable);
      }
    }

    /** syscall_signal_send */
    method SignalCall(core: nat, v: Word, signum: Word)
      requires Valid() && core < |os.running| && os.running[core].Some?
      modifies `os, `trap, `halt, `interrupted, `signals
      ensures Valid() && halt == old(halt)
      ensures old(Calling(Now(), core)) && Signalled(old(Now()), Now(), core, v, signum)
    {
      hide Valid, Core, Homes, Ports, At, SignalSent;
      KnownCall(core);
      var t := os.running[core].value;
      if signum == 0 || signum > 32 {
        SetReturn(t, Ret1(EINVAL));
        return;
      }
      var r := FindThread(v);
      if r.None? {
        SetReturn(t, Ret1(ESRCH));
        return;
      }
      SignalSend(r.value, signum);
      SetReturn(t, Ret1(0));
    }

    /** syscall_signal_take */
    method SignalTake(core: nat)
      requires Valid() && core < |os.running| && os.running[core].Some?
      modifies `trap, `signals
      ensures Valid()
      ensures old(Calling(Now(), core)) && SignalsTaken(old(Now()), Now(), core)
    {
      hide Homes, Ports, Named, Tables, Served, At, Put, Without, Placed, Receivers, WaitsAs, SignalBits;
      KnownCall(core);
      var t := os.running[core].value;
      var pending := signals[t];
      signals := signals[t := 0];
      trap := trap[t := Ret1(SignalBits(pending))];
    }

    /** syscall_clock_gettime, in nanoseconds; `offset` sets the real-time clock. */
    method ClockCall(core: nat, id: Word, now: int, offset: int)
      requires Valid() && core < |os.running| && os.running[core].Some?
      modifies `trap
      ensures Valid()
      ensures old(Calling(Now(), core)) && ClockRead(old(Now()), Now(), core, id, now, offset)
    {
      hide Valid, Core, Homes, Ports, At;
      KnownCall(core);
      var ns := (if id == 0 then offset + now else now) * 1000;
      SetReturn(os.running[core].value, Ret3(0, (ns / 0x1_0000_0000) % 0x1_0000_0000, ns % 0x1_0000_0000));
    }

    /** The scheduling calls, numbers 0 to 6. */
    method ThreadCall(core: nat, c: Trap, env: Env)
      requires Valid() && core < |os.running| && os.running[core].Some? && halt.None? && CallId(c) <= 6
      modifies `os, `trap, `expired, `exitCode, `vid, `halt, `interrupted, `signals, `detached, `vid0Assigned, vids
      ensures (halt.None? ==> Valid()) && MayStop(halt, interrupted)
      ensures old(Calling(Now(), core)) && CallDone(old(Now()), Now(), core, c, env, eventAddress)
    {
      hide CallId, Valid, Core, Now, Calling, Slept, Killed, Made, PrioritySet, Joined, MadeDetached, Exited, Received, Replied, Sent, Polled, Offered, FutexWaited, FutexWoke,
        TimerMade, TimerDeleted, TimerArmed, TimerCancelled, TimerWaited, ClockRead, Signalled, SignalsTaken, Faulted;
      KnownCall(core);
      match CallId(c) {
        case 0 => SleepThread(core, c.r1, c.r2, env.now);
        case 1 => Kill(core, c.r1, c.r2, env.now);
        case 2 => ThreadCreate(core, if c.r2 != 0 then env.word else AUTO, c.r3, env.garbage);
        case 3 => PriorityCall(core, c.r1, c.r2);
        case 4 => Join(core, c.r1);
        case 5 => DetachThread(core, c.r1);
        case _ => TerminateCall(core, c.r1);
      }
    }

    /** syscall_reply: replies addressed to an interrupt line acknowledge it, all others go to a
        thread on the reply list. */
    method ReplyCall(core: nat, v: Word, msg: Word, size: Word)
      requires Valid() && core < |os.running| && os.running[core].Some? && halt.None?
      modifies `os, `trap, `halt, `interrupted, irq
      ensures (halt.None? ==> Valid()) && MayStop(halt, interrupted)
      ensures old(Calling(Now(), core)) && Replied(old(Now()), Now(), core, v, msg, size, eventAddress)
    {
      hide Valid, Core, Homes, Ports, At, WakeOne, Acknowledged;
      KnownCall(core);
      var line := LineOf(v);
      if line.Some? {
        IrqReply(core, line.value);
      } else {
        Reply(core, v, msg, size);
      }
    }

    /** The message calls, numbers 7 to 11. */
    method MessageCall(core: nat, c: Trap, env: Env)
      requires Valid() && core < |os.running| && os.running[core].Some? && halt.None? && 7 <= CallId(c) <= 11
      modifies `os, `trap, `message, `halt, `interrupted, irq
      ensures (halt.None? ==> Valid()) && MayStop(halt, interrupted)
      ensures old(Calling(Now(), core)) && CallDone(old(Now()), Now(), core, c, env, eventAddress)
    {
      hide CallId, Valid, Core, Now, Calling, Slept, Killed, Made, PrioritySet, Joined, MadeDetached, Exited, Received, Replied, Sent, Polled, Offered, FutexWaited, FutexWoke,
        TimerMade, TimerDeleted, TimerArmed, TimerCancelled, TimerWaited, ClockRead, Signalled, SignalsTaken, Faulted;
      KnownCall(core);
      match CallId(c) {
        case 7 => ReceiveCall(core);
        case 8 => ReplyCall(core, c.r1, c.r2, c.r3);
        case 9 => SendCall(core, c.r1, c.r2, c.r3);
        case 10 => NonblockRecv(core);
        case _ => NonblockSendCall(core, c.r1, c.r2);
      }
    }

    /** The futex, timer, clock and signal calls, numbers 12 to 21. */
    method WaitCall(core: nat, c: Trap, env: Env)
      requires Valid() && core < |os.running| && os.running[core].Some? && halt.None? && 12 <= CallId(c) <= 21
      modifies `os, `trap, `expired, `halt, `interrupted, `signals, futex, timers
      ensures Valid() && halt.None?
      ensures old(Calling(Now(), core)) && CallDone(old(Now()), Now(), core, c, env, eventAddress)
    {
      hide CallId, Valid, Core, Now, Calling, Slept, Killed, Made, PrioritySet, Joined, MadeDetached, Exited, Received, Replied, Sent, Polled, Offered, FutexWaited, FutexWoke,
        TimerMade, TimerDeleted, TimerArmed, TimerCancelled, TimerWaited, ClockRead, Signalled, SignalsTaken, Faulted;
      KnownCall(core);
      match CallId(c) {
        case 12 => FutexWait(core, c.r1, c.r2, c.r3, env.word, env.now);
        case 13 => FutexWake(core, c.r1, c.r2);
        case 14 => TimerCreate(core);
        case 15 => TimerDelete(core, c.r1);
        case 16 => TimerArm(core, c.r1, c.r2, c.r3, env.now);
        case 17 => TimerCancel(core, c.r1);
        case 18 => TimerWait(core, c.r1, c.r2, env.now);
        case 19 => ClockCall(core, c.r1, env.now, env.offset);
        case 20 => SignalCall(core, c.r1, c.r2);
        case _ => SignalTake(core);
      }
    }

    /** A fault ends the thread; a number outside the table is refused. */
    method OtherCall(core: nat, c: Trap, env: Env)
      requires Valid() && core < |os.running| && os.running[core].Some? && halt.None? && CallId(c) > 21
      modifies `os, `trap, `expired, `exitCode, `vid, `halt, vids
      ensures Valid() && halt.None?
      ensures old(Calling(Now(), core)) && CallDone(old(Now()), Now(), core, c, env, eventAddress)
    {
      hide CallId, Valid, Core, Homes, Ports, At, Ended, Detachable, Detach, ExitTraps;
      KnownCall(core);
      var t := os.running[core].value;
      if CallId(c) == 255 {
        TerminateCall(core, c.r1);
        Known();
        SetReturn(t, trap[t].(phase := Done));
      } else {
        SetReturn(t, Ret1(ENOSYS).(phase := Done));
      }
    }

    /** serv_syscall: the call pending in the trap frame of the running thread is served. */
    method ServeCall(core: nat, env: Env)
      requires Valid() && core < |os.running| && os.running[core].Some? && halt.None?
      modifies this, vids, futex, timers, irq
      ensures (halt.None? ==> Valid() && OthersRun(old(os), os, core)) && MayStop(halt, interrupted)
      ensures nextTick == old(nextTick)
      ensures old(Calling(Now(), core)) &&
        var a := old(Now());
        var f := a.trap[Caller(a, core)];
        && CallDone(Serve(a, core, f), Now(), core, f, env, eventAddress)
        && (interrupted != old(interrupted) ==>
              CallId(f) in {1, 20} && f.r1 in a.index && a.os.state[a.index[f.r1]] == WaitingMsg)
    {
      hide CallId, Valid, Core, Homes, Ports, Settled, OthersRun, CallDone;
      KnownCall(core);
      var t := os.running[core].value;
      var f := trap[t];
      if CallId(f) <= 21 {
        SetReturn(t, f.(phase := Serving));
      }
      ghost var a := Now();
      if CallId(f) <= 6 {
        ThreadCall(core, f, env);
      } else if CallId(f) <= 11 {
        MessageCall(core, f, env);
      } else if CallId(f) <= 21 {
        WaitCall(core, f, env);
      } else {
        OtherCall(core, f, env);
      }
      CallRuns(a, Now(), core, f, env, eventAddress);
    }

    /** noza_os_trap_info: a system call leaves its registers in the trap frame. */
    method TrapInfo(core: nat, r0: Word, r1: Word, r2: Word, r3: Word)
      requires Valid() && core < |os.running|
      modifies `trap
      ensures Valid()
      ensures old(Whole(Now())) && Now() == Trapped(old(Now()), core, Trap(r0, r1, r2, r3, Pending))
    {
      hide Valid, Core, Homes, Ports, At;
      KnownWhole();
      if os.running[core].Some? {
        SetReturn(os.running[core].value, Trap(r0, r1, r2, r3, Pending));
      }
    }

    /** check_syscall_output: what the thread gets back in its registers, if it was in a call. */
    method CheckOutput(t: Pid) returns (out: Option<Trap>)
      requires Valid()
      modifies `trap
      ensures Valid() && out == (if old(trap)[t].phase == Output then Some(old(trap)[t]) else None)
      ensures old(Whole(Now())) && Now() == GivenOut(old(Now()), t)
    {
      hide Valid, Core, Homes, Ports, At;
      KnownWhole();
      if trap[t].phase == Output {
        out := Some(trap[t]);
        SetReturn(t, trap[t].(phase := Done));
      } else {
        out := None;
      }
    }

    method Occupy(core: nat, t: Pid)
      requires Core() && core < |os.running| && os.running[core].None? && os.leaving.None? && os.home[t].Limbo? && !os.timeout[t]
      modifies `os
      ensures Core() && os == Dispatch(old(os), core, t)
    {
      hide Homes, Ports, Named, Tables, Served;
      HomesDispatch(os, core, t);
      NamedMove(vids.index, vid, os.home, t, OnCore(core));
      os := os.(state := os.state[t := Running], running := os.running[core := Some(t)], home := os.home[t := OnCore(core)]);
    }

    method Dispatched(core: nat, t: Pid)
      requires Valid() && core < |os.running| && os.running[core].None? && os.home[t] == InRing(ReadyRing(os.priority[t])) && halt.None?
      modifies `os, `halt
      ensures Valid() && halt.None? && os == Picked(old(os), core, t)
    {
      hide Homes, Ports, Named, Tables, Served, At, Put, Without, Placed, Calm, WaitsAs, Receivers;
      ghost var k := os;
      BlockedAt(os, t);
      NotTimed(os, t);
      RemoveThread(ReadyRing(os.priority[t]), t);
      Occupy(core, t);
      PickedCalm(k, core, t);
      CalmKeeps(k, os, interrupted, vid, IRQ_SERVER_VID);
    }

    /** pick_ready_thread: the oldest thread of the most urgent non-empty ready list runs. */
    method PickReady(core: nat) returns (r: Option<Pid>)
      requires Valid() && core < |os.running| && os.running[core].None? && halt.None?
      modifies `os, `halt
      ensures Valid() && halt.None? && r == NextReady(old(os).rings, 0)
      ensures os == if r.Some? then Picked(old(os), core, r.value) else old(os)
    {
      hide Valid, Core, Homes, Ports, At, Picked, NextReady;
      Known();
      r := MostUrgent();
      if r.Some? {
        ReadyHead(os);
        Dispatched(core, r.value);
      }
    }

    method MostUrgent() returns (r: Option<Pid>)
      ensures r == NextReady(os.rings, 0)
    {
      for p := 0 to 8
        invariant NextReady(os.rings, 0) == NextReady(os.rings, p)
      {
        if At(os.rings, ReadyRing(p)) != [] {
          return Some(At(os.rings, ReadyRing(p))[0]);
        }
      }
      return None;
    }

    /** is_with_higher_priority_thread */
    method HigherReady(t: Pid) returns (higher: bool)
      requires Valid()
      ensures higher <==> exists p :: 0 <= p < os.priority[t] && At(os.rings, ReadyRing(p)) != []
    {
      hide Valid, Core, Homes, Ports, At;
      Known();
      for p := 0 to os.priority[t]
        invariant forall q :: 0 <= q < p ==> At(os.rings, ReadyRing(q)) == []
      {
        if At(os.rings, ReadyRing(p)) != [] {
          return true;
        }
      }
      return false;
    }

    /** next_event_deadline: the heads of the sleep list, the timeout list and the timer ring. */
    method NextEventDeadline() returns (deadline: int)
      requires Valid()
      ensures Whole(Now()) && deadline == NextEventTime(Now())
      ensures forall i :: 0 <= i < T.TIMERS && timers.timers[i].armed ==> deadline != 0 && deadline <= timers.timers[i].deadline
    {
      hide Valid, Core, Homes, Ports, At;
      KnownWhole();
      TimerHead();
      deadline := 0;
      if At(os.rings, SleepRing) != [] {
        deadline := expired[At(os.rings, SleepRing)[0]];
      }
      if At(os.rings, SyncSleepRing) != [] {
        deadline := Earlier(deadline, expired[At(os.rings, SyncSleepRing)[0]]);
      }
      if timers.ring != [] {
        var i := timers.ring[0];
        deadline := Earlier(deadline, timers.timers[i].deadline);
        assert timers.timers[i].armed;
      }
    }

    /** arm_next_scheduler_deadline: the core is woken no later than its earliest timer. */
    method ArmDeadline(core: nat, now: nat, running: Option<Pid>)
      requires Valid() && core < |os.running|
      modifies `nextTick
      ensures Valid() && old(Whole(Now())) && Now() == Armed(old(Now()), core, now, running)
      ensures forall i :: 0 <= i < T.TIMERS && timers.timers[i].armed ==>
        nextTick[core] != 0 && nextTick[core] <= timers.timers[i].deadline
      ensures running.Some? && At(os.rings, ReadyRing(os.priority[running.value])) != [] ==>
        nextTick[core] != 0 && nextTick[core] <= now + TIME_SLICE
    {
      hide Valid, Core, Homes, Ports, At, NextEventTime;
      KnownWhole();
      var deadline := NextEventDeadline();
      if running.Some? && At(os.rings, ReadyRing(os.priority[running.value])) != [] {
        deadline := Earlier(deadline, now + TIME_SLICE);
      }
      SetNextTick(core, deadline);
    }

    method SetNextTick(core: nat, deadline: int)
      requires Valid() && core < |os.running|
      modifies `nextTick
      ensures Valid() && nextTick == old(nextTick)[core := deadline]
    {
      hide Homes, Ports, Named, Tables, Served, At, Put, Without, Placed, Receivers, WaitsAs;
      nextTick := nextTick[core := deadline];
    }

    method FireTimers(now: int) returns (ghost log: seq<nat>, ghost times: seq<int>)
      requires Valid() && halt.None?
      modifies `os, `trap, timers`timers, timers`ring
      ensures Valid() && os.running == old(os).running && FramesKept(os.running, old(trap), trap)
      ensures old(Whole(Now())) && TimersFired(old(Now()), Now(), log, times, now)
      ensures forall i :: 0 <= i < T.TIMERS && timers.timers[i].armed ==> timers.timers[i].deadline > now
    {
      hide Valid, Core, Homes, Ports, At, WakeAll, Answered, T.Chronicle, T.WokenBy, T.Remaining, T.AfterTick, T.Count;
      Known();
      KnownWhole();
      ghost var k := os;
      log, times := TimerTick(now);
      RunningSame(k, T.WokenBy(k.rings, log));
      WokenListed(k, log);
      AnsweredKept(k, old(trap), T.WokenBy(k.rings, log), Ret1(0));
      Known();
    }

    method WakeSleepers(now: int)
      requires Valid() && halt.None?
      modifies `os, `trap, `halt, `interrupted
      ensures Valid() && halt.None? && os.running == old(os).running && FramesKept(os.running, old(trap), trap)
      ensures old(Whole(Now())) && Now() == Awoken(old(Now()), SleepRing, now, Ret3(0, 0, 0))
    {
      hide Valid, Core, Homes, Ports, At, WakeAll, Answered, DuePrefix;
      Known();
      KnownWhole();
      ghost var k := os;
      ghost var woken := Wakeup(now);
      RunningSame(k, woken);
      QueueBlocked(k, SleepRing);
      AnsweredKept(k, old(trap), woken, Ret3(0, 0, 0));
    }

    method WakeLate(now: int)
      requires Valid() && halt.None?
      modifies `os, `trap, `halt, `interrupted
      ensures Valid() && halt.None? && os.running == old(os).running && FramesKept(os.running, old(trap), trap)
      ensures old(Whole(Now())) && Now() == Awoken(old(Now()), SyncSleepRing, now, Ret1(ETIMEDOUT))
    {
      hide Valid, Core, Homes, Ports, At, WakeAll, Answered, DuePrefix;
      Known();
      KnownWhole();
      ghost var k := os;
      ghost var woken := WakeupSync(now);
      RunningSame(k, woken);
      TimedBlocked(k);
      AnsweredKept(k, old(trap), woken, Ret1(ETIMEDOUT));
    }

    /** What every entry into the kernel does first: fire the timers and wake the sleepers. */
    method Tick(now: int)
      requires Valid() && halt.None?
      modifies `os, `trap, `halt, `interrupted, timers`timers, timers`ring
      ensures Valid() && halt.None? && os.running == old(os).running && FramesKept(os.running, old(trap), trap)
      ensures old(Whole(Now())) && Ticked(old(Now()), Now(), now)
      ensures forall i :: 0 <= i < T.TIMERS && timers.timers[i].armed ==> timers.timers[i].deadline > now
    {
      hide Valid, Core, Now, Whole, TimersFired, Awoken;
      KnownWhole();
      ghost var a := Now();
      ghost var log, times := FireTimers(now);
      ghost var m := Now();
      KnownWhole();
      WakeSleepers(now);
      WakeLate(now);
    }

    /** What a core does for thread `t` before it leaves the kernel with it. */
    method GoRun(core: nat, t: Pid, now: nat) returns (out: Option<Trap>)
      requires Valid() && core < |os.running| && halt.None?
      modifies `os, `trap, `halt, `nextTick, irq`bits, irq`queued, irq`inflight, irq`delivered
      ensures Valid() && halt.None? && os.running == old(os).running
      ensures old(Whole(Now())) && Flushed(Armed(GivenOut(old(Now()), t), core, now, Some(t)), Now(), eventAddress)
      ensures forall i :: 0 <= i < T.TIMERS && timers.timers[i].armed ==>
        nextTick[core] != 0 && nextTick[core] <= timers.timers[i].deadline
    {
      hide Valid, Core, At, Flushed, GivenOut, Armed;
      KnownWhole();
      out := CheckOutput(t);
      ArmDeadline(core, now, Some(t));
      KnownWhole();
      ProcessIrqs();
      KnownWhole();
    }

    /** The thread to run next takes the core. */
    method RunNext(core: nat, now: nat) returns (picked: Option<Pid>, out: Option<Trap>)
      requires Valid() && core < |os.running| && os.running[core].None? && halt.None?
      modifies `os, `trap, `halt, `nextTick, irq`bits, irq`queued, irq`inflight, irq`delivered
      ensures Valid() && halt.None? && os.running == old(os).running[core := picked]
      ensures old(Whole(Now())) && PickedBy(old(Now()), Now(), core, picked, now, eventAddress)
      ensures forall i :: 0 <= i < T.TIMERS && timers.timers[i].armed ==>
        nextTick[core] != 0 && nextTick[core] <= timers.timers[i].deadline
    {
      hide Valid, Core, Homes, Ports, At, NextReady, Picked, Flushed, GivenOut, Armed;
      KnownWhole();
      ghost var k := os;
      picked := PickReady(core);
      KnownWhole();
      out := None;
      if picked.Some? {
        PickedRuns(k, core, picked.value);
        out := GoRun(core, picked.value, now);
      } else {
        ArmDeadline(core, now, None);
      }
    }

    /** One round of the scheduler on an idle core, up to where it leaves the kernel: the events that
        are due happen, the most urgent thread is picked, and the next deadline is armed. */
    method Schedule(core: nat, now: nat) returns (picked: Option<Pid>, out: Option<Trap>)
      requires Valid() && core < |os.running| && os.running[core].None? && halt.None?
      modifies `os, `trap, `halt, `interrupted, `nextTick, timers`timers, timers`ring, irq`bits, irq`queued, irq`inflight, irq`delivered
      ensures Valid() && halt.None? && os.running == old(os).running[core := picked]
      ensures old(Whole(Now())) && Scheduled(old(Now()), Now(), core, picked, now, eventAddress)
      ensures forall i :: 0 <= i < T.TIMERS && timers.timers[i].armed ==>
        timers.timers[i].deadline > now && nextTick[core] != 0 && nextTick[core] <= timers.timers[i].deadline
    {
      hide Valid, Core, Whole, Ticked, Flushed, PickedBy;
      KnownWhole();
      Tick(now);
      KnownWhole();
      ghost var m := Now();
      ProcessIrqs();
      KnownWhole();
      ghost var n := Now();
      picked, out := RunNext(core, now);
    }

    method FlushIrqs()
      requires Valid() && halt.None?
      modifies `os, `trap, `halt, irq`bits, irq`queued, irq`inflight, irq`delivered
      ensures Valid() && halt.None? && irq.bits == {}
      ensures old(Whole(Now())) && Flushed(old(Now()), Now(), eventAddress)
    {
      hide Valid, Core, Homes, Ports, At, Handed, WaitsAs, I.NextEvent;
      KnownWhole();
      IrqProcessPending();
      assert Now().os == View().os && trap == View().trap && irq.State() == View().lines;
    }

    method ProcessIrqs()
      requires Valid() && halt.None?
      modifies `os, `trap, `halt, irq`bits, irq`queued, irq`inflight, irq`delivered
      ensures Valid() && halt.None? && os.running == old(os).running && irq.bits == {}
      ensures old(Whole(Now())) && Flushed(old(Now()), Now(), eventAddress)
    {
      hide Valid, Core, Homes, Ports, At, Handed, WaitsAs, I.NextEvent;
      KnownWhole();
      ghost var k := os;
      FlushIrqs();
      if IRQ_SERVER_VID in vids.index {
        HandedRuns(k, vids.index[IRQ_SERVER_VID]);
      }
    }

    /** One round of the inner scheduler loop, from where a core comes back from its thread: the
        events that are due happen, a pending call is served, and the thread is resumed, has
        blocked, or makes way for another. */
    method Enter(core: nat, env: Env) returns (out: Option<Trap>)
      requires Valid() && core < |os.running| && os.running[core].Some? && halt.None?
      modifies this, vids, futex, timers, irq
      ensures (halt.None? ==> Valid() && OthersRun(old(os), os, core)) && MayStop(halt, interrupted)
      ensures old(Calling(Now(), core)) && Entered(old(Now()), Now(), core, env, eventAddress)
      ensures halt.None? && os.running[core].Some? ==>
        && os.running[core] == old(os).running[core]
        && forall i :: 0 <= i < T.TIMERS && timers.timers[i].armed ==>
             nextTick[core] != 0 && nextTick[core] <= timers.timers[i].deadline
    {
      hide Valid, Core, Homes, Ports, Settled, At, OthersRun, Ticked, CallDone, Continued;
      KnownCall(core);
      out := None;
      var t := os.running[core].value;
      Tick(env.now);
      KnownCall(core);
      ghost var m := Now();
      SameRunning(old(os), m.os, core);
      SameRuns(m.os, core);
      if trap[t].phase == Pending {
        ServeCall(core, env);
        if halt.Some? {
          assert EnteredBy(old(Now()), m, Now(), Now(), core, env, eventAddress);
          return;
        }
        Known();
      }
      ghost var n := Now();
      RunsBetween(old(os), m.os, os, core);
      if os.running[core].Some? {
        KnownCall(core);
        out := Resumed(core, t, env.now, old(os));
      }
      assert EnteredBy(old(Now()), m, n, Now(), core, env, eventAddress);
    }

    /** The end of the round for a thread that did not block. */
    method Resumed(core: nat, t: Pid, now: nat, ghost k: Sched) returns (out: Option<Trap>)
      requires Valid() && core < |os.running| && os.running[core] == Some(t) && halt.None? && OthersRun(k, os, core)
      modifies `os, `trap, `halt, `nextTick, irq`bits, irq`queued, irq`inflight, irq`delivered
      ensures Valid() && halt.None? && OthersRun(k, os, core)
      ensures old(Calling(Now(), core)) && Continued(old(Now()), Now(), core, now, eventAddress)
      ensures os.running[core].Some? ==>
        && os.running[core] == Some(t)
        && forall i :: 0 <= i < T.TIMERS && timers.timers[i].armed ==>
             nextTick[core] != 0 && nextTick[core] <= timers.timers[i].deadline
    {
      hide Valid, Core, Homes, Ports, Settled, At, OthersRun, BlockOn, Flushed, GivenOut, Armed;
      KnownCall(core);
      ghost var k1 := os;
      out := None;
      var higher := HigherReady(t);
      var peer := At(os.rings, ReadyRing(os.priority[t])) != [];
      if higher || (peer && nextTick[core] != 0 && now >= nextTick[core]) {
        BlockRunning(core, ReadyRing(os.priority[t]));
        BlockRuns(k1, core, ReadyRing(k1.priority[t]));
        RunsBetween(k, k1, os, core);
        return;
      }
      out := GoRun(core, t, now);
      SameRunning(k1, os, core);
      RunsBetween(k, k1, os, core);
    }

    /** One event: whatever it is, the kernel ends in a valid state or stops for one of the reasons a
        thread can bring about. */
    method Step(e: Event)
      requires Valid() && halt.None?
      modifies this, vids, futex, timers, irq
      ensures (halt.None? ==> Valid() && |os.running| == |old(os).running|) && MayStop(halt, interrupted)
      ensures old(Whole(Now())) && Stepped(old(Now()), Now(), e, eventAddress)
    {
      hide Valid, Core, Homes, Ports, At, OthersRun, Entered, Scheduled, Trapped;
      KnownWhole();
      match e {
        case Call(core, r0, r1, r2, r3) =>
          if core < |os.running| {
            TrapInfo(core, r0, r1, r2, r3);
          }
        case Switch(core, env) =>
          if core < |os.running| {
            if os.running[core].Some? {
              var out := Enter(core, env);
              if halt.None? {
                RunsBetween(old(os), old(os), os, core);
              }
            } else {
              var picked, out := Schedule(core, env.now);
              assert Scheduled(old(Now()), Now(), core, picked, env.now, eventAddress);
            }
          }
        case Interrupt(line) =>
          if line !in irq.masked {
            IrqRaised(line);
          }
      }
    }

    /** Every run of events from a valid state. */
    method Run(events: seq<Event>) returns (ghost trace: seq<Snap>)
      requires Valid() && halt.None?
      modifies this, vids, futex, timers, irq
      ensures (halt.None? ==> Valid()) && MayStop(halt, interrupted)
      ensures IsRun(trace, events, eventAddress) && trace[0] == old(Now()) && trace[|events|] == Now()
    {
      hide Valid, Core, Whole, Stepped, IsRun;
      trace := [Now()];
      NoRun(trace, eventAddress);
      for i := 0 to |events|
        invariant (halt.None? ==> Valid()) && MayStop(halt, interrupted)
        invariant |trace| == i + 1 && trace[0] == old(Now()) && trace[i] == Now() && IsRun(trace, events[..i], eventAddress)
      {
        assert events[..i + 1] == events[..i] + [events[i]];
        if halt.None? {
          Step(events[i]);
        }
        RunOn(trace, events[..i], Now(), events[i], eventAddress);
        trace := trace + [Now()];
      }
      assert events[..|events|] == events;
    }

    /** There are as many free vid items as free threads. */
    lemma FreeItems()
      requires Valid()
      ensures vids.freeItems == |At(os.rings, FreeRing)|
    {
      hide Ports, Served, Receivers, WaitsAs, F.Table.Valid, T.Table.Valid, I.Table.Valid, V.Chains, At;
      FreeCount(os, vids.index, vid);
    }

    /** What `Valid` says in the kernel's own terms, about every thread and every vid. */
    lemma Meaning(t: Pid, v: Word)
      requires Valid()
      ensures forall h :: IsPlace(os, t, h) <==> h == os.home[t]
      ensures os.state[t] == StateAt(os.home[t])
      ensures t in At(os.rings, SyncSleepRing) <==> os.timeout[t]
      ensures os.timeout[t] ==> os.state[t] == WaitingSync
      ensures os.state[t] == WaitingMsg ==> At(os.rings, PendingRing(t)) == []
      ensures os.state[t] in {Free, Zombie} ==> forall u: Pid :: !WaitsFor(os, u, t)
      ensures interrupted == {} ==> (os.port[t].PortReady? <==> os.state[t] == WaitingMsg)
      ensures (v in vids.index && vids.index[v] == t) <==> (os.state[t] != Free && vid[t] == v)
      ensures vids.freeItems == |At(os.rings, FreeRing)|
      ensures irq.Shaped() && (irq.disciplined ==> forall i :: 0 <= i < I.IRQS ==>
        && (i in irq.masked <==> irq.queued[i] || irq.inflight[i]) && !(irq.queued[i] && irq.inflight[i])
        && !irq.overflow[i] && irq.latched[i] == irq.delivered[i] + if irq.queued[i] then 1 else 0)
    {
      FreeItems();
      KnownIrq();
      hide V.VidTable.Valid, F.Table.Valid, T.Table.Valid, I.Table.Valid, Served, WaitsAs, Homes, Ports, At;
      StateTellsHome(os, t);
      OnePlace(os, t);
      ListeningPort(os, t);
      NoDeadPeer(os, t);
      IdlePort(os, t);
      TimeoutListed(os, t);
    }

    /** When no vid is taken the free list has every thread. */
    lemma RootFree()
      requires Valid() && vids.index == map[]
      ensures |At(os.rings, FreeRing)| == 32
    {
      hide Ports, Served, Receivers, WaitsAs, F.Table.Valid, T.Table.Valid, I.Table.Valid, V.Chains, At;
      FreeCount(os, vids.index, vid);
    }
  }

  /** noza_init and noza_run up to the first event: the root thread is ready. */
  method Start(cores: nat, eventAddress: nat -> Word) returns (k: Kernel)
    ensures fresh(k) && fresh(k.vids) && fresh(k.futex) && fresh(k.timers) && fresh(k.irq)
    ensures k.Valid() && k.halt.None? && k.eventAddress == eventAddress && AtBoot(k.Now(), cores)
  {
    hide Boot, Created, At, Homes, Ports, Named, Served, Receivers, WaitsAs;
    k := new Kernel(cores, eventAddress);
    k.RootFree();
    var code, root := k.CreateThread(0, AUTO);
    k.KnownWhole();
  }

  /** Every run of the machine from power-on, with the root thread made first: the panics for a thread
      on the wrong list, for a missing vid item and for a failed exit never happen.  Those for sending
      and replying at the wrong time need a signal to a receiving thread, so they do not happen while no
      thread makes a kill or signal call.  And the interrupt lines stay in order, as `Kernel.Meaning`
      has it, exactly as long as every reply to a line finds it in flight. */
  method PowerOn(cores: nat, eventAddress: nat -> Word, events: seq<Event>) returns (k: Kernel, ghost trace: seq<Snap>)
    ensures (k.halt.None? ==> k.Valid()) && MayStop(k.halt, k.interrupted)
    ensures IsRun(trace, events, eventAddress) && trace[|events|] == k.Now() && AtBoot(trace[0], cores)
    ensures NoSignals(events) ==> k.interrupted == {}
    ensures k.irq.disciplined <==> forall i :: 0 <= i < |events| && trace[i].halt.None? ==> !Spurious(trace[i], events[i])
  {
    hide AtBoot, IsRun, Spurious, NoSignals, NoSignalPending;
    k := Start(cores, eventAddress);
    BootQuiet(k.Now(), cores);
    trace := k.Run(events);
    RunDiscipline(trace, events, |events|, eventAddress);
    if NoSignals(events) {
      RunWithoutSignals(trace, events, |events|, eventAddress);
    }
  }
}
