/** What the moves of the scheduler mean, column by column and list by list. */
module SchedLaws {
  import opened Lists
  import opened KernelState

  /** The thread that runs on core `c` blocks: it stands last on list `r` and the core is empty. */
  lemma BlockOnMeans(k: Sched, c: nat, r: RingId)
    requires Shaped(k) && c < |k.running| && k.running[c].Some?
    ensures var t, k' := k.running[c].value, BlockOn(k, c, r);
      && k'.state == k.state[t := StateOf(r)] && k'.running == k.running[c := None]
      && k'.priority == k.priority && k'.port == k.port && k'.timeout == k.timeout && k'.joiner == k.joiner
      && forall q :: At(k'.rings, q) == if q == r then At(k.rings, r) + [t] else At(k.rings, q)
  {
    hide At, Put;
  }

  /** The same in a queue; with a timeout the thread also stands last on the timeout list. */
  lemma WaitOnMeans(k: Sched, c: nat, r: RingId, timed: bool)
    requires Shaped(k) && c < |k.running| && k.running[c].Some? && IsQueue(r)
    ensures var t, k' := k.running[c].value, WaitOn(k, c, r, timed);
      && k'.state == k.state[t := WaitingSync] && k'.running == k.running[c := None]
      && k'.priority == k.priority && k'.port == k.port && k'.joiner == k.joiner
      && k'.timeout == (if timed then k.timeout[t := true] else k.timeout)
      && forall q :: At(k'.rings, q) ==
           if q == r || (timed && q.SyncSleepRing?) then At(k.rings, q) + [t] else At(k.rings, q)
  {
    hide At, Put;
  }

  /** A sender and the receiver it meets: the sender is last among those owed a reply, the receiver is
      the last of the ready threads of its priority and no longer listens. */
  lemma RendezvousMeans(k: Sched, c: nat, u: Pid)
    requires Shaped(k) && c < |k.running| && k.running[c].Some? && k.running[c].value != u
    ensures var t, k' := k.running[c].value, Rendezvous(k, c, u);
      && k'.state == k.state[t := WaitingReply][u := Ready] && k'.running == k.running[c := None]
      && k'.priority == k.priority && k'.port == k.port[u := WaitListen] && k'.timeout == k.timeout && k'.joiner == k.joiner
      && forall q :: At(k'.rings, q) ==
           if q == ReplyRing(u) then At(k.rings, q) + [t]
           else if q == WaitRing then Without(At(k.rings, q), u)
           else if q == ReadyRing(k.priority[u]) then At(k.rings, q) + [u]
           else At(k.rings, q)
  {
    hide At, Put, Without;
  }

  /** The oldest pending sender becomes the last of those owed a reply. */
  lemma AcceptMeans(k: Sched, t: Pid)
    requires Shaped(k) && At(k.rings, PendingRing(t)) != []
    ensures var w, k' := At(k.rings, PendingRing(t)), Accept(k, t);
      && k'.state == k.state[w[0] := WaitingReply] && k'.running == k.running
      && k'.priority == k.priority && k'.port == k.port && k'.timeout == k.timeout && k'.joiner == k.joiner
      && forall q :: At(k'.rings, q) ==
           if q == PendingRing(t) then w[1..] else if q == ReplyRing(t) then At(k.rings, q) + [w[0]] else At(k.rings, q)
  {
    hide At, Put;
  }

  /** The running thread waits for a message with its port ready. */
  lemma ListenMeans(k: Sched, c: nat)
    requires Shaped(k) && c < |k.running| && k.running[c].Some?
    ensures var t, k' := k.running[c].value, Listen(k, c);
      && k'.state == k.state[t := WaitingMsg] && k'.running == k.running[c := None]
      && k'.priority == k.priority && k'.port == k.port[t := PortReady] && k'.timeout == k.timeout && k'.joiner == k.joiner
      && forall q :: At(k'.rings, q) == if q == WaitRing then At(k.rings, q) + [t] else At(k.rings, q)
  {
    hide At, Put;
  }

  lemma HandedMeans(k: Sched, u: Pid)
    requires Shaped(k)
    ensures var k' := Handed(k, u);
      && k'.state == k.state[u := Ready] && k'.running == k.running
      && k'.priority == k.priority && k'.port == k.port[u := WaitListen] && k'.timeout == k.timeout && k'.joiner == k.joiner
      && forall q :: At(k'.rings, q) ==
           if q == WaitRing then Without(At(k.rings, q), u)
           else if q == ReadyRing(k.priority[u]) then At(k.rings, q) + [u]
           else At(k.rings, q)
  {
    hide At, Put, Without;
  }

  lemma MoveMeans(k: Sched, from: RingId, to: RingId, u: Pid)
    requires Shaped(k) && from != to
    ensures var k' := Move(k, from, to, u);
      && k'.state == k.state[u := StateOf(to)] && k'.running == k.running
      && k'.priority == k.priority && k'.port == k.port && k'.timeout == k.timeout && k'.joiner == k.joiner
      && forall q :: At(k'.rings, q) ==
           if q == from then Without(At(k.rings, q), u) else if q == to then At(k.rings, q) + [u] else At(k.rings, q)
  {
    hide At, Put, Without;
  }

  lemma JoinOnMeans(k: Sched, c: nat, u: Pid)
    requires Shaped(k) && c < |k.running| && k.running[c].Some?
    ensures var t, k' := k.running[c].value, JoinOn(k, c, u);
      && k'.state == k.state[t := PendingJoin] && k'.running == k.running[c := None] && k'.joiner == k.joiner[u := Some(t)]
      && k'.priority == k.priority && k'.port == k.port && k'.timeout == k.timeout && k'.rings == k.rings
  {
  }

  /** A ready thread goes to the tail of the ready list of its new priority, be it the old one. */
  lemma ReprioritiseMeans(k: Sched, u: Pid, p: Priority)
    requires Shaped(k)
    ensures var k' := Reprioritise(k, u, p);
      && k'.priority == k.priority[u := p] && k'.state == k.state && k'.running == k.running
      && k'.port == k.port && k'.timeout == k.timeout && k'.joiner == k.joiner
      && (k.state[u] != Ready ==> k'.rings == k.rings)
      && (k.state[u] == Ready ==> forall q :: (
            At(k'.rings, q) ==
              (if q == ReadyRing(k.priority[u]) then Without(At(k.rings, q), u) else At(k.rings, q))
              + if q == ReadyRing(p) then [u] else []))
  {
    hide At, Put, Without;
  }

  lemma CreatedMeans(k: Sched, u: Pid, p: Priority)
    requires Shaped(k)
    ensures var k' := Created(k, u, p);
      && k'.priority == k.priority[u := p] && k'.state == k.state[u := Ready] && k'.running == k.running
      && k'.port == k.port && k'.timeout == k.timeout && k'.joiner == k.joiner
      && forall q :: At(k'.rings, q) ==
           if q == FreeRing then Without(At(k.rings, q), u) else if q == ReadyRing(p) then At(k.rings, q) + [u] else At(k.rings, q)
  {
    hide At, Put, Without;
  }

  /** Where a new sleeper goes: before the first that expires later, among all but the last if there are
      two or more; else to the end. */
  ghost predicate SleepPlace(s: seq<Pid>, expired: seq<int>, t: Pid, n: nat)
    requires |expired| == 32
  {
    && n <= |s| && (|s| >= 2 ==> n != |s| - 1)
    && (forall i :: 0 <= i < n && (i < |s| - 1 || |s| == 1) ==> expired[s[i]] <= expired[t])
    && (n < |s| ==> expired[s[n]] > expired[t])
  }

  ghost predicate SleptIn(s: seq<Pid>, s': seq<Pid>, expired: seq<int>, t: Pid)
    requires |expired| == 32
  {
    exists n: nat :: SleepPlace(s, expired, t, n) && s' == s[..n] + [t] + s[n..]
  }

  lemma SleepOnMeans(k: Sched, c: nat, expired: seq<int>)
    requires Shaped(k) && c < |k.running| && k.running[c].Some? && |expired| == 32
    ensures var t, s, k' := k.running[c].value, At(k.rings, SleepRing), SleepOn(k, c, expired);
      && k'.state == k.state[t := Sleep] && k'.running == k.running[c := None]
      && k'.priority == k.priority && k'.port == k.port && k'.timeout == k.timeout && k'.joiner == k.joiner
      && SleptIn(s, At(k'.rings, SleepRing), expired, t)
      && forall q :: q != SleepRing ==> At(k'.rings, q) == At(k.rings, q)
  {
    var t, s := k.running[c].value, At(k.rings, SleepRing);
    var d := seq(|s|, i requires 0 <= i < |s| => expired[s[i]]);
    var n := SleepPosition(d, expired[t]);
    SleepPlaceIs(s, expired, t, d);
    assert Placed(s, SleepRing, t, expired) == InsertAt(s, n, t);
    hide At, Put, SleepPosition, Placed, SleepPlace;
  }

  lemma SleepPlaceIs(s: seq<Pid>, expired: seq<int>, t: Pid, d: seq<int>)
    requires |expired| == 32 && |d| == |s| && forall i :: 0 <= i < |s| ==> d[i] == expired[s[i]]
    ensures SleepPlace(s, expired, t, SleepPosition(d, expired[t]))
  {
    hide SleepScan;
  }

  /** There is one such place. */
  lemma SleepPlaceUnique(s: seq<Pid>, expired: seq<int>, t: Pid, m: nat, n: nat)
    requires |expired| == 32 && SleepPlace(s, expired, t, m) && SleepPlace(s, expired, t, n)
    ensures m == n
  {
  }

  /** The first of its ready list runs. */
  lemma PickedMeans(k: Sched, c: nat, u: Pid)
    requires Shaped(k) && c < |k.running|
    ensures var k' := Picked(k, c, u);
      && k'.state == k.state[u := Running] && k'.running == k.running[c := Some(u)]
      && k'.priority == k.priority && k'.port == k.port && k'.timeout == k.timeout && k'.joiner == k.joiner
      && forall q :: At(k'.rings, q) == if q == ReadyRing(k.priority[u]) then Without(At(k.rings, q), u) else At(k.rings, q)
  {
    hide At, Put, Without;
  }

  /** A thread woken from list `r` leaves it, loses its timeout and is the last of its ready list. */
  lemma WakeOneMeans(k: Sched, r: RingId, u: Pid)
    requires Shaped(k) && Homes(k) && u in At(k.rings, r) && !r.SyncSleepRing? && !r.ReadyRing?
    ensures var k' := WakeOne(k, u);
      && k'.state == k.state[u := Ready] && k'.running == k.running
      && k'.priority == k.priority && k'.port == k.port && k'.timeout == k.timeout[u := false] && k'.joiner == k.joiner
      && At(k'.rings, ReadyRing(k.priority[u])) == At(k.rings, ReadyRing(k.priority[u])) + [u]
      && At(k'.rings, r) == Without(At(k.rings, r), u) && u !in At(k'.rings, r)
  {
    hide Homes, WakeOne, At, Without;
    InRingAt(k, r, u);
    OnceListed(k, r);
    WakeOneColumns(k, u);
    WakeOneRing(k, u, ReadyRing(k.priority[u]));
    WakeOneRing(k, u, r);
  }

  lemma OnceListed(k: Sched, r: RingId)
    requires Homes(k)
    ensures NoDup(At(k.rings, r))
  {
  }

  lemma DetachState(k: Sched, t: Pid)
    requires Shaped(k) && Detachable(k, t)
    ensures Detach(k, t).state == k.state
  {
    hide At, Put, Without;
  }

  lemma SettleState(k: Sched, t: Pid, detached: bool)
    requires Shaped(k)
    ensures var k' := Settle(k, t, detached);
      && (k.joiner[t].None? ==> k'.state == k.state[t := if detached then Free else Zombie] && k'.joiner == k.joiner)
      && (k.joiner[t].Some? ==> k'.state == k.state[k.joiner[t].value := Ready][t := Free] && k'.joiner == k.joiner[t := None])
  {
    hide At, Put;
  }

  /** Thread `t` ends: it is free if it is detached or somebody joins it and a zombie if not, whoever
      joined it or waited on its port is ready, and all others are where they were. */
  lemma EndedMeans(k: Sched, c: nat, t: Pid, detached: bool)
    requires Shaped(k) && Homes(k) && Ports(k) && Settled(k) && Detachable(k, t) && c < |k.running|
    requires k.home[t].OnCore? ==> k.home[t].core == c
    ensures var k' := Ended(k, c, t, detached);
      var joined := k.joiner[t].Some? && k.joiner[t] != Some(t);
      && k'.state[t] == (if detached || joined then Free else Zombie)
      && (forall u: Pid :: u != t ==> (
            k'.state[u] == if k.joiner[t] == Some(u) || u in At(k.rings, PendingRing(t)) || u in At(k.rings, ReplyRing(t)) then Ready else k.state[u]))
      && k'.running == (if k.running[c] == Some(t) then k.running[c := None] else k.running)
      && k'.joiner[t].None? && k'.port == k.port[t := WaitListen] && k'.priority == k.priority
  {
    hide Homes, Ports, At, Put, Without, Detach, WakeAll, Settle, MovedToReady;
    StateTellsHome(k, t);
    DetachColumns(k, t);
    DetachState(k, t);
    DetachKeeps(k, t);
    DetachPort(k, t);
    ExitSlots(k, c, t, detached);
    var k1 := Detach(k, t);
    PortsListen(k1, t);
    var k2 := SetPort(k1, t, WaitListen);
    Released(k2, t);
    assert forall u :: u in PortWaiters(k2, t) <==> u in PortWaiters(k1, t);
    hide PortWaiters;
    var k3 := WakeAll(k2, PortWaiters(k2, t));
    SettleColumns(k3, t, detached);
    SettleState(k3, t, detached);
    PortMembers(k, t);
  }

  lemma PortMembers(k: Sched, t: Pid)
    ensures forall u :: u in PortWaiters(k, t) <==> u in At(k.rings, PendingRing(t)) || u in At(k.rings, ReplyRing(t))
  {
  }

  lemma {:induction false} OfPriorityOrder(s: seq<Pid>, priority: seq<Priority>, x: Pid, y: Pid)
    requires |priority| == 32 && Before(s, x, y) && priority[x] == priority[y]
    ensures Before(OfPriority(s, priority, priority[x]), x, y)
    decreases |s|
  {
    var i, j :| 0 <= i < j < |s| && s[i] == x && s[j] == y;
    var n, p := |s| - 1, priority[x];
    var r := OfPriority(s[..n], priority, p);
    if j < n {
      assert s[..n][i] == x && s[..n][j] == y;
      OfPriorityOrder(s[..n], priority, x, y);
      var i', j' :| 0 <= i' < j' < |r| && r[i'] == x && r[j'] == y;
      var r' := OfPriority(s, priority, p);
      assert r'[i'] == x && r'[j'] == y;
    } else {
      assert s[..n][i] == x && x in s[..n];
      var i' :| 0 <= i' < |r| && r[i'] == x;
      var r' := OfPriority(s, priority, p);
      assert r'[i'] == x && r'[|r|] == y;
    }
  }

  /** Threads woken one after the other are ready in that order, behind those that were. */
  lemma WakeAllMeans(k: Sched, ts: seq<Pid>)
    requires Homes(k) && Ports(k) && NoDup(ts) && forall t :: t in ts ==> Blocked(k, t)
    ensures var k' := WakeAll(k, ts);
      && (forall u: Pid :: k'.state[u] == if u in ts then Ready else k.state[u])
      && (forall u: Pid :: k'.timeout[u] == (u !in ts && k.timeout[u]))
      && k'.priority == k.priority && k'.port == k.port && k'.joiner == k.joiner && k'.running == k.running
      && (forall p: Priority :: At(k.rings, ReadyRing(p)) <= At(k'.rings, ReadyRing(p)))
      && (forall u, p: Priority :: u in At(k'.rings, ReadyRing(p)) <==> u in At(k.rings, ReadyRing(p)) || (u in ts && k.priority[u] == p))
      && (forall x: Pid, y: Pid :: Before(ts, x, y) && k.priority[x] == k.priority[y] ==> Before(At(k'.rings, ReadyRing(k.priority[x])), x, y))
      && (forall q: RingId, u :: !q.ReadyRing? ==> (u in At(k'.rings, q) <==> u in At(k.rings, q) && u !in ts))
  {
    assert Shaped(k);
    hide Homes, Ports, WakeAll, Blocked, At, OfPriority, Before;
    WakeAllKeeps(k, ts);
    var k' := WakeAll(k, ts);
    forall x: Pid, y: Pid | Before(ts, x, y) && k.priority[x] == k.priority[y]
      ensures Before(At(k'.rings, ReadyRing(k.priority[x])), x, y)
    {
      var p := k.priority[x];
      OfPriorityOrder(ts, k.priority, x, y);
      BeforeBehind(At(k.rings, ReadyRing(p)), OfPriority(ts, k.priority, p), x, y);
      assert At(k'.rings, ReadyRing(p)) == Woken(At(k.rings, ReadyRing(p)), ReadyRing(p), ts, k.priority);
    }
    forall q: RingId, u | !q.ReadyRing? ensures u in At(k'.rings, q) <==> u in At(k.rings, q) && u !in ts {
      assert At(k'.rings, q) == Woken(At(k.rings, q), q, ts, k.priority);
    }
    forall p: Priority, u ensures At(k.rings, ReadyRing(p)) <= At(k'.rings, ReadyRing(p))
      && (u in At(k'.rings, ReadyRing(p)) <==> u in At(k.rings, ReadyRing(p)) || (u in ts && k.priority[u] == p))
    {
      assert At(k'.rings, ReadyRing(p)) == Woken(At(k.rings, ReadyRing(p)), ReadyRing(p), ts, k.priority);
    }
  }

  lemma BeforeBehind(a: seq<Pid>, b: seq<Pid>, x: Pid, y: Pid)
    requires Before(b, x, y)
    ensures Before(a + b, x, y)
  {
    var i, j :| 0 <= i < j < |b| && b[i] == x && b[j] == y;
    assert (a + b)[|a| + i] == x && (a + b)[|a| + j] == y;
  }

  /** At the start all threads are free, in the order of their numbers, and nothing runs or waits. */
  lemma BootMeans(cores: nat)
    ensures var k := Boot(cores);
      && |k.running| == cores && (forall c :: 0 <= c < cores ==> k.running[c].None?)
      && (forall t: Pid :: k.state[t] == Free && k.priority[t] == 0 && k.port[t] == WaitListen && !k.timeout[t] && k.joiner[t].None?)
      && |At(k.rings, FreeRing)| == 32 && (forall t: Pid :: At(k.rings, FreeRing)[t] == t)
      && forall r :: r != FreeRing ==> At(k.rings, r) == []
  {
  }
}
