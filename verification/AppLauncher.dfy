/** The app launcher's process table and the waits that are answered later: who is reaped, when a
    pending wait is answered, and that nothing is answered twice or forgotten. */
module AppLauncher {
  import opened Lists

  type Word = w: nat | w < 0x1_0000_0000

  const PROCS := 32

  datatype State = NoState | Running | Stopped | Exited
  datatype Proc = Proc(inUse: bool, pid: Word, ppid: Word, state: State, exitCode: int, signal: Word, threads: Word)

  const EMPTY := Proc(false, 0, 0, NoState, 0, 0, 0)

  /** A wait left for later: the pool node that holds it and the message to answer. */
  datatype Waiter = Waiter(node: nat, msg: Word, ppid: Word, pid: int)
  datatype Result = Reaped(pid: Word, status: int) | NoChild
  datatype Reply = Reply(msg: Word, result: Result)

  /** What the process manager knows about a running process. */
  datatype Info = Info(parent: Word, threads: Word)
  type Infos = Word -> Option<Info>

  function WaitStatus(p: Proc): int {
    if p.signal != 0 then p.signal % 128 else (p.exitCode % 256) * 256
  }

  /** The macros WIFEXITED, WEXITSTATUS, WIFSIGNALED and WTERMSIG read back from the status word what the
      record says: a status shows a signal exactly when the low seven bits of the recorded one are not
      all clear, and then shows those; without a signal it shows the exit code's low byte. */
  lemma StatusDecodes(p: Proc)
    ensures WaitStatus(p) % 128 != 0 <==> p.signal % 128 != 0
    ensures WaitStatus(p) % 128 != 0 ==> WaitStatus(p) % 128 == p.signal % 128
    ensures p.signal == 0 ==> WaitStatus(p) % 128 == 0 && (WaitStatus(p) / 256) % 256 == p.exitCode % 256
  {
    var low := p.exitCode % 256;
    assert (low * 256) % 128 == 0 && (low * 256) / 256 == low;
  }

  /** refresh_runtime_info: only a running process is looked up. */
  function Refreshed(p: Proc, info: Infos): Proc {
    if !p.inUse || p.state != Running || info(p.pid).None? then p
    else
      var i := info(p.pid).value;
      p.(ppid := if i.parent != 0 then i.parent else p.ppid, threads := i.threads)
  }

  /** An exited child of `ppid` that a wait for `pid` takes; a `pid` of 0 or below takes any. */
  predicate Takes(p: Proc, ppid: Word, pid: int) {
    p.inUse && p.state == Exited && p.ppid == ppid && (pid > 0 ==> p.pid == pid)
  }

  /** A child of `ppid`, not exited, that a wait for `pid` waits for. */
  predicate Awaits(p: Proc, ppid: Word, pid: int) {
    p.inUse && p.state != Exited && p.ppid == ppid && (pid > 0 || pid == -1) && (pid > 0 ==> p.pid == pid)
  }

  /** The exited child that a wait takes: the lowest one in the table. */
  function FirstTaken(table: seq<Proc>, ppid: Word, pid: int, from: nat): (r: Option<nat>)
    requires from <= |table|
    ensures r.Some? ==>
      && from <= r.value < |table| && Takes(table[r.value], ppid, pid)
      && forall j :: from <= j < r.value ==> !Takes(table[j], ppid, pid)
    ensures r.None? ==> forall j :: from <= j < |table| ==> !Takes(table[j], ppid, pid)
    decreases |table| - from
  {
    if from == |table| then None
    else if Takes(table[from], ppid, pid) then Some(from)
    else FirstTaken(table, ppid, pid, from + 1)
  }

  /** What a wait is answered with, if it is answered at all. */
  ghost function Verdict(table: seq<Proc>, ppid: Word, pid: int): Option<Result> {
    match FirstTaken(table, ppid, pid, 0)
    case Some(j) => Some(Reaped(table[j].pid, WaitStatus(table[j])))
    case None => if exists j :: 0 <= j < |table| && Awaits(table[j], ppid, pid) then None else Some(NoChild)
  }

  ghost predicate Unmatched(table: seq<Proc>, w: Waiter) {
    forall i :: 0 <= i < |table| ==> !Takes(table[i], w.ppid, w.pid)
  }

  ghost predicate HasLive(table: seq<Proc>, w: Waiter) {
    exists i :: 0 <= i < |table| && Awaits(table[i], w.ppid, w.pid)
  }

  /** No pending wait has an exited child to take. */
  ghost predicate AtRest(table: seq<Proc>, pending: seq<Waiter>) {
    forall w :: w in pending ==> Unmatched(table, w)
  }

  /** `p'` is `p`; or `p` was running and has been given the threads that the process manager reports and
      the parent, if it reports one; or `p` was exited and has been reaped. */
  ghost predicate Aged(p: Proc, p': Proc, info: Infos) {
    || p' == p
    || (p.inUse && p.state == Running && info(p.pid).Some? && (
          var i := info(p.pid).value;
          p' == p.(ppid := if i.parent == 0 then p.ppid else i.parent, threads := i.threads)))
    || (p.inUse && p.state == Exited && p' == EMPTY)
  }

  ghost predicate AllAged(t: seq<Proc>, t': seq<Proc>, info: Infos) {
    |t'| == |t| && forall i :: 0 <= i < |t| ==> Aged(t[i], t'[i], info)
  }

  /** The process manager agrees with the recorded parents. */
  ghost predicate Steady(table: seq<Proc>, info: Infos) {
    forall i :: 0 <= i < |table| ==> Refreshed(table[i], info).ppid == table[i].ppid
  }

  /** Under steady parents, ageing changes no parent of a live process. */
  ghost predicate SameParents(t: seq<Proc>, t': seq<Proc>)
    requires |t'| == |t|
  {
    forall i :: 0 <= i < |t| ==> t'[i] == EMPTY || t'[i].ppid == t[i].ppid
  }

  lemma UnmatchedAged(t: seq<Proc>, t': seq<Proc>, w: Waiter, info: Infos)
    requires Unmatched(t, w) && AllAged(t, t', info)
    ensures Unmatched(t', w)
  {
    forall i | 0 <= i < |t'| ensures !Takes(t'[i], w.ppid, w.pid) {
      assert Aged(t[i], t'[i], info) && !Takes(t[i], w.ppid, w.pid);
    }
  }

  lemma HasLiveAged(t: seq<Proc>, t': seq<Proc>, w: Waiter, info: Infos)
    requires HasLive(t, w) && AllAged(t, t', info) && SameParents(t, t')
    ensures HasLive(t', w)
  {
    var i :| 0 <= i < |t| && Awaits(t[i], w.ppid, w.pid);
    assert Aged(t[i], t'[i], info);
    assert Awaits(t'[i], w.ppid, w.pid);
  }

  lemma AgedTrans(a: seq<Proc>, b: seq<Proc>, c: seq<Proc>, info: Infos)
    requires AllAged(a, b, info) && AllAged(b, c, info)
    ensures AllAged(a, c, info)
    ensures SameParents(a, b) && SameParents(b, c) ==> SameParents(a, c)
  {
    forall i | 0 <= i < |a| ensures Aged(a[i], c[i], info) {
      assert Aged(a[i], b[i], info) && Aged(b[i], c[i], info);
    }
    if SameParents(a, b) && SameParents(b, c) {
      forall i | 0 <= i < |a| ensures c[i] == EMPTY || c[i].ppid == a[i].ppid {
        assert Aged(b[i], c[i], info);
      }
    }
  }

  /** How many exit records the table holds. */
  ghost function Exits(t: seq<Proc>): nat {
    if t == [] then 0 else Exits(t[..|t| - 1]) + if t[|t| - 1].inUse && t[|t| - 1].state == Exited then 1 else 0
  }

  lemma {:induction false} ExitsUpdate(t: seq<Proc>, i: nat, p: Proc)
    requires i < |t|
    ensures Exits(t[i := p]) == Exits(t) - (if t[i].inUse && t[i].state == Exited then 1 else 0)
      + if p.inUse && p.state == Exited then 1 else 0
  {
    var n := |t| - 1;
    if i == n {
      assert t[i := p][..n] == t[..n];
    } else {
      assert t[i := p][..n] == t[..n][i := p];
      ExitsUpdate(t[..n], i, p);
    }
  }

  /** How many of the replies report a reaped process. */
  ghost function Reports(r: seq<Reply>): nat {
    if r == [] then 0 else Reports(r[..|r| - 1]) + if r[|r| - 1].result.Reaped? then 1 else 0
  }

  lemma ReportsSnoc(r: seq<Reply>, x: Reply)
    ensures Reports(r + [x]) == Reports(r) + if x.result.Reaped? then 1 else 0
  {
    assert (r + [x])[..|r|] == r;
  }

  ghost function Asked(pending: seq<Waiter>): multiset<Word> {
    if pending == [] then multiset{} else multiset{pending[0].msg} + Asked(pending[1..])
  }

  ghost function Answered(replies: seq<Reply>): multiset<Word> {
    if replies == [] then multiset{} else Answered(replies[..|replies| - 1]) + multiset{replies[|replies| - 1].msg}
  }

  lemma {:induction false} AskedCut(pending: seq<Waiter>, i: nat)
    requires i < |pending|
    ensures Asked(pending) == Asked(pending[..i] + pending[i + 1..]) + multiset{pending[i].msg}
  {
    var rest := pending[..i] + pending[i + 1..];
    if i == 0 {
      assert rest == pending[1..];
    } else {
      AskedCut(pending[1..], i - 1);
      var below := pending[1..][..i - 1] + pending[1..][i..];
      assert rest[1..] == below && rest[0] == pending[0];
      hide Asked;
      AskedFirst(pending);
      AskedFirst(rest);
    }
  }

  lemma AskedFirst(pending: seq<Waiter>)
    requires pending != []
    ensures Asked(pending) == multiset{pending[0].msg} + Asked(pending[1..])
  {
  }

  lemma AnsweredSnoc(r: seq<Reply>, x: Reply)
    ensures Answered(r + [x]) == Answered(r) + multiset{x.msg}
  {
    assert (r + [x])[..|r|] == r;
  }

  function Nodes(pending: seq<Waiter>): (s: seq<nat>)
    ensures |s| == |pending| && forall i :: 0 <= i < |s| ==> s[i] == pending[i].node
  {
    seq(|pending|, i requires 0 <= i < |pending| => pending[i].node)
  }

  /** Free and pending nodes together are the whole pool, each node once. */
  ghost predicate Pool(free: seq<nat>, pending: seq<Waiter>) {
    && |free| + |pending| == PROCS
    && NoDup(free + Nodes(pending))
    && forall n :: n in free + Nodes(pending) ==> n < PROCS
  }

  lemma Differ(a: seq<nat>, p: nat, q: nat)
    requires NoDup(a) && p < |a| && q < |a| && p != q
    ensures a[p] != a[q]
  {
    assert if p < q then a[p] != a[q] else a[q] != a[p];
  }

  /** A list whose entries are those of `a` at different places. */
  lemma Rearranged(a: seq<nat>, b: seq<nat>, at: seq<nat>)
    requires NoDup(a) && |at| == |b| && (forall i :: 0 <= i < |b| ==> at[i] < |a| && b[i] == a[at[i]])
    requires forall i, j :: 0 <= i < j < |at| ==> at[i] != at[j]
    requires forall x :: x in a ==> x < PROCS
    ensures NoDup(b) && forall x :: x in b ==> x < PROCS
  {
    forall i, j | 0 <= i < j < |b| ensures b[i] != b[j] {
      Differ(a, at[i], at[j]);
    }
    forall x | x in b ensures x < PROCS {
      var i :| 0 <= i < |b| && b[i] == x;
      assert a[at[i]] in a;
    }
  }

  lemma PoolTake(free: seq<nat>, pending: seq<Waiter>, w: Waiter)
    requires Pool(free, pending) && free != [] && w.node == free[0]
    ensures Pool(free[1..], [w] + pending)
  {
    hide NoDup;
    var a, b := free + Nodes(pending), free[1..] + Nodes([w] + pending);
    var n := |free| - 1;
    var at: seq<nat> := seq(|b|, i => if i < n then i + 1 else if i == n then 0 else i);
    assert forall i :: 0 <= i < |b| ==> b[i] == a[at[i]];
    Rearranged(a, b, at);
  }

  lemma PoolGive(free: seq<nat>, pending: seq<Waiter>, i: nat)
    requires Pool(free, pending) && i < |pending|
    ensures Pool([pending[i].node] + free, pending[..i] + pending[i + 1..])
  {
    hide NoDup;
    var rest := pending[..i] + pending[i + 1..];
    var a, b := free + Nodes(pending), ([pending[i].node] + free) + Nodes(rest);
    var n := |free|;
    var at: seq<nat> := seq(|b|, j => if j == 0 then n + i else if j <= n + i then j - 1 else j);
    assert forall j :: 0 <= j < |rest| ==> rest[j] == pending[if j < i then j else j + 1];
    assert forall j :: 0 <= j < |b| ==> b[j] == a[at[j]];
    Rearranged(a, b, at);
  }

  /** What a wait is answered with, from the fields of the records: the lowest exited child that it asks
      for, with its status word. */
  lemma VerdictReaps(t: seq<Proc>, ppid: Word, pid: int, i: nat)
    requires i < |t| && t[i].inUse && t[i].state == Exited && t[i].ppid == ppid && (pid > 0 ==> t[i].pid == pid)
    requires forall j :: 0 <= j < i && t[j].inUse && t[j].ppid == ppid && (pid > 0 ==> t[j].pid == pid) ==> t[j].state != Exited
    ensures Verdict(t, ppid, pid) == Some(Reaped(t[i].pid, if t[i].signal == 0 then (t[i].exitCode % 256) * 256 else t[i].signal % 128))
  {
    hide FirstTaken;
    assert Takes(t[i], ppid, pid);
  }

  /** Without one it is not answered while a child it asks for lives, if it asks for one or for any, and
      otherwise is told that there is none. */
  lemma VerdictWaits(t: seq<Proc>, ppid: Word, pid: int)
    requires forall j :: 0 <= j < |t| && t[j].inUse && t[j].ppid == ppid && (pid > 0 ==> t[j].pid == pid) ==> t[j].state != Exited
    ensures Verdict(t, ppid, pid).None? <==>
      (pid > 0 || pid == -1) && exists j :: 0 <= j < |t| && t[j].inUse && t[j].ppid == ppid && (pid > 0 ==> t[j].pid == pid)
    ensures Verdict(t, ppid, pid).Some? ==> Verdict(t, ppid, pid).value == NoChild
  {
    hide FirstTaken;
    assert FirstTaken(t, ppid, pid, 0).None?;
    if j :| 0 <= j < |t| && t[j].inUse && t[j].ppid == ppid && (pid > 0 ==> t[j].pid == pid) && (pid > 0 || pid == -1) {
      assert Awaits(t[j], ppid, pid);
    }
  }

  /** The exit record `j` of table `t`, gone in `t'`, is what a wait was told about: a child it asked for,
      its pid and its status word. */
  ghost predicate ToldOf(t: seq<Proc>, t': seq<Proc>, j: nat, w: Waiter, told: Result)
    requires told.Reaped? && |t| == |t'|
  {
    && j < |t| && t'[j] == EMPTY
    && t[j].inUse && t[j].state == Exited && t[j].ppid == w.ppid && (w.pid > 0 ==> t[j].pid == w.pid)
    && told.pid == t[j].pid
    && told.status == if t[j].signal == 0 then (t[j].exitCode % 256) * 256 else t[j].signal % 128
  }

  /** A reply answers one of the waits, with an exit record that is then gone or, with steady parents,
      because the wait has no child left. */
  ghost predicate Justified(t: seq<Proc>, t': seq<Proc>, asked: seq<Waiter>, r: Reply, steady: bool)
    requires |t| == |t'|
  {
    exists w :: w in asked && w.msg == r.msg &&
      match r.result
      case Reaped(_, _) => exists j: nat :: ToldOf(t, t', j, w, r.result)
      case NoChild => steady ==> Unmatched(t', w) && !HasLive(t', w)
  }

  lemma LiveBefore(t: seq<Proc>, t': seq<Proc>, w: Waiter, info: Infos)
    requires AllAged(t, t', info) && SameParents(t, t') && HasLive(t', w)
    ensures HasLive(t, w)
  {
    var i :| 0 <= i < |t'| && Awaits(t'[i], w.ppid, w.pid);
    assert Aged(t[i], t'[i], info);
    assert Awaits(t[i], w.ppid, w.pid);
  }

  /** A reply stays justified as the table ages on, and was justified by the table before. */
  lemma JustifiedAged(a: seq<Proc>, b: seq<Proc>, c: seq<Proc>, d: seq<Proc>, asked: seq<Waiter>, all: seq<Waiter>, r: Reply, steady: bool, info: Infos)
    requires AllAged(a, b, info) && AllAged(b, c, info) && AllAged(c, d, info) && Justified(b, c, asked, r, steady)
    requires forall w :: w in asked ==> w in all
    requires steady ==> SameParents(c, d)
    ensures Justified(a, d, all, r, steady)
  {
    hide Unmatched, HasLive;
    var w :| w in asked && w.msg == r.msg &&
      match r.result
      case Reaped(_, _) => exists j: nat :: ToldOf(b, c, j, w, r.result)
      case NoChild => steady ==> Unmatched(c, w) && !HasLive(c, w);
    if r.result.Reaped? {
      var j: nat :| ToldOf(b, c, j, w, r.result);
      assert Aged(a[j], b[j], info) && Aged(c[j], d[j], info);
      assert ToldOf(a, d, j, w, r.result);
    } else if steady {
      UnmatchedAged(c, d, w, info);
      if HasLive(d, w) {
        LiveBefore(c, d, w, info);
        assert false;
      }
    }
  }

  /** One more answer leaves all the answers justified. */
  lemma StillJustified(t0: seq<Proc>, t1: seq<Proc>, t: seq<Proc>, asked: seq<Waiter>, all: seq<Waiter>,
                       told: seq<Reply>, replies: seq<Reply>, from: nat, info: Infos)
    requires AllAged(t0, t1, info) && AllAged(t1, t, info) && forall w :: w in asked ==> w in all
    requires Steady(t0, info) ==> Steady(t1, info) && SameParents(t1, t)
    requires from <= |told| && forall k :: from <= k < |told| ==> Justified(t0, t1, all, told[k], Steady(t0, info))
    requires replies == told || (|replies| == |told| + 1 && told <= replies && Justified(t1, t, asked, replies[|told|], Steady(t1, info)))
    ensures forall k :: from <= k < |replies| ==> Justified(t0, t, all, replies[k], Steady(t0, info))
  {
    assert |t0| == |t1| == |t|;
    hide Justified, Steady, SameParents, AllAged;
    AgedSelf(t0, info);
    AgedSelf(t, info);
    forall k | from <= k < |replies| ensures Justified(t0, t, all, replies[k], Steady(t0, info)) {
      if k < |told| {
        JustifiedAged(t0, t0, t1, t, all, all, told[k], Steady(t0, info), info);
      } else {
        Weaken(t1, t, asked, replies[k], Steady(t1, info), Steady(t0, info));
        JustifiedAged(t0, t1, t, t, asked, all, replies[k], Steady(t0, info), info);
      }
    }
  }

  /** Answers justified by a table that has aged are justified by the one before. */
  lemma LaterJustified(t0: seq<Proc>, t1: seq<Proc>, t: seq<Proc>, all: seq<Waiter>, replies: seq<Reply>, from: nat, info: Infos)
    requires AllAged(t0, t1, info) && AllAged(t1, t, info) && (Steady(t0, info) ==> Steady(t1, info))
    requires from <= |replies| && forall k :: from <= k < |replies| ==> Justified(t1, t, all, replies[k], Steady(t1, info))
    ensures |t0| == |t| && forall k :: from <= k < |replies| ==> Justified(t0, t, all, replies[k], Steady(t0, info))
  {
    assert |t0| == |t1| == |t|;
    hide Justified, Steady, SameParents, AllAged;
    AgedSelf(t, info);
    forall k | from <= k < |replies| ensures Justified(t0, t, all, replies[k], Steady(t0, info)) {
      Weaken(t1, t, all, replies[k], Steady(t1, info), Steady(t0, info));
      JustifiedAged(t0, t1, t, t, all, all, replies[k], Steady(t0, info), info);
    }
  }

  lemma Weaken(t: seq<Proc>, t': seq<Proc>, asked: seq<Waiter>, r: Reply, more: bool, less: bool)
    requires |t| == |t'| && Justified(t, t', asked, r, more) && (less ==> more)
    ensures Justified(t, t', asked, r, less)
  {
    hide Unmatched, HasLive, ToldOf;
  }

  lemma Justify(t: seq<Proc>, t': seq<Proc>, asked: seq<Waiter>, w: Waiter, r: Reply, j: nat, steady: bool)
    requires |t| == |t'| && w in asked && r.msg == w.msg && r.result.Reaped?
    requires j < |t| && t'[j] == EMPTY && Takes(t[j], w.ppid, w.pid) && r.result == Reaped(t[j].pid, WaitStatus(t[j]))
    ensures Justified(t, t', asked, r, steady)
  {
    assert ToldOf(t, t', j, w, r.result);
  }

  lemma JustifyNone(t: seq<Proc>, t': seq<Proc>, asked: seq<Waiter>, w: Waiter, r: Reply, steady: bool, info: Infos)
    requires |t| == |t'| && w in asked && r.msg == w.msg && r.result.NoChild? && AllAged(t, t', info)
    requires steady ==> SameParents(t, t')
    requires forall j :: 0 <= j < |t| ==> !Takes(t'[j], w.ppid, w.pid) && !Awaits(t[j], w.ppid, w.pid)
    ensures Justified(t, t', asked, r, steady)
  {
    assert Unmatched(t', w);
    if steady && HasLive(t', w) {
      LiveBefore(t, t', w, info);
      assert false;
    }
  }

  class Launcher {
    var table: seq<Proc>
    var pending: seq<Waiter>       // newest first
    var free: seq<nat>
    var replies: seq<Reply>        // the answers sent to pending waits, oldest first

    ghost predicate Shaped()
      reads this
    {
      |table| == PROCS && Pool(free, pending)
    }

    ghost predicate Valid()
      reads this
    {
      Shaped() && AtRest(table, pending)
    }

    constructor ()
      ensures Valid() && table == seq(PROCS, _ => EMPTY) && pending == [] && replies == []
    {
      table := seq(PROCS, _ => EMPTY);
      pending, replies := [], [];
      free := seq(PROCS, i => i);
      new;
      assert free + Nodes(pending) == free;
    }

    /** find_wait_target_locked: an exited child if there is one to take, else a live child to wait for. */
    method FindWaitTarget(ppid: Word, pid: int, info: Infos) returns (have: bool, sel: Option<nat>)
      requires |table| == PROCS
      modifies `table
      ensures AllAged(old(table), table, info) && Exits(table) == Exits(old(table))
      ensures Steady(old(table), info) ==> SameParents(old(table), table) && Steady(table, info)
      ensures forall j :: 0 <= j < PROCS ==> (Takes(table[j], ppid, pid) <==> Takes(old(table)[j], ppid, pid))
      ensures sel.Some? ==> have && sel.value < PROCS && table[sel.value].inUse
      ensures sel.Some? && table[sel.value].state == Exited ==>
        Takes(table[sel.value], ppid, pid) && forall j :: 0 <= j < sel.value ==> !Takes(table[j], ppid, pid)
      ensures sel.None? || table[sel.value].state != Exited ==> forall j :: 0 <= j < PROCS ==> !Takes(table[j], ppid, pid)
      ensures sel.Some? && table[sel.value].state != Exited ==> Awaits(old(table)[sel.value], ppid, pid)
      ensures sel.None? ==> forall j :: 0 <= j < PROCS ==> !Awaits(old(table)[j], ppid, pid)
    {
      have, sel := false, None;
      for i := 0 to PROCS
        invariant |table| == PROCS && table[i..] == old(table)[i..]
        invariant AllAged(old(table), table, info) && Exits(table) == Exits(old(table))
        invariant Steady(old(table), info) ==> SameParents(old(table), table) && Steady(table, info)
        invariant forall j :: 0 <= j < i ==> !Takes(table[j], ppid, pid) && !Takes(old(table)[j], ppid, pid)
        invariant sel.Some? ==> have && sel.value < i && table[sel.value].inUse && table[sel.value].state != Exited
        invariant sel.Some? ==> Awaits(old(table)[sel.value], ppid, pid)
        invariant sel.None? ==> forall j :: 0 <= j < i ==> !Awaits(old(table)[j], ppid, pid)
      {
        var p := table[i];
        assert p == old(table)[i..][0];
        if p.inUse && p.ppid == ppid {
          have := true;
          ExitsUpdate(table, i, Refreshed(p, info));
          RefreshOne(old(table), table, i, info);
          table := table[i := Refreshed(p, info)];
          if !(pid > 0 && p.pid != pid) {
            if p.state == Exited {
              return true, Some(i);
            }
            if sel.None? && (pid > 0 || pid == -1) {
              sel := Some(i);
            }
          }
        }
      }
    }

    /** The answer a wait gets now, if any: the exit record it takes is cleared. */
    method Answer(ppid: Word, pid: int, info: Infos) returns (result: Option<Result>)
      requires |table| == PROCS
      modifies `table
      ensures |table| == PROCS && AllAged(old(table), table, info) && result == Verdict(old(table), ppid, pid)
      ensures Steady(old(table), info) ==> SameParents(old(table), table) && Steady(table, info)
      ensures Exits(table) == Exits(old(table)) - if result.Some? && result.value.Reaped? then 1 else 0
      ensures result == Some(NoChild) || result.None? ==> forall j :: 0 <= j < PROCS ==> !Takes(table[j], ppid, pid)
      ensures result == Some(NoChild) ==> forall j :: 0 <= j < PROCS ==> !Awaits(old(table)[j], ppid, pid)
      ensures result.None? ==> exists j :: 0 <= j < PROCS && Awaits(old(table)[j], ppid, pid)
      ensures result.Some? && result.value.Reaped? ==> exists j ::
        && 0 <= j < PROCS && table[j] == EMPTY && Takes(old(table)[j], ppid, pid)
        && result.value == Reaped(old(table)[j].pid, WaitStatus(old(table)[j]))
        && forall k :: 0 <= k < j ==> !Takes(old(table)[k], ppid, pid)
    {
      hide Exits, Steady, SameParents, AllAged, WaitStatus;
      ghost var t0 := table;
      var have, sel := FindWaitTarget(ppid, pid, info);
      ghost var t1 := table;
      if !have || sel.None? {
        return Some(NoChild);
      }
      var i := sel.value;
      if table[i].state != Exited {
        return None;
      }
      var p := table[i];
      TakenBefore(t0, t1, i, info);
      ExitsUpdate(table, i, EMPTY);
      ReapOne(t0, t1, i, info);
      table := table[i := EMPTY];
      return Some(Reaped(p.pid, WaitStatus(p)));
    }

    /** One round of service_pending_waits_locked: waiter `i` is answered and unlinked, or stays. */
    method ServeOne(i: nat, info: Infos) returns (replied: bool)
      requires Shaped() && i < |pending|
      modifies this
      ensures Shaped() && AllAged(old(table), table, info)
      ensures Steady(old(table), info) ==> SameParents(old(table), table) && Steady(table, info)
      ensures Exits(table) + Reports(replies) == Exits(old(table)) + Reports(old(replies))
      ensures Asked(pending) + Answered(replies) == Asked(old(pending)) + Answered(old(replies))
      ensures replied ==> replies != [] && Justified(old(table), table, old(pending), replies[|replies| - 1], Steady(old(table), info))
      ensures !replied ==>
        && pending == old(pending) && free == old(free) && replies == old(replies)
        && Unmatched(table, pending[i]) && HasLive(old(table), pending[i])
      ensures var w := old(pending)[i];
        match Verdict(old(table), w.ppid, w.pid)
        case Some(result) => replied && replies == old(replies) + [Reply(w.msg, result)]
        case None => !replied
      ensures replied ==>
        && pending == old(pending)[..i] + old(pending)[i + 1..]
        && !(Unmatched(old(table), old(pending)[i]) && HasLive(old(table), old(pending)[i]))
    {
      hide Exits, Steady, SameParents, AllAged, WaitStatus, Reports, Asked, Answered, Pool, Takes, Awaits, Verdict, Justified, ToldOf;
      var w := pending[i];
      var result := Answer(w.ppid, w.pid, info);
      if result.None? {
        return false;
      }
      var reply := Reply(w.msg, result.value);
      if reply.result.Reaped? {
        ghost var j: nat :|
          && j < PROCS && table[j] == EMPTY && Takes(old(table)[j], w.ppid, w.pid)
          && reply.result == Reaped(old(table)[j].pid, WaitStatus(old(table)[j]));
        Justify(old(table), table, pending, w, reply, j, Steady(old(table), info));
      } else {
        JustifyNone(old(table), table, pending, w, reply, Steady(old(table), info), info);
      }
      ReportsSnoc(replies, reply);
      AnsweredSnoc(replies, reply);
      AskedCut(pending, i);
      PoolGive(free, pending, i);
      pending := pending[..i] + pending[i + 1..];
      replies := replies + [reply];
      free := [w.node] + free;
      return true;
    }

    /** service_pending_waits_locked.  One pass is enough: afterwards no pending wait has a child to
        take, and with steady parents every one that stays still has a child to wait for, so that
        another pass would do nothing.  Every exit record that goes is reported once, and every
        waiter is either still pending or answered once. */
    method ServiceWaits(info: Infos)
      requires Shaped()
      modifies this
      ensures Valid() && AllAged(old(table), table, info)
      ensures Exits(table) + Reports(replies) == Exits(old(table)) + Reports(old(replies))
      ensures Asked(pending) + Answered(replies) == Asked(old(pending)) + Answered(old(replies))
      ensures old(replies) <= replies
      ensures forall k :: |old(replies)| <= k < |replies| ==> Justified(old(table), table, old(pending), replies[k], Steady(old(table), info))
      ensures forall w :: w in pending ==> w in old(pending)
      ensures Steady(old(table), info) ==> Steady(table, info) && forall w :: w in pending ==> HasLive(table, w)
      ensures Steady(old(table), info) && AtRest(old(table), old(pending)) && (forall w :: w in old(pending) ==> HasLive(old(table), w)) ==>
        pending == old(pending) && replies == old(replies)
    {
      hide Exits, Steady, SameParents, AllAged, Reports, Asked, Answered, Pool, Unmatched, HasLive, Justified, ToldOf;
      ghost var t0 := table;
      ghost var quiet := Steady(t0, info) && AtRest(t0, pending) && forall w :: w in pending ==> HasLive(t0, w);
      AgedSelf(t0, info);
      var i := 0;
      while i < |pending|
        invariant Shaped() && i <= |pending| && AllAged(t0, table, info)
        invariant Steady(t0, info) ==> SameParents(t0, table) && Steady(table, info)
        invariant Exits(table) + Reports(replies) == Exits(t0) + Reports(old(replies))
        invariant Asked(pending) + Answered(replies) == Asked(old(pending)) + Answered(old(replies))
        invariant forall j :: 0 <= j < i ==> Unmatched(table, pending[j])
        invariant Steady(t0, info) ==> forall j :: 0 <= j < i ==> HasLive(table, pending[j])
        invariant quiet ==> pending == old(pending) && replies == old(replies)
        invariant old(replies) <= replies && forall w :: w in pending ==> w in old(pending)
        invariant forall k :: |old(replies)| <= k < |replies| ==> Justified(t0, table, old(pending), replies[k], Steady(t0, info))
        decreases |pending| - i
      {
        ghost var t1 := table;
        if quiet {
          UnmatchedAged(t0, t1, pending[i], info);
          HasLiveAged(t0, t1, pending[i], info);
        }
        ghost var done, w := pending[..i], pending[i];
        ghost var asked, told := pending, replies;
        var replied := ServeOne(i, info);
        StillJustified(t0, t1, table, asked, old(pending), told, replies, |old(replies)|, info);
        DoneAged(t1, table, done, info);
        AgedTrans(t0, t1, table, info);
        if !replied {
          if Steady(t0, info) {
            HasLiveAged(t1, table, w, info);
          }
          i := i + 1;
        }
      }
    }

    /** The entry of `pid`, or the one it would be given. */
    method FindSlot(pid: Word) returns (r: Option<nat>)
      requires |table| == PROCS
      ensures r == SlotFor(table, pid)
    {
      r := FindFirst(pid, 0);
      if r.None? {
        r := FindFirst(pid, 1);
      }
      if r.None? {
        r := FindFirst(pid, 2);
      }
    }

    /** The three searches of find_proc and alloc_proc_slot. */
    method FindFirst(pid: Word, kind: nat) returns (r: Option<nat>)
      requires |table| == PROCS
      ensures r == First(table, pid, kind, 0)
    {
      var i := 0;
      while i < PROCS
        invariant i <= PROCS && First(table, pid, kind, 0) == First(table, pid, kind, i)
      {
        if Suits(table[i], pid, kind) {
          return Some(i);
        }
        i := i + 1;
      }
      return None;
    }

    /** record_process: the entry of the process, found or made, gets its new state; a record that is
        not about an exit gives no pending wait anything to take. */
    method RecordProcess(pid: Word, ppid: Word, state: State, exitCode: int, signal: Word) returns (stored: bool)
      requires Shaped()
      modifies `table
      ensures Shaped() && stored == (pid == 0 || SlotFor(old(table), pid).Some?)
      ensures table == Recorded(old(table), pid, ppid, state, exitCode, signal)
      ensures state != Exited && AtRest(old(table), pending) ==> Valid()
    {
      hide Pool, SlotFor;
      if pid == 0 {
        return true;
      }
      var slot := FindSlot(pid);
      if slot.None? {
        return false;
      }
      var i := slot.value;
      if state != Exited && AtRest(table, pending) {
        RecordedRests(table, pending, pid, ppid, state, exitCode, signal);
      }
      table := table[i := Entry(table[i], pid, ppid, state, exitCode, signal)];
      return true;
    }

    /** handle_exit_notify */
    method ExitNotify(pid: Word, exitCode: int, info: Infos) returns (stored: bool)
      requires Valid()
      modifies this
      ensures Valid() && stored == (pid == 0 || SlotFor(old(table), pid).Some?)
      ensures var t := Recorded(old(table), pid, 0, Exited, exitCode, 0);
        && AllAged(t, table, info)
        && Exits(table) + Reports(replies) == Exits(t) + Reports(old(replies))
        && Asked(pending) + Answered(replies) == Asked(old(pending)) + Answered(old(replies))
        && old(replies) <= replies
        && forall k :: |old(replies)| <= k < |replies| ==> Justified(t, table, old(pending), replies[k], Steady(t, info))
    {
      hide Pool, SlotFor, AtRest, AllAged, Exits, Reports, Asked, Answered, Recorded, Justified, Steady;
      stored := RecordProcess(pid, 0, Exited, exitCode, 0);
      ServiceWaits(info);
    }

    /** handle_signal_notify */
    method SignalNotify(pid: Word, signum: Word, info: Infos) returns (stored: bool)
      requires Valid()
      modifies this
      ensures Valid()
      ensures Asked(pending) + Answered(replies) == Asked(old(pending)) + Answered(old(replies))
      ensures signum !in {9, 15, 18, 19, 20} ==> table == old(table) && pending == old(pending) && replies == old(replies)
      ensures signum in {18, 19, 20} ==>
        && table == Recorded(old(table), pid, 0, if signum == 18 then Running else Stopped, 0, 0)
        && pending == old(pending) && replies == old(replies)
      ensures signum in {9, 15} ==>
        var t := Recorded(old(table), pid, 0, Exited, 128 + signum, signum);
        && AllAged(t, table, info) && Exits(table) + Reports(replies) == Exits(t) + Reports(old(replies))
        && old(replies) <= replies
        && forall k :: |old(replies)| <= k < |replies| ==> Justified(t, table, old(pending), replies[k], Steady(t, info))
    {
      hide Pool, SlotFor, AtRest, AllAged, Exits, Reports, Asked, Answered, Recorded, Justified, Steady;
      stored := true;
      if signum == 18 || signum == 19 || signum == 20 {
        stored := RecordProcess(pid, 0, if signum == 18 then Running else Stopped, 0, 0);
      } else if signum == 15 || signum == 9 {
        stored := RecordProcess(pid, 0, Exited, 128 + signum, signum);
        ServiceWaits(info);
      }
    }

    /** handle_wait.  Without an answer to give, the wait is left pending in a node from the pool. */
    method Wait(msg: Word, ppid: Word, pid: int, noHang: bool, info: Infos) returns (outcome: Outcome)
      requires Valid()
      modifies this
      ensures Valid()
      ensures outcome ==
        match Verdict(old(table), ppid, pid)
        case Some(result) => Now(result)
        case None => if noHang then Nothing else if old(free) == [] then NoMemory else Later
      ensures outcome == Later ==>
        && free == old(free)[1..] && replies == old(replies)
        && pending == [Waiter(old(free)[0], msg, ppid, pid)] + old(pending)
      ensures AllAged(old(table), table, info) && old(replies) <= replies
      ensures forall k :: |old(replies)| <= k < |replies| ==> Justified(old(table), table, old(pending), replies[k], Steady(old(table), info))
      ensures outcome != Later ==> Asked(pending) + Answered(replies) == Asked(old(pending)) + Answered(old(replies))
      ensures Exits(table) + Reports(replies) ==
        Exits(old(table)) + Reports(old(replies)) - if outcome.Now? && outcome.result.Reaped? then 1 else 0
    {
      hide Exits, Steady, SameParents, AllAged, WaitStatus, Reports, Asked, Answered, Pool, Takes, Awaits, Unmatched, Verdict, Justified;
      var result := Answer(ppid, pid, info);
      RestAged(old(table), table, pending, info);
      if result == Some(NoChild) {
        return Now(NoChild);
      }
      if result.None? {
        if noHang {
          return Nothing;
        }
        if free == [] {
          return NoMemory;
        }
        var w := Waiter(free[0], msg, ppid, pid);
        PoolTake(free, pending, w);
        NewRests(table, pending, w);
        pending := [w] + pending;
        free := free[1..];
        return Later;
      }
      outcome := Now(result.value);
      ghost var t := table;
      ServiceWaits(info);
      AgedTrans(old(table), t, table, info);
      LaterJustified(old(table), t, table, old(pending), replies, |old(replies)|, info);
    }
  }

  datatype Outcome = Now(result: Result) | Nothing | NoMemory | Later

  predicate Suits(p: Proc, pid: Word, kind: nat) {
    match kind
    case 0 => p.inUse && p.pid == pid
    case 1 => !p.inUse
    case _ => p.state != Running
  }

  function First(t: seq<Proc>, pid: Word, kind: nat, i: nat): (r: Option<nat>)
    requires i <= |t|
    ensures r.Some? ==> i <= r.value < |t| && Suits(t[r.value], pid, kind) && forall j :: i <= j < r.value ==> !Suits(t[j], pid, kind)
    ensures r.None? ==> forall j :: i <= j < |t| ==> !Suits(t[j], pid, kind)
    decreases |t| - i
  {
    if i == |t| then None else if Suits(t[i], pid, kind) then Some(i) else First(t, pid, kind, i + 1)
  }

  /** Where the record of `pid` goes: its own entry, an unused one, or that of a process not running. */
  function SlotFor(t: seq<Proc>, pid: Word): (r: Option<nat>)
    ensures r.Some? ==> r.value < |t|
    ensures r.None? ==> forall j :: 0 <= j < |t| ==> t[j].inUse && t[j].pid != pid && t[j].state == Running
  {
    if First(t, pid, 0, 0).Some? then First(t, pid, 0, 0)
    else if First(t, pid, 1, 0).Some? then First(t, pid, 1, 0)
    else
      assert First(t, pid, 0, 0).None? && First(t, pid, 1, 0).None?;
      First(t, pid, 2, 0)
  }

  /** The record itself; the parent is kept unless a new one is given. */
  function Entry(p: Proc, pid: Word, ppid: Word, state: State, exitCode: int, signal: Word): Proc {
    var kept := if p.inUse && p.pid == pid then p else EMPTY;
    Proc(true, pid, if ppid != 0 then ppid else kept.ppid, state, exitCode, signal, if state == Exited then 0 else kept.threads)
  }

  function Recorded(t: seq<Proc>, pid: Word, ppid: Word, state: State, exitCode: int, signal: Word): (t': seq<Proc>)
    ensures |t'| == |t|
  {
    var slot := SlotFor(t, pid);
    if pid == 0 || slot.None? then t else t[slot.value := Entry(t[slot.value], pid, ppid, state, exitCode, signal)]
  }

  /** A process that has an entry keeps it: the lowest one with its pid takes the record, and holds on to
      its parent unless a new one is given. */
  lemma RecordedAgain(t: seq<Proc>, pid: Word, ppid: Word, state: State, exitCode: int, signal: Word, i: nat)
    requires pid != 0 && i < |t| && t[i].inUse && t[i].pid == pid && forall j :: 0 <= j < i ==> !t[j].inUse || t[j].pid != pid
    ensures Recorded(t, pid, ppid, state, exitCode, signal) == t[i := t[i].(
      ppid := if ppid == 0 then t[i].ppid else ppid, state := state, exitCode := exitCode, signal := signal,
      threads := if state == Exited then 0 else t[i].threads)]
  {
    hide First;
    assert Suits(t[i], pid, 0) && forall j :: 0 <= j < i ==> !Suits(t[j], pid, 0);
    assert First(t, pid, 0, 0) == Some(i);
  }

  /** A new process goes into the lowest unused entry or, with none unused, takes the place of the lowest
      one that is not running; with all running it is not recorded. */
  lemma RecordedNew(t: seq<Proc>, pid: Word, ppid: Word, state: State, exitCode: int, signal: Word)
    requires pid != 0 && forall j :: 0 <= j < |t| ==> !t[j].inUse || t[j].pid != pid
    ensures var t' := Recorded(t, pid, ppid, state, exitCode, signal);
      var p := Proc(true, pid, ppid, state, exitCode, signal, 0);
      && (forall i :: 0 <= i < |t| && !t[i].inUse && (forall j :: 0 <= j < i ==> t[j].inUse) ==> t' == t[i := p])
      && ((forall j :: 0 <= j < |t| ==> t[j].inUse) ==>
            && (forall i :: 0 <= i < |t| && t[i].state != Running && (forall j :: 0 <= j < i ==> t[j].state == Running) ==> t' == t[i := p])
            && ((forall j :: 0 <= j < |t| ==> t[j].state == Running) ==> t' == t))
  {
    hide First;
    assert forall j :: 0 <= j < |t| ==> !Suits(t[j], pid, 0);
    assert First(t, pid, 0, 0).None?;
    var a, b := First(t, pid, 1, 0), First(t, pid, 2, 0);
    forall i | 0 <= i < |t| && !t[i].inUse && (forall j :: 0 <= j < i ==> t[j].inUse) ensures a == Some(i) {
      assert Suits(t[i], pid, 1) && forall j :: 0 <= j < i ==> !Suits(t[j], pid, 1);
    }
    if forall j :: 0 <= j < |t| ==> t[j].inUse {
      assert forall j :: 0 <= j < |t| ==> !Suits(t[j], pid, 1);
      forall i | 0 <= i < |t| && t[i].state != Running && (forall j :: 0 <= j < i ==> t[j].state == Running) ensures b == Some(i) {
        assert Suits(t[i], pid, 2) && forall j :: 0 <= j < i ==> !Suits(t[j], pid, 2);
      }
      assert (forall j :: 0 <= j < |t| ==> t[j].state == Running) ==> forall j :: 0 <= j < |t| ==> !Suits(t[j], pid, 2);
    }
  }

  lemma RecordedRests(t: seq<Proc>, pending: seq<Waiter>, pid: Word, ppid: Word, state: State, exitCode: int, signal: Word)
    requires AtRest(t, pending) && state != Exited
    ensures AtRest(Recorded(t, pid, ppid, state, exitCode, signal), pending)
  {
    var t' := Recorded(t, pid, ppid, state, exitCode, signal);
    forall w | w in pending ensures Unmatched(t', w) {
      assert Unmatched(t, w);
    }
  }

  lemma RestAged(t: seq<Proc>, t': seq<Proc>, pending: seq<Waiter>, info: Infos)
    requires AtRest(t, pending) && AllAged(t, t', info)
    ensures AtRest(t', pending)
  {
    forall w | w in pending ensures Unmatched(t', w) {
      UnmatchedAged(t, t', w, info);
    }
  }

  lemma NewRests(t: seq<Proc>, pending: seq<Waiter>, w: Waiter)
    requires AtRest(t, pending) && forall j :: 0 <= j < |t| ==> !Takes(t[j], w.ppid, w.pid)
    ensures AtRest(t, [w] + pending)
  {
    forall x | x in [w] + pending ensures Unmatched(t, x) {
      assert x == w || x in pending;
    }
  }

  lemma AgedSelf(t: seq<Proc>, info: Infos)
    ensures AllAged(t, t, info) && SameParents(t, t)
  {
  }

  /** Waiters dealt with stay dealt with as the table ages. */
  lemma DoneAged(t: seq<Proc>, t': seq<Proc>, done: seq<Waiter>, info: Infos)
    requires AllAged(t, t', info)
    ensures forall j :: 0 <= j < |done| && Unmatched(t, done[j]) ==> Unmatched(t', done[j])
    ensures SameParents(t, t') ==> forall j :: 0 <= j < |done| && HasLive(t, done[j]) ==> HasLive(t', done[j])
  {
    hide Unmatched, HasLive, Aged;
    forall j | 0 <= j < |done| && Unmatched(t, done[j]) ensures Unmatched(t', done[j]) {
      UnmatchedAged(t, t', done[j], info);
    }
    if SameParents(t, t') {
      forall j | 0 <= j < |done| && HasLive(t, done[j]) ensures HasLive(t', done[j]) {
        HasLiveAged(t, t', done[j], info);
      }
    }
  }

  lemma TakenBefore(t0: seq<Proc>, t1: seq<Proc>, i: nat, info: Infos)
    requires AllAged(t0, t1, info) && i < |t1| && t1[i].inUse && t1[i].state == Exited
    ensures t0[i] == t1[i]
  {
    assert Aged(t0[i], t1[i], info);
  }

  lemma ReapOne(t0: seq<Proc>, t: seq<Proc>, i: nat, info: Infos)
    requires AllAged(t0, t, info) && i < |t| && t[i].inUse && t[i].state == Exited
    ensures AllAged(t0, t[i := EMPTY], info)
    ensures Steady(t0, info) && SameParents(t0, t) && Steady(t, info) ==> SameParents(t0, t[i := EMPTY]) && Steady(t[i := EMPTY], info)
  {
    var t' := t[i := EMPTY];
    forall j | 0 <= j < |t0| ensures Aged(t0[j], t'[j], info) {
      assert Aged(t0[j], t[j], info);
    }
  }

  lemma RefreshOne(t0: seq<Proc>, t: seq<Proc>, i: nat, info: Infos)
    requires AllAged(t0, t, info) && i < |t|
    ensures var t' := t[i := Refreshed(t[i], info)];
      && AllAged(t0, t', info)
      && (Steady(t0, info) && SameParents(t0, t) && Steady(t, info) ==> SameParents(t0, t') && Steady(t', info))
  {
    var t' := t[i := Refreshed(t[i], info)];
    forall j | 0 <= j < |t0| ensures Aged(t0[j], t'[j], info) {
      assert Aged(t0[j], t[j], info);
    }
  }
}
