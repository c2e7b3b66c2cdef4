/** The synchronisation server: mutexes and semaphores whose requests wait in queues taken from one
    pool of pending nodes.  Every object is already acquired; queues 0 .. 15 belong to the mutexes,
    queues 16 .. 31 to the semaphores. */
module SyncServer {
  import opened Lists

  type Word = w: nat | w < 0x1_0000_0000

  const LOCKS := 16
  const SEMS := 16
  const PENDING := 16
  const QUEUES := LOCKS + SEMS

  /** A request kept for later: the pool node, the request and the client who made it. */
  datatype Waiter = Waiter(node: nat, tag: Word, client: Word)
  datatype Code = Success | LockFail | TryWaitFail | NoResource | InvalidId | InvalidToken | InvalidOp
  datatype Reply = Reply(tag: Word, code: Code, value: int)

  ghost function Nodes(q: seq<Waiter>): multiset<nat> {
    if q == [] then multiset{} else multiset{q[0].node} + Nodes(q[1..])
  }

  ghost function Tags(q: seq<Waiter>): seq<Word> {
    if q == [] then [] else [q[0].tag] + Tags(q[1..])
  }

  ghost function AllNodes(qs: seq<seq<Waiter>>): multiset<nat> {
    if qs == [] then multiset{} else AllNodes(qs[..|qs| - 1]) + Nodes(qs[|qs| - 1])
  }

  ghost function AllTags(qs: seq<seq<Waiter>>): multiset<Word> {
    if qs == [] then multiset{} else AllTags(qs[..|qs| - 1]) + multiset(Tags(qs[|qs| - 1]))
  }

  lemma {:induction false} NodesSnoc(q: seq<Waiter>, w: Waiter)
    ensures Nodes(q + [w]) == Nodes(q) + multiset{w.node} && Tags(q + [w]) == Tags(q) + [w.tag]
  {
    if q == [] {
      assert [] + [w] == [w] && [w][1..] == [];
    } else {
      assert (q + [w])[1..] == q[1..] + [w];
      NodesSnoc(q[1..], w);
    }
  }

  lemma Regroup<T>(a: multiset<T>, b: multiset<T>, c: multiset<T>, d: multiset<T>, l: multiset<T>)
    requires a + b == c + d
    ensures a + l + b == c + l + d
  {
    assert a + l + b == (a + b) + l;
    assert c + l + d == (c + d) + l;
  }

  lemma AllLast(qs: seq<seq<Waiter>>)
    requires qs != []
    ensures AllNodes(qs) == AllNodes(qs[..|qs| - 1]) + Nodes(qs[|qs| - 1])
    ensures AllTags(qs) == AllTags(qs[..|qs| - 1]) + multiset(Tags(qs[|qs| - 1]))
  {
  }

  /** What changes with one queue is what that queue holds. */
  lemma {:induction false} AllUpdate(qs: seq<seq<Waiter>>, i: nat, q: seq<Waiter>)
    requires i < |qs|
    ensures AllNodes(qs[i := q]) + Nodes(qs[i]) == AllNodes(qs) + Nodes(q)
    ensures AllTags(qs[i := q]) + multiset(Tags(qs[i])) == AllTags(qs) + multiset(Tags(q))
  {
    hide AllNodes, AllTags, Nodes, Tags;
    var n, qs' := |qs| - 1, qs[i := q];
    AllLast(qs);
    AllLast(qs');
    if i == n {
      assert qs'[..n] == qs[..n];
    } else {
      assert qs'[..n] == qs[..n][i := q];
      AllUpdate(qs[..n], i, q);
      Regroup(AllNodes(qs'[..n]), Nodes(qs[i]), AllNodes(qs[..n]), Nodes(q), Nodes(qs[n]));
      Regroup(AllTags(qs'[..n]), multiset(Tags(qs[i])), AllTags(qs[..n]), multiset(Tags(q)), multiset(Tags(qs[n])));
    }
  }

  ghost function Answered(r: seq<Reply>): multiset<Word> {
    if r == [] then multiset{} else Answered(r[..|r| - 1]) + multiset{r[|r| - 1].tag}
  }

  lemma AnsweredSnoc(r: seq<Reply>, x: Reply)
    ensures Answered(r + [x]) == Answered(r) + multiset{x.tag}
  {
    assert (r + [x])[..|r|] == r;
  }

  ghost function AllIds(): multiset<nat> { multiset(seq(PENDING, i => i)) }

  /** Every pending node is free or in exactly one queue. */
  ghost predicate PoolOk(free: seq<nat>, queue: seq<seq<Waiter>>) {
    multiset(free) + AllNodes(queue) == AllIds()
  }

  /** Requests are served in the order in which they came to wait. */
  ghost predicate Fifo(arrived: seq<seq<Word>>, served: seq<seq<Word>>, queue: seq<seq<Waiter>>) {
    && |arrived| == |served| == |queue| == QUEUES
    && forall q :: 0 <= q < QUEUES ==> arrived[q] == served[q] + Tags(queue[q])
  }

  /** An unlocked mutex has no waiters; while only holders have unlocked it, it has one holder when
      it is locked and none when it is not. */
  ghost predicate MutexOk(locked: bool, queue: seq<Waiter>, holders: multiset<Word>, disciplined: bool) {
    && (!locked ==> queue == [])
    && (disciplined ==> |holders| == if locked then 1 else 0)
  }

  /** The initial value and the posts account for the value and the waits that succeeded; if the
      initial value was not negative, requests wait only while the value is 0. */
  ghost predicate SemOk(value: int, queue: seq<Waiter>, initial: int, posts: nat, taken: nat) {
    && initial + posts == value + taken
    && (initial >= 0 ==> value >= 0 && (queue != [] ==> value == 0))
  }

  ghost predicate Mutexes(locked: seq<bool>, queue: seq<seq<Waiter>>, holders: seq<multiset<Word>>, disciplined: seq<bool>) {
    && |locked| == |holders| == |disciplined| == LOCKS && |queue| == QUEUES
    && forall m :: 0 <= m < LOCKS ==> MutexOk(locked[m], queue[m], holders[m], disciplined[m])
  }

  ghost predicate Sems(value: seq<int>, queue: seq<seq<Waiter>>, initial: seq<int>, posts: seq<nat>, taken: seq<nat>) {
    && |value| == |initial| == |posts| == |taken| == SEMS && |queue| == QUEUES
    && forall s :: 0 <= s < SEMS ==> SemOk(value[s], queue[LOCKS + s], initial[s], posts[s], taken[s])
  }

  /** What one mutex goes through does not concern the others. */
  lemma MutexStep(locked: seq<bool>, queue: seq<seq<Waiter>>, holders: seq<multiset<Word>>, disciplined: seq<bool>,
                  m: nat, l: bool, q: seq<Waiter>, h: multiset<Word>, d: bool)
    requires Mutexes(locked, queue, holders, disciplined) && m < LOCKS && MutexOk(l, q, h, d)
    ensures Mutexes(locked[m := l], queue[m := q], holders[m := h], disciplined[m := d])
  {
    hide MutexOk;
    var locked', queue', holders', disciplined' := locked[m := l], queue[m := q], holders[m := h], disciplined[m := d];
    forall i | 0 <= i < LOCKS ensures MutexOk(locked'[i], queue'[i], holders'[i], disciplined'[i]) {
      assert MutexOk(locked[i], queue[i], holders[i], disciplined[i]);
    }
  }

  lemma MutexesApart(locked: seq<bool>, queue: seq<seq<Waiter>>, holders: seq<multiset<Word>>, disciplined: seq<bool>,
                     s: nat, q: seq<Waiter>)
    requires Mutexes(locked, queue, holders, disciplined) && s < SEMS
    ensures Mutexes(locked, queue[LOCKS + s := q], holders, disciplined)
  {
    hide MutexOk;
    var queue' := queue[LOCKS + s := q];
    forall i | 0 <= i < LOCKS ensures MutexOk(locked[i], queue'[i], holders[i], disciplined[i]) {
      assert MutexOk(locked[i], queue[i], holders[i], disciplined[i]);
    }
  }

  lemma SemStep(value: seq<int>, queue: seq<seq<Waiter>>, initial: seq<int>, posts: seq<nat>, taken: seq<nat>,
                s: nat, v: int, q: seq<Waiter>, p: nat, t: nat)
    requires Sems(value, queue, initial, posts, taken) && s < SEMS && SemOk(v, q, initial[s], p, t)
    ensures Sems(value[s := v], queue[LOCKS + s := q], initial, posts[s := p], taken[s := t])
  {
    hide SemOk;
    var value', queue', posts', taken' := value[s := v], queue[LOCKS + s := q], posts[s := p], taken[s := t];
    forall i | 0 <= i < SEMS ensures SemOk(value'[i], queue'[LOCKS + i], initial[i], posts'[i], taken'[i]) {
      assert SemOk(value[i], queue[LOCKS + i], initial[i], posts[i], taken[i]);
    }
  }

  lemma SemsApart(value: seq<int>, queue: seq<seq<Waiter>>, initial: seq<int>, posts: seq<nat>, taken: seq<nat>,
                  m: nat, q: seq<Waiter>)
    requires Sems(value, queue, initial, posts, taken) && m < LOCKS
    ensures Sems(value, queue[m := q], initial, posts, taken)
  {
    hide SemOk;
    var queue' := queue[m := q];
    forall i | 0 <= i < SEMS ensures SemOk(value[i], queue'[LOCKS + i], initial[i], posts[i], taken[i]) {
      assert SemOk(value[i], queue[LOCKS + i], initial[i], posts[i], taken[i]);
    }
  }

  class Server {
    var locked: seq<bool>
    var value: seq<int>
    var mutexToken: seq<Word>
    var semToken: seq<Word>
    var queue: seq<seq<Waiter>>
    var free: seq<nat>
    var replies: seq<Reply>
    ghost var holders: seq<multiset<Word>>     // clients told they have the mutex and not done with it
    ghost var disciplined: seq<bool>           // only holders have unlocked so far
    ghost const initial: seq<int>
    ghost var posts: seq<nat>
    ghost var taken: seq<nat>
    ghost var arrived: seq<seq<Word>>
    ghost var served: seq<seq<Word>>
    ghost var asked: multiset<Word>

    ghost predicate Shaped()
      reads this
    {
      && |locked| == |holders| == |disciplined| == |mutexToken| == LOCKS
      && |value| == |initial| == |posts| == |taken| == |semToken| == SEMS
      && |queue| == QUEUES
    }

    /** What holds while the request `extra` is being dealt with. */
    ghost predicate Inv(extra: multiset<Word>)
      reads this
    {
      Core(extra) && Mutexes(locked, queue, holders, disciplined) && Sems(value, queue, initial, posts, taken)
    }

    ghost predicate Valid()
      reads this
    {
      Inv(multiset{})
    }

    constructor (values: seq<int>, mutexToken: seq<Word>, semToken: seq<Word>)
      requires |values| == |semToken| == SEMS && |mutexToken| == LOCKS
      ensures Valid() && value == values && replies == [] && initial == values
      ensures locked == seq(LOCKS, _ => false) && queue == seq(QUEUES, _ => []) && disciplined == seq(LOCKS, _ => true)
    {
      locked, value := seq(LOCKS, _ => false), values;
      this.mutexToken, this.semToken := mutexToken, semToken;
      queue, free, replies := seq(QUEUES, _ => []), seq(PENDING, i => i), [];
      holders, disciplined := seq(LOCKS, _ => multiset{}), seq(LOCKS, _ => true);
      initial, posts, taken := values, seq(SEMS, _ => 0), seq(SEMS, _ => 0);
      arrived, served, asked := seq(QUEUES, _ => []), seq(QUEUES, _ => []), multiset{};
      new;
      AllEmpty(queue);
    }

    /** The queues, the pool and the answers, with `extra` the request being dealt with. */
    ghost predicate Core(extra: multiset<Word>)
      reads this
    {
      && Shaped()
      && PoolOk(free, queue)
      && Fifo(arrived, served, queue)
      && asked == Answered(replies) + AllTags(queue) + extra
    }

    lemma Known(extra: multiset<Word>)
      requires Inv(extra)
      ensures Shaped()
      ensures forall m :: 0 <= m < LOCKS ==> MutexOk(locked[m], queue[m], holders[m], disciplined[m])
      ensures forall s :: 0 <= s < SEMS ==> SemOk(value[s], queue[LOCKS + s], initial[s], posts[s], taken[s])
    {
    }

    method Receive(tag: Word)
      requires Valid()
      modifies `asked
      ensures Inv(multiset{tag}) && asked == old(asked) + multiset{tag}
    {
      hide PoolOk, Fifo, Answered, AllTags, Mutexes, Sems;
      asked := asked + multiset{tag};
    }

    /** noza_reply */
    method Send(tag: Word, code: Code, v: int, ghost extra: multiset<Word>)
      requires Inv(extra + multiset{tag})
      modifies `replies
      ensures Inv(extra) && replies == old(replies) + [Reply(tag, code, v)]
    {
      hide PoolOk, Fifo, Answered, AllTags, Mutexes, Sems;
      AnsweredSnoc(replies, Reply(tag, code, v));
      replies := replies + [Reply(tag, code, v)];
      Move(Answered(old(replies)), AllTags(queue), extra, tag);
    }

    /** The reply to the request at hand. */
    method Finish(tag: Word, code: Code, v: int)
      requires Inv(multiset{tag})
      modifies `replies
      ensures Valid() && replies == old(replies) + [Reply(tag, code, v)]
    {
      hide Core;
      assert multiset{} + multiset{tag} == multiset{tag};
      Send(tag, code, v, multiset{});
    }

    method SetMutex(m: nat, l: bool, ghost h: multiset<Word>, ghost d: bool, ghost extra: multiset<Word>)
      requires Inv(extra) && m < LOCKS && MutexOk(l, queue[m], h, d)
      modifies `locked, `holders, `disciplined
      ensures Inv(extra) && locked == old(locked)[m := l] && holders == old(holders)[m := h] && disciplined == old(disciplined)[m := d]
    {
      hide PoolOk, Fifo, Answered, AllTags, MutexOk, SemOk;
      MutexStep(locked, queue, holders, disciplined, m, l, queue[m], h, d);
      assert queue[m := queue[m]] == queue;
      locked := locked[m := l];
      holders, disciplined := holders[m := h], disciplined[m := d];
    }

    method SetSem(s: nat, v: int, ghost p: nat, ghost t: nat, ghost extra: multiset<Word>)
      requires Inv(extra) && s < SEMS && SemOk(v, queue[LOCKS + s], initial[s], p, t)
      modifies `value, `posts, `taken
      ensures Inv(extra) && value == old(value)[s := v] && posts == old(posts)[s := p] && taken == old(taken)[s := t]
    {
      hide PoolOk, Fifo, Answered, AllTags, MutexOk, SemOk;
      SemStep(value, queue, initial, posts, taken, s, v, queue[LOCKS + s], p, t);
      assert queue[LOCKS + s := queue[LOCKS + s]] == queue;
      value := value[s := v];
      posts, taken := posts[s := p], taken[s := t];
    }

    /** A request waits for mutex `m`. */
    method WaitForMutex(m: nat, tag: Word, client: Word) returns (ok: bool)
      requires Inv(multiset{tag}) && m < LOCKS && locked[m]
      modifies `queue, `free, `arrived
      ensures ok == (old(free) != [])
      ensures ok ==>
        && Valid() && free == old(free)[1..]
        && queue == old(queue)[m := old(queue)[m] + [Waiter(old(free)[0], tag, client)]]
      ensures !ok ==> Inv(multiset{tag}) && queue == old(queue) && free == old(free)
    {
      hide Core;
      ok := Enqueue(m, tag, client);
      if ok {
        MutexStep(locked, old(queue), holders, disciplined, m, true, queue[m], holders[m], disciplined[m]);
        assert locked[m := true] == locked && holders[m := holders[m]] == holders && disciplined[m := disciplined[m]] == disciplined;
        SemsApart(value, old(queue), initial, posts, taken, m, queue[m]);
      }
    }

    /** A request waits for semaphore `s`. */
    method WaitForSem(s: nat, tag: Word, client: Word) returns (ok: bool)
      requires Inv(multiset{tag}) && s < SEMS && value[s] <= 0
      modifies `queue, `free, `arrived
      ensures ok == (old(free) != [])
      ensures ok ==>
        && Valid() && free == old(free)[1..]
        && queue == old(queue)[LOCKS + s := old(queue)[LOCKS + s] + [Waiter(old(free)[0], tag, client)]]
      ensures !ok ==> Inv(multiset{tag}) && queue == old(queue) && free == old(free)
    {
      hide Core;
      ok := Enqueue(LOCKS + s, tag, client);
      if ok {
        SemStep(value, old(queue), initial, posts, taken, s, value[s], queue[LOCKS + s], posts[s], taken[s]);
        assert value[s := value[s]] == value && posts[s := posts[s]] == posts && taken[s := taken[s]] == taken;
        MutexesApart(locked, old(queue), holders, disciplined, s, queue[LOCKS + s]);
      }
    }

    /** The request goes to the tail of queue `q`, if the pool has a node for it. */
    method Enqueue(q: nat, tag: Word, client: Word) returns (ok: bool)
      requires Core(multiset{tag}) && q < QUEUES
      modifies `queue, `free, `arrived
      ensures ok == (old(free) != [])
      ensures ok ==> Core(multiset{}) && queue == old(queue)[q := old(queue)[q] + [Waiter(old(free)[0], tag, client)]] && free == old(free)[1..]
      ensures !ok ==> Core(multiset{tag}) && queue == old(queue) && free == old(free)
    {
      hide Answered, AllTags, AllNodes, Nodes, Tags;
      if free == [] {
        return false;
      }
      var w := Waiter(free[0], tag, client);
      EnqueueKeeps(free, queue, q, w);
      arrived := arrived[q := arrived[q] + [tag]];
      queue := queue[q := queue[q] + [w]];
      free := free[1..];
      return true;
    }

    /** The oldest request leaves queue `q` and its node goes back to the pool. */
    method Dequeue(q: nat, ghost extra: multiset<Word>) returns (w: Waiter)
      requires Core(extra) && q < QUEUES && queue[q] != []
      modifies `queue, `free, `served
      ensures w == old(queue)[q][0] && Core(extra + multiset{w.tag}) && queue == old(queue)[q := old(queue)[q][1..]]
      ensures free == old(free) + [w.node] && |old(served)| == QUEUES && served == old(served)[q := old(served)[q] + [w.tag]]
    {
      hide Answered, AllTags, AllNodes, Nodes, Tags;
      w := queue[q][0];
      DequeueKeeps(free, queue, q);
      Move2(Answered(replies), AllTags(queue), AllTags(queue[q := queue[q][1..]]), extra, w.tag);
      served := served[q := served[q] + [w.tag]];
      queue := queue[q := queue[q][1..]];
      free := free + [w.node];
    }

    /** The oldest request of queue `q` is answered. */
    method ServeFirst(q: nat, v: int, ghost extra: multiset<Word>) returns (w: Waiter)
      requires Inv(extra) && q < QUEUES && queue[q] != []
      modifies `queue, `free, `served, `replies
      ensures Inv(extra) && w == old(queue)[q][0] && queue == old(queue)[q := old(queue)[q][1..]]
      ensures replies == old(replies) + [Reply(w.tag, Success, v)]
      ensures free == old(free) + [w.node] && |old(served)| == QUEUES && served == old(served)[q := old(served)[q] + [w.tag]]
    {
      hide Core;
      w := Dequeue(q, extra);
      if q < LOCKS {
        MutexStep(locked, old(queue), holders, disciplined, q, locked[q], queue[q], holders[q], disciplined[q]);
        assert locked[q := locked[q]] == locked && holders[q := holders[q]] == holders && disciplined[q := disciplined[q]] == disciplined;
        SemsApart(value, old(queue), initial, posts, taken, q, queue[q]);
      } else {
        ghost var s := q - LOCKS;
        SemStep(value, old(queue), initial, posts, taken, s, value[s], queue[q], posts[s], taken[s]);
        assert value[s := value[s]] == value && posts[s := posts[s]] == posts && taken[s := taken[s]] == taken;
        MutexesApart(locked, old(queue), holders, disciplined, s, queue[q]);
      }
      Send(w.tag, Success, v, extra);
    }

    /** The mutex is granted if it is free; otherwise the request waits, if there is a node for it. */
    twostate predicate Locking(m: nat, tag: Word, client: Word)
      requires old(Shaped()) && m < LOCKS
      reads this
    {
      && if !old(locked)[m] then
          && locked == old(locked)[m := true] && holders == old(holders)[m := old(holders)[m] + multiset{client}]
          && queue == old(queue) && free == old(free) && replies == old(replies) + [Reply(tag, Success, 0)]
        else if old(free) != [] then
          && locked == old(locked) && holders == old(holders) && replies == old(replies) && free == old(free)[1..]
          && queue == old(queue)[m := old(queue)[m] + [Waiter(old(free)[0], tag, client)]]
        else
          && locked == old(locked) && holders == old(holders) && queue == old(queue) && free == old(free)
          && replies == old(replies) + [Reply(tag, NoResource, 0)]
    }

    twostate predicate TryLocking(m: nat, tag: Word, client: Word)
      requires old(Shaped()) && m < LOCKS
      reads this
    {
      && locked == old(locked)[m := true] && queue == old(queue) && free == old(free)
      && holders == (if old(locked)[m] then old(holders) else old(holders)[m := old(holders)[m] + multiset{client}])
      && replies == old(replies) + [Reply(tag, if old(locked)[m] then LockFail else Success, 0)]
    }

    /** The oldest waiter has the mutex next, or nobody has it. */
    twostate predicate Unlocking(m: nat, tag: Word, client: Word)
      requires old(Shaped()) && m < LOCKS
      reads this
    {
      && disciplined == old(disciplined)[m := old(disciplined)[m] && client in old(holders)[m]]
      && var left := old(holders)[m] - multiset{client};
      if old(queue)[m] != [] then
        var w := old(queue)[m][0];
        && locked == old(locked) && holders == old(holders)[m := left + multiset{w.client}]
        && queue == old(queue)[m := old(queue)[m][1..]] && free == old(free) + [w.node]
        && replies == old(replies) + [Reply(w.tag, Success, 0), Reply(tag, Success, 0)]
      else
        && locked == old(locked)[m := false] && holders == old(holders)[m := left]
        && queue == old(queue) && free == old(free) && replies == old(replies) + [Reply(tag, Success, 0)]
    }

    twostate predicate Waiting(s: nat, tag: Word, client: Word)
      requires old(Shaped()) && s < SEMS
      reads this
    {
      && if old(value)[s] > 0 then
          && value == old(value)[s := old(value)[s] - 1] && taken == old(taken)[s := old(taken)[s] + 1]
          && queue == old(queue) && free == old(free) && replies == old(replies) + [Reply(tag, Success, 0)]
        else if old(free) != [] then
          && value == old(value) && taken == old(taken) && replies == old(replies) && free == old(free)[1..]
          && queue == old(queue)[LOCKS + s := old(queue)[LOCKS + s] + [Waiter(old(free)[0], tag, client)]]
        else
          && value == old(value) && taken == old(taken) && queue == old(queue) && free == old(free)
          && replies == old(replies) + [Reply(tag, NoResource, 0)]
    }

    twostate predicate TryWaiting(s: nat, tag: Word)
      requires old(Shaped()) && s < SEMS
      reads this
    {
      && queue == old(queue) && free == old(free)
      && if old(value)[s] > 0 then
          && value == old(value)[s := old(value)[s] - 1] && taken == old(taken)[s := old(taken)[s] + 1]
          && replies == old(replies) + [Reply(tag, Success, 0)]
        else value == old(value) && taken == old(taken) && replies == old(replies) + [Reply(tag, TryWaitFail, 0)]
    }

    /** The oldest waiter is served, or the value goes up. */
    twostate predicate Posting(s: nat, tag: Word)
      requires old(Shaped()) && s < SEMS
      reads this
    {
      && posts == old(posts)[s := old(posts)[s] + 1]
      && if old(queue)[LOCKS + s] != [] then
          var w := old(queue)[LOCKS + s][0];
          && value == old(value) && taken == old(taken)[s := old(taken)[s] + 1]
          && queue == old(queue)[LOCKS + s := old(queue)[LOCKS + s][1..]] && free == old(free) + [w.node]
          && replies == old(replies) + [Reply(w.tag, Success, old(value)[s]), Reply(tag, Success, 0)]
        else
          && value == old(value)[s := old(value)[s] + 1] && taken == old(taken)
          && queue == old(queue) && free == old(free) && replies == old(replies) + [Reply(tag, Success, 0)]
    }

    /** What only the semaphores, or only the mutexes, have to do with. */
    twostate predicate MutexesAlone()
      reads this
    {
      locked == old(locked) && holders == old(holders) && disciplined == old(disciplined)
    }

    twostate predicate SemsAlone()
      reads this
    {
      value == old(value) && posts == old(posts) && taken == old(taken)
    }

    /** mutex_server_lock */
    method Lock(m: nat, tag: Word, client: Word)
      requires Valid() && m < LOCKS
      modifies `locked, `holders, `disciplined, `queue, `free, `arrived, `replies, `asked
      ensures Valid() && asked == old(asked) + multiset{tag}
      ensures Locking(m, tag, client) && disciplined == old(disciplined)
    {
      hide Inv;
      Known(multiset{});
      Receive(tag);
      if !locked[m] {
        SetMutex(m, true, holders[m] + multiset{client}, disciplined[m], multiset{tag});
        Finish(tag, Success, 0);
      } else {
        var ok := WaitForMutex(m, tag, client);
        if !ok {
          Finish(tag, NoResource, 0);
        }
      }
    }

    /** mutex_server_trylock */
    method TryLock(m: nat, tag: Word, client: Word)
      requires Valid() && m < LOCKS
      modifies `locked, `holders, `disciplined, `replies, `asked
      ensures Valid() && asked == old(asked) + multiset{tag}
      ensures TryLocking(m, tag, client) && disciplined == old(disciplined)
    {
      hide Inv;
      Known(multiset{});
      Receive(tag);
      if !locked[m] {
        SetMutex(m, true, holders[m] + multiset{client}, disciplined[m], multiset{tag});
        Finish(tag, Success, 0);
      } else {
        assert locked[m := true] == locked;
        Finish(tag, LockFail, 0);
      }
    }

    /** mutex_server_unlock: the oldest waiter has the mutex next, or nobody has it. */
    method Unlock(m: nat, tag: Word, client: Word)
      requires Valid() && m < LOCKS
      modifies `locked, `holders, `disciplined, `queue, `free, `served, `replies, `asked
      ensures Valid() && asked == old(asked) + multiset{tag}
      ensures Unlocking(m, tag, client)
    {
      hide Inv;
      Known(multiset{});
      Receive(tag);
      ghost var h, d := holders[m] - multiset{client}, disciplined[m] && client in holders[m];
      if queue[m] != [] {
        var w := ServeFirst(m, 0, multiset{tag});
        SetMutex(m, locked[m], h + multiset{w.client}, d, multiset{tag});
        assert locked == old(locked);
      } else {
        SetMutex(m, false, h, d, multiset{tag});
      }
      Finish(tag, Success, 0);
    }

    /** sem_server_wait */
    method Wait(s: nat, tag: Word, client: Word)
      requires Valid() && s < SEMS
      modifies `value, `posts, `taken, `queue, `free, `arrived, `replies, `asked
      ensures Valid() && asked == old(asked) + multiset{tag}
      ensures Waiting(s, tag, client) && posts == old(posts)
    {
      hide Inv;
      Known(multiset{});
      Receive(tag);
      if value[s] > 0 {
        SetSem(s, value[s] - 1, posts[s], taken[s] + 1, multiset{tag});
        assert posts == old(posts);
        Finish(tag, Success, 0);
      } else {
        var ok := WaitForSem(s, tag, client);
        if !ok {
          Finish(tag, NoResource, 0);
        }
      }
    }

    /** sem_server_trywait */
    method TryWait(s: nat, tag: Word)
      requires Valid() && s < SEMS
      modifies `value, `posts, `taken, `replies, `asked
      ensures Valid() && asked == old(asked) + multiset{tag}
      ensures TryWaiting(s, tag) && posts == old(posts)
    {
      hide Inv;
      Known(multiset{});
      Receive(tag);
      if value[s] > 0 {
        SetSem(s, value[s] - 1, posts[s], taken[s] + 1, multiset{tag});
        assert posts == old(posts);
        Finish(tag, Success, 0);
      } else {
        Finish(tag, TryWaitFail, 0);
      }
    }

    /** sem_server_post: the oldest waiter is served, or the value goes up. */
    method Post(s: nat, tag: Word)
      requires Valid() && s < SEMS
      modifies `value, `posts, `taken, `queue, `free, `served, `replies, `asked
      ensures Valid() && asked == old(asked) + multiset{tag}
      ensures Posting(s, tag)
    {
      hide Inv;
      Known(multiset{});
      Receive(tag);
      if queue[LOCKS + s] != [] {
        var w := ServeFirst(LOCKS + s, value[s], multiset{tag});
        SetSem(s, value[s], posts[s] + 1, taken[s] + 1, multiset{tag});
        assert value == old(value);
      } else {
        SetSem(s, value[s] + 1, posts[s] + 1, taken[s], multiset{tag});
        assert taken == old(taken);
      }
      Finish(tag, Success, 0);
    }

    /** sem_server_getvalue */
    method GetValue(s: nat, tag: Word)
      requires Valid() && s < SEMS
      modifies `replies, `asked
      ensures Valid() && asked == old(asked) + multiset{tag}
      ensures |old(value)| == SEMS && replies == old(replies) + [Reply(tag, Success, old(value)[s])]
    {
      hide Inv;
      Known(multiset{});
      Receive(tag);
      Finish(tag, Success, value[s]);
    }

    method Refuse(tag: Word, code: Code)
      requires Valid()
      modifies `asked, `replies
      ensures Valid() && asked == old(asked) + multiset{tag} && replies == old(replies) + [Reply(tag, code, 0)]
    {
      hide Inv;
      Receive(tag);
      Finish(tag, code, 0);
    }

    /** The reply to a request that is not let through. */
    ghost predicate Rejects(r: Request)
      requires |mutexToken| == LOCKS && |semToken| == SEMS
      reads this
    {
      r.id >= 16 || r.token != if r.op in {Op.Lock, Op.TryLock, Op.Unlock, Op.OtherMutexOp} then mutexToken[r.id] else semToken[r.id]
    }

    /** process_mutex and process_sem, for the commands on acquired objects. */
    method Process(r: Request, tag: Word, client: Word)
      requires Valid()
      modifies `locked, `holders, `disciplined, `value, `posts, `taken, `queue, `free, `arrived, `served, `replies, `asked
      ensures Valid() && asked == old(asked) + multiset{tag}
      ensures old(Shaped())
      ensures old(Rejects(r)) ==>
        && replies == old(replies) + [Reply(tag, if r.id >= 16 then InvalidId else InvalidToken, 0)]
        && queue == old(queue) && free == old(free) && MutexesAlone() && SemsAlone()
      ensures !old(Rejects(r)) ==>
        match r.op {
          case Lock => Locking(r.id, tag, client) && SemsAlone() && disciplined == old(disciplined)
          case TryLock => TryLocking(r.id, tag, client) && SemsAlone() && disciplined == old(disciplined)
          case Unlock => Unlocking(r.id, tag, client) && SemsAlone()
          case Wait => Waiting(r.id, tag, client) && MutexesAlone() && posts == old(posts)
          case TryWait => TryWaiting(r.id, tag) && MutexesAlone() && posts == old(posts)
          case Post => Posting(r.id, tag) && MutexesAlone()
          case GetValue =>
            && replies == old(replies) + [Reply(tag, Success, old(value)[r.id])]
            && queue == old(queue) && free == old(free) && MutexesAlone() && SemsAlone()
          case _ =>
            && replies == old(replies) + [Reply(tag, InvalidOp, 0)]
            && queue == old(queue) && free == old(free) && MutexesAlone() && SemsAlone()
        }
    {
      hide Inv, MutexOk, SemOk, Locking, TryLocking, Unlocking, Waiting, TryWaiting, Posting;
      Known(multiset{});
      if r.id >= 16 {
        Refuse(tag, InvalidId);
      } else if r.token != (if IsMutex(r.op) then mutexToken[r.id] else semToken[r.id]) {
        Refuse(tag, InvalidToken);
      } else {
        match r.op {
          case Lock => Lock(r.id, tag, client);
          case TryLock => TryLock(r.id, tag, client);
          case Unlock => Unlock(r.id, tag, client);
          case Wait => Wait(r.id, tag, client);
          case TryWait => TryWait(r.id, tag);
          case Post => Post(r.id, tag);
          case GetValue => GetValue(r.id, tag);
          case _ => Refuse(tag, InvalidOp);
        }
      }
    }

    /** What holds between requests: an unlocked mutex has no waiters, and one that only holders
        unlocked has one holder exactly when it is locked; the semaphores add up and make no one
        wait needlessly; every queue is served in the order of arrival; no node is lost; every
        request is answered once or still waits. */
    lemma Meaning()
      requires Valid()
      ensures Shaped() && forall m :: 0 <= m < LOCKS ==>
        && (!locked[m] ==> queue[m] == [])
        && (disciplined[m] ==> |holders[m]| == if locked[m] then 1 else 0)
      ensures forall s :: 0 <= s < SEMS ==>
        && initial[s] + posts[s] == value[s] + taken[s]
        && (initial[s] >= 0 ==> value[s] >= 0 && (queue[LOCKS + s] != [] ==> value[s] == 0))
      ensures forall q :: 0 <= q < QUEUES ==> served[q] + Tags(queue[q]) == arrived[q]
      ensures multiset(free) + AllNodes(queue) == multiset(seq(PENDING, i => i))
      ensures asked == Answered(replies) + AllTags(queue)
    {
      hide Answered, AllTags, AllNodes, Tags;
      Known(multiset{});
    }

    /** Every run of requests keeps all that, and each request of it is answered or waits. */
    method Run(requests: seq<(Request, Word, Word)>)
      requires Valid()
      modifies `locked, `holders, `disciplined, `value, `posts, `taken, `queue, `free, `arrived, `served, `replies, `asked
      ensures Valid() && old(asked) + Incoming(requests) == Answered(replies) + AllTags(queue)
    {
      hide Inv, Answered, AllTags, Locking, TryLocking, Unlocking, Waiting, TryWaiting, Posting;
      for i := 0 to |requests|
        invariant Valid() && asked == old(asked) + Incoming(requests[..i])
      {
        IncomingNext(requests, i);
        Process(requests[i].0, requests[i].1, requests[i].2);
      }
      assert requests[..|requests|] == requests;
      Meaning();
    }
  }

  /** The tags of the requests a run brings in. */
  ghost function Incoming(requests: seq<(Request, Word, Word)>): multiset<Word> {
    if requests == [] then multiset{}
    else Incoming(requests[..|requests| - 1]) + multiset{requests[|requests| - 1].1}
  }

  lemma IncomingNext(requests: seq<(Request, Word, Word)>, i: nat)
    requires i < |requests|
    ensures Incoming(requests[..i + 1]) == Incoming(requests[..i]) + multiset{requests[i].1}
  {
    assert requests[..i + 1][..i] == requests[..i];
  }

  datatype Op = Lock | TryLock | Unlock | OtherMutexOp | Wait | TryWait | Post | GetValue | OtherSemOp
  datatype Request = Request(op: Op, id: nat, token: Word)

  predicate IsMutex(op: Op) { op.Lock? || op.TryLock? || op.Unlock? || op.OtherMutexOp? }

  lemma Move(answered: multiset<Word>, tags: multiset<Word>, extra: multiset<Word>, tag: Word)
    ensures (answered + multiset{tag}) + tags + extra == answered + tags + (extra + multiset{tag})
  {
  }

  lemma Move2(answered: multiset<Word>, tags: multiset<Word>, tags': multiset<Word>, extra: multiset<Word>, tag: Word)
    requires tags == tags' + multiset{tag}
    ensures answered + tags + extra == answered + tags' + (extra + multiset{tag})
  {
  }

  lemma EnqueueKeeps(free: seq<nat>, queue: seq<seq<Waiter>>, q: nat, w: Waiter)
    requires PoolOk(free, queue) && q < |queue| && free != [] && w.node == free[0]
    ensures var queue' := queue[q := queue[q] + [w]];
      && PoolOk(free[1..], queue') && AllTags(queue') == AllTags(queue) + multiset{w.tag}
      && Tags(queue'[q]) == Tags(queue[q]) + [w.tag]
  {
    hide AllTags, AllNodes, Nodes, Tags;
    var queue' := queue[q := queue[q] + [w]];
    NodesSnoc(queue[q], w);
    AllUpdate(queue, q, queue[q] + [w]);
    assert free == [free[0]] + free[1..];
    Cancel(AllNodes(queue'), AllNodes(queue), Nodes(queue[q]), multiset{w.node});
    Cancel(AllTags(queue'), AllTags(queue), multiset(Tags(queue[q])), multiset{w.tag});
    assert multiset(free[1..]) + (AllNodes(queue) + multiset{w.node}) == multiset(free) + AllNodes(queue);
  }

  lemma Cancel<T>(a: multiset<T>, b: multiset<T>, c: multiset<T>, d: multiset<T>)
    requires a + c == b + (c + d)
    ensures a == b + d
  {
    assert a == (a + c) - c;
    assert b + d == (b + (c + d)) - c;
  }

  lemma DequeueKeeps(free: seq<nat>, queue: seq<seq<Waiter>>, q: nat)
    requires PoolOk(free, queue) && q < |queue| && queue[q] != []
    ensures var w, queue' := queue[q][0], queue[q := queue[q][1..]];
      && PoolOk(free + [w.node], queue') && AllTags(queue) == AllTags(queue') + multiset{w.tag}
      && Tags(queue[q]) == [w.tag] + Tags(queue'[q])
  {
    hide AllTags, AllNodes;
    var w, queue' := queue[q][0], queue[q := queue[q][1..]];
    AllUpdate(queue, q, queue[q][1..]);
    TagsFirst(queue[q]);
    hide Nodes, Tags;
    Cancel(AllNodes(queue), AllNodes(queue'), Nodes(queue[q][1..]), multiset{w.node});
    Cancel(AllTags(queue), AllTags(queue'), multiset(Tags(queue[q][1..])), multiset{w.tag});
    assert multiset(free + [w.node]) + AllNodes(queue') == multiset(free) + (AllNodes(queue') + multiset{w.node});
  }

  lemma TagsFirst(q: seq<Waiter>)
    requires q != []
    ensures Tags(q) == [q[0].tag] + Tags(q[1..]) && multiset(Tags(q)) == multiset(Tags(q[1..])) + multiset{q[0].tag}
    ensures Nodes(q) == Nodes(q[1..]) + multiset{q[0].node}
  {
  }

  lemma {:induction false} AllEmpty(qs: seq<seq<Waiter>>)
    requires forall i :: 0 <= i < |qs| ==> qs[i] == []
    ensures AllNodes(qs) == multiset{} && AllTags(qs) == multiset{}
  {
    if qs != [] {
      AllEmpty(qs[..|qs| - 1]);
    }
  }
}
