/** Posting jobs to a scheduler from other threads: any number of posters interleaved with the loop.
    A poster pushes under the mutex and then writes one byte to a non-blocking pipe; on a pipe event the
    loop reads the pipe empty and only then swaps the queue out. */
module PostProtocol {

  type Poster = nat

  /** The k-th job that a poster posts. */
  datatype Job = Job(poster: Poster, k: nat)

  /** Where the loop is: anywhere else, reading the pipe, past the read that found it empty, or creating
      coroutines from the swapped-out batch. */
  datatype Loop = Elsewhere | Emptying | AboutToSwap | Creating

  /** `next[p]` counts the jobs of p pushed so far; `writing` are the posters between push and write. */
  datatype State = State(
    next: map<Poster, nat>, writing: set<Poster>, queue: seq<Job>, pipe: nat, capacity: nat,
    loop: Loop, batch: seq<Job>, created: seq<Job>, pushed: seq<Job>)

  datatype Op = Push(p: Poster) | Write(p: Poster) | PipeEvent | Read | Swap | CreateNext | BatchDone

  function Next(s: State, p: Poster): nat {
    if p in s.next then s.next[p] else 0
  }

  function Min(a: nat, b: nat): nat { if a < b then a else b }

  predicate Enabled(s: State, op: Op) {
    match op
    case Push(p) => p !in s.writing
    case Write(p) => p in s.writing
    case PipeEvent => s.loop == Elsewhere && s.pipe > 0
    case Read => s.loop == Emptying
    case Swap => s.loop == AboutToSwap
    case CreateNext => s.loop == Creating && s.batch != []
    case BatchDone => s.loop == Creating && s.batch == []
  }

  function Step(s: State, op: Op): State
    requires Enabled(s, op)
  {
    match op
    case Push(p) =>
      var j := Job(p, Next(s, p));
      s.(next := s.next[p := Next(s, p) + 1], writing := s.writing + {p}, queue := s.queue + [j], pushed := s.pushed + [j])
    case Write(p) =>   // fails, without effect, on a full pipe
      s.(writing := s.writing - {p}, pipe := if s.pipe < s.capacity then s.pipe + 1 else s.pipe)
    case PipeEvent => s.(loop := Emptying)
    case Read => if s.pipe > 0 then s.(pipe := s.pipe - Min(64, s.pipe)) else s.(loop := AboutToSwap)
    case Swap => s.(loop := Creating, batch := s.queue, queue := [])
    case CreateNext => s.(created := s.created + [s.batch[0]], batch := s.batch[1..])
    case BatchDone => s.(loop := Elsewhere)
  }

  predicate Possible(s: State, ops: seq<Op>)
    decreases |ops|
  {
    ops != [] ==> Enabled(s, ops[0]) && Possible(Step(s, ops[0]), ops[1..])
  }

  function Run(s: State, ops: seq<Op>): State
    requires Possible(s, ops)
    decreases |ops|
  {
    if ops == [] then s else Run(Step(s, ops[0]), ops[1..])
  }

  function Start(capacity: nat): State {
    State(map[], {}, [], 0, capacity, Elsewhere, [], [], [])
  }

  // ----- the invariant -----

  /** The jobs of one poster, in the order of the list. */
  function OfPoster(jobs: seq<Job>, p: Poster): seq<Job> {
    if jobs == [] then []
    else
      var front := OfPoster(jobs[..|jobs| - 1], p);
      if jobs[|jobs| - 1].poster == p then front + [jobs[|jobs| - 1]] else front
  }

  /** Jobs 0, 1, ..., n - 1 of a poster. */
  function FirstJobs(p: Poster, n: nat): (r: seq<Job>)
    ensures |r| == n && forall i :: 0 <= i < n ==> r[i] == Job(p, i)
  {
    if n == 0 then [] else FirstJobs(p, n - 1) + [Job(p, n - 1)]
  }

  /** Nothing pushed is stranded: somebody will look at the queue. */
  predicate Noticed(s: State) {
    s.queue != [] ==> s.pipe > 0 || s.writing != {} || s.loop == Emptying || s.loop == AboutToSwap
  }

  ghost predicate Inv(s: State) {
    && s.capacity > 0 && s.pipe <= s.capacity
    && s.pushed == s.created + s.batch + s.queue
    && (forall p :: OfPoster(s.pushed, p) == FirstJobs(p, Next(s, p)))
    && (s.batch != [] ==> s.loop == Creating)
    && Noticed(s)
  }

  lemma StartHolds(capacity: nat)
    requires capacity > 0
    ensures Inv(Start(capacity))
  {
  }

  lemma PushHolds(s: State, p: Poster)
    requires Inv(s) && Enabled(s, Push(p))
    ensures Inv(Step(s, Push(p)))
  {
    var s' := Step(s, Push(p));
    assert s'.pushed[..|s'.pushed| - 1] == s.pushed;
    forall q ensures OfPoster(s'.pushed, q) == FirstJobs(q, Next(s', q)) {
      assert OfPoster(s.pushed, q) == FirstJobs(q, Next(s, q));
    }
  }

  lemma StepHolds(s: State, op: Op)
    requires Inv(s) && Enabled(s, op)
    ensures Inv(Step(s, op))
  {
    match op {
      case Push(p) => PushHolds(s, p);
      case Swap => assert s.created + [] + s.queue == s.created + s.queue + [];
      case CreateNext => assert s.batch == [s.batch[0]] + s.batch[1..];
      case _ =>
    }
    if !op.Push? {
      assert Step(s, op).next == s.next && Step(s, op).pushed == s.pushed;
      assert forall p :: Next(Step(s, op), p) == Next(s, p);
    }
  }

  /** Under every interleaving of any number of posters with the loop. */
  lemma {:induction false} RunHolds(s: State, ops: seq<Op>)
    requires Inv(s) && Possible(s, ops)
    ensures Inv(Run(s, ops))
    decreases |ops|
  {
    if ops != [] {
      StepHolds(s, ops[0]);
      RunHolds(Step(s, ops[0]), ops[1..]);
    }
  }

  // ----- what it means -----

  lemma {:induction false} OfPosterAppend(a: seq<Job>, b: seq<Job>, p: Poster)
    ensures OfPoster(a + b, p) == OfPoster(a, p) + OfPoster(b, p)
  {
    if b == [] {
      assert a + b == a;
    } else {
      var n := |b| - 1;
      assert (a + b)[..|a + b| - 1] == a + b[..n];
      OfPosterAppend(a, b[..n], p);
    }
  }

  lemma {:induction false} CountOfPoster(jobs: seq<Job>, j: Job)
    ensures multiset(jobs)[j] == multiset(OfPoster(jobs, j.poster))[j]
  {
    if jobs != [] {
      var n := |jobs| - 1;
      assert jobs == jobs[..n] + [jobs[n]];
      CountOfPoster(jobs[..n], j);
    }
  }

  lemma {:induction false} CountFirstJobs(p: Poster, n: nat, k: nat)
    ensures multiset(FirstJobs(p, n))[Job(p, k)] == if k < n then 1 else 0
  {
    if n > 0 {
      CountFirstJobs(p, n - 1, k);
    }
  }

  /** A job that was posted is in the queue, in the batch or created, once in all; no other job is anywhere. */
  lemma ExactlyOnce(capacity: nat, ops: seq<Op>, j: Job)
    requires capacity > 0 && Possible(Start(capacity), ops)
    ensures var s := Run(Start(capacity), ops);
            multiset(s.queue)[j] + multiset(s.batch)[j] + multiset(s.created)[j] == if j.k < Next(s, j.poster) then 1 else 0
  {
    StartHolds(capacity);
    RunHolds(Start(capacity), ops);
    var s := Run(Start(capacity), ops);
    assert multiset(s.pushed) == multiset(s.created) + multiset(s.batch) + multiset(s.queue);
    CountOfPoster(s.pushed, j);
    CountFirstJobs(j.poster, Next(s, j.poster), j.k);
  }

  /** Each poster's jobs are created in the order in which it posted them, without a gap. */
  lemma InPosterOrder(capacity: nat, ops: seq<Op>, p: Poster)
    requires capacity > 0 && Possible(Start(capacity), ops)
    ensures var s := Run(Start(capacity), ops);
            OfPoster(s.created, p) <= FirstJobs(p, Next(s, p))
    ensures var s := Run(Start(capacity), ops);
            s.created <= s.pushed
  {
    StartHolds(capacity);
    RunHolds(Start(capacity), ops);
    var s := Run(Start(capacity), ops);
    assert s.pushed == s.created + (s.batch + s.queue);
    OfPosterAppend(s.created, s.batch + s.queue, p);
  }

  /** A queued job never waits for another post: with no poster in the middle of a post and the loop not
      already on its way to the swap, the pipe is readable and epoll_wait reports it. */
  lemma NeverStranded(capacity: nat, ops: seq<Op>)
    requires capacity > 0 && Possible(Start(capacity), ops)
    ensures var s := Run(Start(capacity), ops);
            s.queue != [] && s.writing == {} && s.loop == Elsewhere ==> Enabled(s, PipeEvent)
  {
    StartHolds(capacity);
    RunHolds(Start(capacity), ops);
  }

  // ----- the loop on its own catches up -----

  predicate LoopOnly(ops: seq<Op>) {
    forall i :: 0 <= i < |ops| ==> !ops[i].Push? && !ops[i].Write?
  }

  /** How many passes and steps the loop still needs. */
  function Work(s: State): (nat, nat, nat) {
    (if s.queue != [] then 1 else 0,
     match s.loop case Elsewhere => 3 case Emptying => 2 case AboutToSwap => 1 case Creating => 4,
     s.pipe + |s.batch|)
  }

  function NextLoopOp(s: State): Op {
    match s.loop
    case Elsewhere => PipeEvent
    case Emptying => Read
    case AboutToSwap => Swap
    case Creating => if s.batch == [] then BatchDone else CreateNext
  }

  /** Once no poster is in the middle of a post, the loop alone turns everything posted into coroutines. */
  lemma {:induction false} CatchesUp(s: State) returns (ops: seq<Op>)
    requires Inv(s) && s.writing == {}
    ensures LoopOnly(ops) && Possible(s, ops)
    ensures Run(s, ops).created == s.pushed && Run(s, ops).queue == [] && Run(s, ops).batch == []
    decreases Work(s).0, Work(s).1, Work(s).2
  {
    if s.queue == [] && s.batch == [] {
      ops := [];
    } else {
      var op := NextLoopOp(s);
      StepHolds(s, op);
      var rest := CatchesUp(Step(s, op));
      ops := [op] + rest;
      assert ops[1..] == rest;
    }
  }

  // ----- posts and drains as the loop's thread sees them -----

  /** After an undisturbed post: the job is queued and the pipe readable, even if it was full. */
  function Posted(s: State, p: Poster): State
    requires Enabled(s, Push(p))
  {
    Step(Step(s, Push(p)), Write(p))
  }

  /** After an undisturbed pipe event: the pipe is empty and the whole queue has become coroutines, in order. */
  function Drained(s: State): State {
    s.(pipe := 0, queue := [], created := s.created + s.queue)
  }

  lemma PostIsRun(s: State, p: Poster)
    requires Enabled(s, Push(p)) && s.pipe <= s.capacity
    ensures Possible(s, [Push(p), Write(p)]) && Run(s, [Push(p), Write(p)]) == Posted(s, p)
    ensures var s', j := Posted(s, p), Job(p, Next(s, p));
            && s'.queue == s.queue + [j] && s'.pushed == s.pushed + [j] && s'.loop == s.loop && s'.batch == s.batch
            && s'.pipe == Min(s.pipe + 1, s.capacity) && s'.capacity == s.capacity && s'.writing == s.writing
  {
    var rest: seq<Op> := [Write(p)];
    var ops: seq<Op> := [Push(p), Write(p)];
    var s1 := Step(s, Push(p));
    var s2 := Step(s1, Write(p));
    assert ops[1..] == rest && rest[1..] == [];
    assert Run(s2, []) == s2 && Run(s1, rest) == s2 && Run(s, ops) == s2;
    assert s2.writing == s.writing;
  }

  lemma {:induction false} ReadsAreRun(s: State) returns (ops: seq<Op>)
    requires s.loop == Emptying
    ensures LoopOnly(ops) && Possible(s, ops) && Run(s, ops) == s.(pipe := 0, loop := AboutToSwap)
    decreases s.pipe
  {
    var s1 := Step(s, Read);
    var rest: seq<Op> := [];
    if s.pipe > 0 {
      rest := ReadsAreRun(s1);
    }
    ops := [Read] + rest;
    assert ops[1..] == rest;
  }

  lemma {:induction false} CreatesAreRun(s: State) returns (ops: seq<Op>)
    requires s.loop == Creating
    ensures LoopOnly(ops) && Possible(s, ops)
    ensures Run(s, ops) == s.(created := s.created + s.batch, batch := [], loop := Elsewhere)
    decreases |s.batch|
  {
    var op := NextLoopOp(s);
    var s1 := Step(s, op);
    var rest: seq<Op> := [];
    if s.batch != [] {
      rest := CreatesAreRun(s1);
      assert s.batch == [s.batch[0]] + s1.batch;
      assert s.created + ([s.batch[0]] + s1.batch) == s1.created + s1.batch;
    } else {
      assert s.created + s.batch == s.created;
    }
    ops := [op] + rest;
    assert ops[1..] == rest;
  }

  lemma {:induction false} RunsCompose(s: State, a: seq<Op>, b: seq<Op>)
    requires Possible(s, a) && Possible(Run(s, a), b)
    ensures Possible(s, a + b) && Run(s, a + b) == Run(Run(s, a), b)
    decreases |a|
  {
    if a == [] {
      assert a + b == b;
    } else {
      assert (a + b)[1..] == a[1..] + b;
      RunsCompose(Step(s, a[0]), a[1..], b);
    }
  }

  lemma DrainIsRun(s: State) returns (ops: seq<Op>)
    requires Enabled(s, PipeEvent) && s.batch == []
    ensures LoopOnly(ops) && Possible(s, ops)
    ensures Run(s, ops) == Drained(s)
  {
    var first: seq<Op> := [PipeEvent];
    var swap: seq<Op> := [Swap];
    assert first[1..] == [] && swap[1..] == [];
    var s1 := Step(s, PipeEvent);
    var emptying := ReadsAreRun(s1);
    var s2 := Run(s1, emptying);
    var s3 := Step(s2, Swap);
    var creates := CreatesAreRun(s3);
    RunsCompose(s2, swap, creates);
    RunsCompose(s1, emptying, swap + creates);
    RunsCompose(s, first, emptying + (swap + creates));
    ops := first + (emptying + (swap + creates));
  }
}
