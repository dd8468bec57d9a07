/** What a turn of run() meets from outside, and what is told of it afterwards: the steps that were made, the
    jobs still queued, and the bodies of the coroutines created, all in order. */
module Turns {
  import opened Bytes
  import opened TimerHeap
  import opened Machine
  import opened Scheduling
  import opened Schedulers

  /** A scheduler call in the body of a coroutine. */
  datatype CoCall<T> =
    | DoCreate(f: Job) | DoYield | DoWait(fd: Fd) | DoSleep(ms: int, now: int) | DoSend(ch: ChId, val: T) | DoRecv(ch: ChId)

  function OpOf<T>(c: CoCall<T>): Op<T> {
    match c
    case DoCreate(_) => OpCreate
    case DoYield => OpYield
    case DoWait(fd) => OpWait(fd)
    case DoSleep(ms, now) => OpSleep(ms, now)
    case DoSend(ch, val) => OpSend(ch, val)
    case DoRecv(ch) => OpRecv(ch)
  }

  /** What happens while a coroutine runs: it makes a call, or somebody, on any thread, posts a job. */
  datatype Moment<T> = Calls(c: CoCall<T>) | Posts(f: Job)

  /** What one turn of the loop meets: the moments of each coroutine dispatched in phase 1, the clock in
      phases 2 and 3 and at the end, the fds active when epoll_wait returns, in the kernel's order, and the
      jobs posted before (`posted`) and after that (`late`). */
  datatype Turn<T> = Turn(slices: seq<seq<Moment<T>>>, now2: int, now3: int, posted: seq<Job>, active: seq<Fd>, late: seq<Job>, now4: int)

  /** How much of a slice the dispatched coroutine made before it parked, or that its body ended. */
  datatype Part = Part(made: nat, ended: bool)

  /** The parts made in phase 1, the timers fired in phase 2, what epoll_wait reported if it was reached, and
      the timers fired at the end. */
  datatype Trace = Trace(parts: seq<Part>, first: seq<TimerEntry>, polled: Option<seq<Fd>>, last: seq<TimerEntry>)

  /** `history` lists the steps of the machine; coroutine i + 1 runs bodies[i]. */
  datatype Record<T> = Record(history: seq<Op<T>>, queue: seq<Job>, bodies: seq<Job>)

  function Stepped<T>(r: Record<T>, ops: seq<Op<T>>): Record<T> {
    r.(history := r.history + ops)
  }

  function Met<T>(r: Record<T>, m: Moment<T>): Record<T> {
    match m
    case Posts(f) => r.(queue := r.queue + [f])
    case Calls(DoCreate(f)) => Stepped(r, [OpCreate]).(bodies := r.bodies + [f])
    case Calls(c) => Stepped(r, [OpOf(c)])
  }

  function MetAll<T>(r: Record<T>, ms: seq<Moment<T>>): Record<T> {
    if ms == [] then r else Met(MetAll(r, ms[..|ms| - 1]), ms[|ms| - 1])
  }

  /** A coroutine leaves the processor only by a call, or when its body has ended. */
  predicate PartFits<T>(ms: seq<Moment<T>>, p: Part) {
    && p.made <= |ms|
    && if p.ended then p.made == |ms| else p.made > 0 && ms[p.made - 1].Calls?
  }

  function AfterPart<T>(r: Record<T>, ms: seq<Moment<T>>, p: Part): Record<T>
    requires p.made <= |ms|
  {
    Stepped(MetAll(r, ms[..p.made]), if p.ended then [OpFinish, OpReap] else [])
  }

  predicate PartsFit<T>(slices: seq<seq<Moment<T>>>, parts: seq<Part>) {
    |parts| <= |slices| && forall i :: 0 <= i < |parts| ==> PartFits(slices[i], parts[i])
  }

  function AfterParts<T>(r: Record<T>, slices: seq<seq<Moment<T>>>, parts: seq<Part>): Record<T>
    requires PartsFit(slices, parts)
  {
    if parts == [] then r
    else
      var n := |parts| - 1;
      AfterPart(Stepped(AfterParts(r, slices, parts[..n]), [OpDispatch]), slices[n], parts[n])
  }

  /** The jobs that are queued when the events are handled are taken if the pipe is among them. */
  function AfterEvents<T>(r: Record<T>, fds: seq<Fd>, pipe: Fd): Record<T> {
    Record(r.history + EventOps(fds, pipe, |r.queue|), if pipe in fds then [] else r.queue, if pipe in fds then r.bodies + r.queue else r.bodies)
  }

  function AfterPoll<T>(r: Record<T>, t: Turn<T>, fds: seq<Fd>, pipe: Fd): Record<T> {
    AfterEvents(Record(r.history + [OpPoll(fds)], r.queue + t.posted + t.late, r.bodies), fds, pipe)
  }

  /** epoll_wait is skipped if and only if phase 2 has woken somebody. */
  predicate TraceFits<T>(t: Turn<T>, tr: Trace) {
    PartsFit(t.slices, tr.parts) && (tr.polled == None <==> tr.first != []) && (tr.polled == None ==> tr.last == [])
  }

  /** Phases 2 to 4. */
  function AfterRest<T>(r: Record<T>, t: Turn<T>, tr: Trace, pipe: Fd): Record<T> {
    var r1 := Stepped(r, [OpFire(t.now2, tr.first)]);
    match tr.polled
    case None => r1
    case Some(fds) => Stepped(AfterPoll(r1, t, fds, pipe), [OpFire(t.now4, tr.last)])
  }

  function AfterTurn<T>(r: Record<T>, t: Turn<T>, tr: Trace, pipe: Fd): Record<T>
    requires TraceFits(t, tr)
  {
    AfterRest(AfterParts(r, t.slices, tr.parts), t, tr, pipe)
  }

  predicate TracesFit<T>(turns: seq<Turn<T>>, traces: seq<Trace>) {
    |traces| <= |turns| && forall i :: 0 <= i < |traces| ==> TraceFits(turns[i], traces[i])
  }

  function AfterTurns<T>(r: Record<T>, turns: seq<Turn<T>>, traces: seq<Trace>, pipe: Fd): Record<T>
    requires TracesFit(turns, traces)
  {
    if traces == [] then r
    else
      var n := |traces| - 1;
      AfterTurn(AfterTurns(r, turns, traces[..n], pipe), turns[n], traces[n], pipe)
  }

  lemma OneMoreMoment<T>(r: Record<T>, ms: seq<Moment<T>>, i: nat)
    requires i < |ms|
    ensures MetAll(r, ms[..i + 1]) == Met(MetAll(r, ms[..i]), ms[i])
  {
    assert ms[..i + 1][..i] == ms[..i];
  }

  lemma OneMorePart<T>(r: Record<T>, slices: seq<seq<Moment<T>>>, parts: seq<Part>, p: Part)
    requires PartsFit(slices, parts) && |parts| < |slices| && PartFits(slices[|parts|], p)
    ensures PartsFit(slices, parts + [p])
    ensures AfterParts(r, slices, parts + [p]) == AfterPart(Stepped(AfterParts(r, slices, parts), [OpDispatch]), slices[|parts|], p)
  {
    assert (parts + [p])[..|parts|] == parts;
  }

  lemma OneMoreTurn<T>(r: Record<T>, turns: seq<Turn<T>>, traces: seq<Trace>, tr: Trace, pipe: Fd)
    requires TracesFit(turns, traces) && |traces| < |turns| && TraceFits(turns[|traces|], tr)
    ensures TracesFit(turns, traces + [tr])
    ensures AfterTurns(r, turns, traces + [tr], pipe) == AfterTurn(AfterTurns(r, turns, traces, pipe), turns[|traces|], tr, pipe)
  {
    assert (traces + [tr])[..|traces|] == traces;
  }

  // ----- what a record tells -----

  /** A call in a slice is one step, behind those of what came before it and ahead of those of what follows; the
      coroutine it creates, if any, is the next, and no job is queued by it. */
  lemma {:induction false} CallIsTold<T>(r: Record<T>, before: seq<Moment<T>>, c: CoCall<T>, after: seq<Moment<T>>)
    ensures var r1, rest := MetAll(r, before), MetAll(Record([], [], []), after);
            MetAll(r, before + [Calls(c)] + after)
            == Record(r1.history + [OpOf(c)] + rest.history, r1.queue + rest.queue,
                      r1.bodies + (if c.DoCreate? then [c.f] else []) + rest.bodies)
  {
    MetJoins(r, before + [Calls(c)], after);
    assert (before + [Calls(c)])[..|before|] == before;
  }

  /** A job posted during a slice is queued behind all others, and is no step. */
  lemma {:induction false} PostIsTold<T>(r: Record<T>, before: seq<Moment<T>>, f: Job, after: seq<Moment<T>>)
    ensures var r1, rest := MetAll(r, before), MetAll(Record([], [], []), after);
            MetAll(r, before + [Posts(f)] + after)
            == Record(r1.history + rest.history, r1.queue + [f] + rest.queue, r1.bodies + rest.bodies)
  {
    MetJoins(r, before + [Posts(f)], after);
    assert (before + [Posts(f)])[..|before|] == before;
  }

  function Behind<T>(r: Record<T>, r1: Record<T>): Record<T> {
    Record(r.history + r1.history, r.queue + r1.queue, r.bodies + r1.bodies)
  }

  lemma {:induction false} MetJoins<T>(r: Record<T>, a: seq<Moment<T>>, b: seq<Moment<T>>)
    ensures MetAll(r, a + b) == Behind(MetAll(r, a), MetAll(Record([], [], []), b))
  {
    if b == [] {
      assert a + b == a;
    } else {
      var n := |b| - 1;
      MetJoins(r, a, b[..n]);
      assert (a + b)[..|a| + n] == a + b[..n] && (a + b)[|a| + n] == b[n];
      MetBehind(MetAll(r, a), MetAll(Record([], [], []), b[..n]), b[n]);
    }
  }

  lemma MetBehind<T>(r: Record<T>, r1: Record<T>, m: Moment<T>)
    ensures Met(Behind(r, r1), m) == Behind(r, Met(r1, m))
  {
  }

  /** The first slice is that of the first coroutine dispatched, and the others follow. */
  lemma {:induction false} FirstPartFirst<T>(r: Record<T>, slices: seq<seq<Moment<T>>>, parts: seq<Part>)
    requires PartsFit(slices, parts) && parts != []
    ensures var p := parts[0];
            var r1 := MetAll(r.(history := r.history + [OpDispatch]), slices[0][..p.made]);
            && PartsFit(slices[1..], parts[1..])
            && AfterParts(r, slices, parts)
               == AfterParts(r1.(history := r1.history + if p.ended then [OpFinish, OpReap] else []), slices[1..], parts[1..])
  {
    var n := |parts| - 1;
    assert PartsFit(slices[1..], parts[1..]);
    if n > 0 {
      FirstPartFirst(r, slices, parts[..n]);
      assert parts[..n][1..] == parts[1..][..n - 1];
    }
  }

  /** So is the first turn. */
  lemma {:induction false} FirstTurnFirst<T>(r: Record<T>, turns: seq<Turn<T>>, traces: seq<Trace>, pipe: Fd)
    requires TracesFit(turns, traces) && traces != []
    ensures TracesFit(turns[1..], traces[1..])
    ensures AfterTurns(r, turns, traces, pipe) == AfterTurns(AfterTurn(r, turns[0], traces[0], pipe), turns[1..], traces[1..], pipe)
  {
    var n := |traces| - 1;
    assert TracesFit(turns[1..], traces[1..]);
    if n > 0 {
      FirstTurnFirst(r, turns, traces[..n], pipe);
      assert traces[..n][1..] == traces[1..][..n - 1];
      assert turns[1..][n - 1] == turns[n] && traces[1..][n - 1] == traces[n];
    }
  }
}
