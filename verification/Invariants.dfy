/** The global invariant of a scheduler thread and its preservation by every step. */
module Invariants {
  import opened Bytes
  import opened TimerHeap
  import opened Machine

  // ----- ownership and tags -----

  predicate Is(s: Sched, c: CoId, state: State, at: Call) {
    c in s.coros && s.coros[c] == Coroutine(state, at)
  }

  /** Whoever is held somewhere is alive and tagged for that place. */
  ghost predicate HeldAreTagged<T>(s: Sched, lines: map<ChId, Line<T>>) {
    && (s.running.Some? ==> Is(s, s.running.value, RUNNING, Nowhere) || Is(s, s.running.value, DONE, Nowhere))
    && Distinct(s.ready)
    && (forall c :: c in s.ready ==> c in s.coros && s.coros[c].state == READY)
    && (forall fd :: fd in s.waiting ==> Is(s, s.waiting[fd], WAITING, InWait(fd)))
    && (forall e :: e in s.timers ==> s.timers[e] == 1 && Is(s, e.co, WAITING, InSleep(e.expire)))
    && (forall ch :: ch in lines && lines[ch].chan.sendWaiter.Some? ==> Is(s, lines[ch].chan.sendWaiter.value, WAITING, InSend(ch)))
    && (forall ch :: ch in lines && lines[ch].chan.recvWaiter.Some? ==> Is(s, lines[ch].chan.recvWaiter.value, WAITING, InRecv(ch)))
  }

  predicate ParkedWhereItSays<T>(s: Sched, lines: map<ChId, Line<T>>, c: CoId, at: Call) {
    match at
    case Nowhere => false
    case InYield => false
    case InWait(fd) => fd in s.waiting && s.waiting[fd] == c
    case InSleep(until) => TimerEntry(until, c) in s.timers
    case InSend(ch) => ch in lines && lines[ch].chan.sendWaiter == Some(c)
    case InRecv(ch) => ch in lines && lines[ch].chan.recvWaiter == Some(c)
  }

  /** Whoever is alive is held in the place its tag names. */
  ghost predicate TaggedAreHeld<T>(s: Sched, lines: map<ChId, Line<T>>) {
    forall c :: c in s.coros ==>
      match s.coros[c].state
      case READY => c in s.ready
      case WAITING => ParkedWhereItSays(s, lines, c, s.coros[c].at)
      case _ => s.running == Some(c)
  }

  /** Pointers are never reused, and each created coroutine is either alive or was deleted exactly once. */
  ghost predicate Accounted(s: Sched, reaped: seq<CoId>) {
    && s.nextId >= 1 && Distinct(reaped)
    && (forall c :: c in s.coros ==> 1 <= c < s.nextId && c !in reaped)
    && (forall c :: c in reaped ==> 1 <= c < s.nextId)
    && (forall c :: 1 <= c < s.nextId ==> c in s.coros || c in reaped)
  }

  // ----- epoll -----

  /** The coroutine was woken and has not yet been resumed. */
  predicate Woken(s: Sched, fd: Fd) {
    exists c :: c in s.coros && s.coros[c] == Coroutine(READY, InWait(fd))
  }

  ghost predicate Registered(s: Sched) {
    && s.pipe in s.epoll && s.pipe !in s.waiting
    && (forall fd :: fd in s.epoll ==> fd == s.pipe || fd in s.waiting || Woken(s, fd))
    && (forall c :: c in s.coros && s.coros[c].at.InWait? ==> s.coros[c].at.fd in s.epoll && s.coros[c].at.fd != s.pipe)
    && (forall c, d :: c in s.coros && d in s.coros && s.coros[c].at.InWait? && s.coros[c].at == s.coros[d].at ==> c == d)
    && (forall fd :: fd in s.epoll && s.epoll[fd] ==> fd == s.pipe || fd in s.waiting)
    && (forall fd :: fd in s.waiting ==> fd in s.epoll && (s.epoll[fd] <==> fd !in s.evs))
    && Distinct(s.evs)
    && (forall fd :: fd in s.evs ==> fd == s.pipe || fd in s.waiting)
  }

  // ----- channels -----

  /** Holds without any discipline. */
  predicate Shape<T>(ch: Chan<T>) {
    && !(ch.sendWaiter.Some? && ch.recvWaiter.Some?)
    && ch.recvSlot == ch.recvWaiter
    && (ch.sendWaiter.Some? <==> ch.sendVal.Some?)
  }

  function Parked<T>(ch: Chan<T>): seq<T> {
    if ch.sendVal.Some? then [ch.sendVal.value] else []
  }

  /** Every value sent was handed over exactly once and in order, but for the one a parked sender holds. */
  ghost predicate InOrder<T>(l: Line<T>) {
    l.sent == l.handed + Parked(l.chan)
  }

  ghost predicate Shapes<T>(lines: map<ChId, Line<T>>) {
    forall ch :: ch in lines ==> Shape(lines[ch].chan)
  }

  ghost predicate AllInOrder<T>(lines: map<ChId, Line<T>>) {
    forall ch :: ch in lines ==> InOrder(lines[ch])
  }

  /** Pointers are handed out in sequence. */
  predicate Numbered(s: Sched) {
    s.nextId >= 1 && forall c :: c in s.coros ==> 1 <= c < s.nextId
  }

  /** What no behaviour of the coroutines can break. */
  ghost predicate Safe<T>(w: World<T>) {
    HeldAreTagged(w.s, w.lines) && Numbered(w.s) && Shapes(w.lines)
  }

  ghost predicate Inv<T>(w: World<T>) {
    Safe(w) && TaggedAreHeld(w.s, w.lines) && Accounted(w.s, w.reaped) && Registered(w.s) && AllInOrder(w.lines)
  }

  lemma StartHolds<T>(pipe: Fd, channels: set<ChId>)
    ensures Inv<T>(Start(pipe, channels))
  {
  }

  // ----- what a step leaves alone -----

  lemma DistinctPush<A>(q: seq<A>, x: A)
    requires Distinct(q) && x !in q
    ensures Distinct(q + [x])
  {
  }

  /** The coroutines inside wait_event are the same, with the same tags. */
  predicate SameWaits(s: Sched, s': Sched) {
    && s'.epoll == s.epoll && s'.waiting == s.waiting && s'.evs == s.evs && s'.pipe == s.pipe
    && (forall c :: c in s.coros && s.coros[c].at.InWait? ==> c in s'.coros && s'.coros[c] == s.coros[c])
    && (forall c :: c in s'.coros && s'.coros[c].at.InWait? ==> c in s.coros && s'.coros[c] == s.coros[c])
  }

  lemma RegisteredFrame(s: Sched, s': Sched)
    requires Registered(s) && SameWaits(s, s')
    ensures Registered(s')
  {
    forall fd | fd in s'.epoll ensures fd == s'.pipe || fd in s'.waiting || Woken(s', fd) {
      if Woken(s, fd) {
        var c :| c in s.coros && s.coros[c] == Coroutine(READY, InWait(fd));
        assert c in s'.coros && s'.coros[c] == s.coros[c];
      }
    }
  }

  lemma AccountedFrame(s: Sched, s': Sched, reaped: seq<CoId>)
    requires Accounted(s, reaped) && s'.coros.Keys == s.coros.Keys && s'.nextId == s.nextId
    ensures Accounted(s', reaped)
  {
    forall c ensures c in s.coros <==> c in s'.coros {
      assert c in s.coros.Keys <==> c in s'.coros.Keys;
    }
  }

  lemma MinusTwice<A>(m: multiset<A>, a: multiset<A>, e: A)
    ensures m - a - multiset{e} == m - (a + multiset{e})
  {
  }

  lemma MultisetOfFront<A>(q: seq<A>)
    requires q != []
    ensures multiset(q) == multiset(q[..|q| - 1]) + multiset{q[|q| - 1]}
  {
    assert q == q[..|q| - 1] + [q[|q| - 1]];
  }

  /** What a batch of expiries does to the heap. */
  lemma {:induction false} FireTimersPops(s: Sched, fired: seq<TimerEntry>)
    ensures FireTimers(s, fired).timers == s.timers - multiset(fired)
  {
    if fired != [] {
      var n := |fired| - 1;
      FireTimersPops(s, fired[..n]);
      MultisetOfFront(fired);
      MinusTwice(s.timers, multiset(fired[..n]), fired[n]);
    }
  }

  /** And to the ready queue. */
  lemma {:induction false} FireTimersQueues(s: Sched, fired: seq<TimerEntry>)
    ensures FireTimers(s, fired).ready == s.ready + Sleepers(fired)
  {
    if fired != [] {
      var n := |fired| - 1;
      FireTimersQueues(s, fired[..n]);
      assert s.ready + (Sleepers(fired[..n]) + [fired[n].co]) == s.ready + Sleepers(fired[..n]) + [fired[n].co];
    }
  }

  // ----- whoever is held is tagged: every step, without any discipline -----

  lemma CreateHeld<T>(s: Sched, lines: map<ChId, Line<T>>)
    requires HeldAreTagged(s, lines) && s.nextId !in s.coros
    ensures HeldAreTagged(Create(s), lines)
  {
    DistinctPush(s.ready, s.nextId);
  }

  lemma {:induction false} CreateManyHeld<T>(s: Sched, lines: map<ChId, Line<T>>, n: nat)
    requires HeldAreTagged(s, lines) && Numbered(s)
    ensures HeldAreTagged(CreateMany(s, n), lines) && Numbered(CreateMany(s, n))
  {
    if n > 0 {
      CreateManyHeld(s, lines, n - 1);
      CreateHeld(CreateMany(s, n - 1), lines);
    }
  }

  lemma YieldHeld<T>(s: Sched, lines: map<ChId, Line<T>>)
    requires HeldAreTagged(s, lines) && InCoroutine(s)
    ensures HeldAreTagged(Yield(s), lines)
  {
    DistinctPush(s.ready, s.running.value);
  }

  lemma WaitHeld<T>(s: Sched, lines: map<ChId, Line<T>>, fd: Fd)
    requires HeldAreTagged(s, lines) && InCoroutine(s)
    ensures HeldAreTagged(WaitEvent(s, fd), lines)
  {
  }

  lemma SleepHeld<T>(s: Sched, lines: map<ChId, Line<T>>, ms: int, now: int)
    requires HeldAreTagged(s, lines) && InCoroutine(s) && ms > 0
    ensures HeldAreTagged(Sleep(s, ms, now), lines)
  {
    assert TimerEntry(now + ms, s.running.value) !in s.timers;
  }

  lemma DispatchHeld<T>(s: Sched, lines: map<ChId, Line<T>>)
    requires HeldAreTagged(s, lines) && s.running == None && s.ready != []
    ensures HeldAreTagged(Dispatch(s), lines)
  {
    assert s.ready == [s.ready[0]] + s.ready[1..];
  }

  lemma FinishHeld<T>(s: Sched, lines: map<ChId, Line<T>>)
    requires HeldAreTagged(s, lines) && InCoroutine(s)
    ensures HeldAreTagged(Finish(s), lines)
  {
  }

  lemma ReapHeld<T>(s: Sched, lines: map<ChId, Line<T>>)
    requires HeldAreTagged(s, lines) && s.running.Some? && s.coros[s.running.value].state == DONE
    ensures HeldAreTagged(Reap(s), lines)
  {
    var s' := Reap(s);
    assert forall c, state, at :: state != DONE && Is(s, c, state, at) ==> Is(s', c, state, at);
  }

  lemma EventHeld<T>(s: Sched, lines: map<ChId, Line<T>>)
    requires HeldAreTagged(s, lines) && s.evs != [] && s.evs[0] != s.pipe
    ensures HeldAreTagged(HandleEvent(s, 0), lines)
  {
    if s.evs[0] in s.waiting {
      DistinctPush(s.ready, s.waiting[s.evs[0]]);
    }
  }

  lemma EvsHeld<T>(s: Sched, lines: map<ChId, Line<T>>, evs: seq<Fd>, epoll: map<Fd, bool>)
    requires HeldAreTagged(s, lines)
    ensures HeldAreTagged(s.(evs := evs, epoll := epoll), lines)
  {
  }

  lemma FireOneHeld<T>(s: Sched, lines: map<ChId, Line<T>>, e: TimerEntry)
    requires HeldAreTagged(s, lines) && e in s.timers
    ensures HeldAreTagged(FireOne(s, e), lines)
  {
    DistinctPush(s.ready, e.co);
  }

  /** The entries of a batch that are still in the heap when the ones before them have been popped. */
  lemma LastStillThere(s: Sched, fired: seq<TimerEntry>)
    requires fired != [] && multiset(fired) <= s.timers
    ensures multiset(fired[..|fired| - 1]) <= s.timers
    ensures fired[|fired| - 1] in FireTimers(s, fired[..|fired| - 1]).timers
  {
    MultisetOfFront(fired);
    FireTimersPops(s, fired[..|fired| - 1]);
  }

  lemma {:induction false} FireHeld<T>(s: Sched, lines: map<ChId, Line<T>>, fired: seq<TimerEntry>)
    requires HeldAreTagged(s, lines) && multiset(fired) <= s.timers
    ensures HeldAreTagged(FireTimers(s, fired), lines)
  {
    if fired != [] {
      LastStillThere(s, fired);
      FireHeld(s, lines, fired[..|fired| - 1]);
      FireOneHeld(FireTimers(s, fired[..|fired| - 1]), lines, fired[|fired| - 1]);
    }
  }

  /** The line differs from the channel's old one in its sender (receiver) only. */
  predicate OnlySender<T>(l: Line<T>, l': Line<T>, c: Option<CoId>) {
    l'.chan.sendWaiter == c && l'.chan.recvWaiter == l.chan.recvWaiter
  }

  predicate OnlyReceiver<T>(l: Line<T>, l': Line<T>, c: Option<CoId>) {
    l'.chan.recvWaiter == c && l'.chan.sendWaiter == l.chan.sendWaiter
  }

  lemma WakeSenderHeld<T>(s: Sched, lines: map<ChId, Line<T>>, ch: ChId, l: Line<T>)
    requires HeldAreTagged(s, lines) && ch in lines && lines[ch].chan.sendWaiter.Some? && OnlySender(lines[ch], l, None)
    ensures HeldAreTagged(Wake(s, lines[ch].chan.sendWaiter.value), lines[ch := l])
  {
    DistinctPush(s.ready, lines[ch].chan.sendWaiter.value);
  }

  lemma WakeReceiverHeld<T>(s: Sched, lines: map<ChId, Line<T>>, ch: ChId, l: Line<T>)
    requires HeldAreTagged(s, lines) && ch in lines && lines[ch].chan.recvWaiter.Some? && OnlyReceiver(lines[ch], l, None)
    ensures HeldAreTagged(Wake(s, lines[ch].chan.recvWaiter.value), lines[ch := l])
  {
    DistinctPush(s.ready, lines[ch].chan.recvWaiter.value);
  }

  lemma ParkSenderHeld<T>(s: Sched, lines: map<ChId, Line<T>>, ch: ChId, l: Line<T>)
    requires HeldAreTagged(s, lines) && InCoroutine(s) && ch in lines && OnlySender(lines[ch], l, s.running)
    ensures HeldAreTagged(Suspend(s, WAITING, InSend(ch)), lines[ch := l])
  {
    var s', lines' := Suspend(s, WAITING, InSend(ch)), lines[ch := l];
    forall c | c in lines' && lines'[c].chan.recvWaiter.Some? ensures Is(s', lines'[c].chan.recvWaiter.value, WAITING, InRecv(c)) {
      assert lines'[c].chan.recvWaiter == lines[c].chan.recvWaiter;
    }
  }

  lemma ParkReceiverHeld<T>(s: Sched, lines: map<ChId, Line<T>>, ch: ChId, l: Line<T>)
    requires HeldAreTagged(s, lines) && InCoroutine(s) && ch in lines && OnlyReceiver(lines[ch], l, s.running)
    ensures HeldAreTagged(Suspend(s, WAITING, InRecv(ch)), lines[ch := l])
  {
    var s', lines' := Suspend(s, WAITING, InRecv(ch)), lines[ch := l];
    forall c | c in lines' && lines'[c].chan.sendWaiter.Some? ensures Is(s', lines'[c].chan.sendWaiter.value, WAITING, InSend(c)) {
      assert lines'[c].chan.sendWaiter == lines[c].chan.sendWaiter;
    }
  }

  lemma SendHeld<T>(s: Sched, lines: map<ChId, Line<T>>, ch: ChId, val: T)
    requires HeldAreTagged(s, lines) && InCoroutine(s) && ch in lines
    ensures HeldAreTagged(Send(s, lines[ch].chan, ch, val).0, lines[ch := SendLine(s, lines[ch], ch, val)])
  {
    var l, l' := lines[ch], SendLine(s, lines[ch], ch, val);
    if l.chan.recvWaiter.Some? {
      WakeReceiverHeld(s, lines, ch, l');
      YieldHeld(Wake(s, l.chan.recvWaiter.value), lines[ch := l']);
    } else {
      ParkSenderHeld(s, lines, ch, l');
    }
  }

  lemma RecvHeld<T>(s: Sched, lines: map<ChId, Line<T>>, ch: ChId)
    requires HeldAreTagged(s, lines) && InCoroutine(s) && ch in lines
    ensures HeldAreTagged(Recv(s, lines[ch].chan, ch).0, lines[ch := RecvLine(s, lines[ch], ch)])
  {
    var l, l' := lines[ch], RecvLine(s, lines[ch], ch);
    if l.chan.sendWaiter.Some? {
      WakeSenderHeld(s, lines, ch, l');
    } else {
      ParkReceiverHeld(s, lines, ch, l');
    }
  }

  lemma EventsHeld<T>(w: World<T>, jobs: nat)
    requires HeldAreTagged(w.s, w.lines) && Numbered(w.s) && w.s.evs != []
    ensures HeldAreTagged(HandleEvent(w.s, jobs), w.lines)
  {
    if w.s.evs[0] == w.s.pipe {
      EvsHeld(w.s, w.lines, w.s.evs[1..], w.s.epoll);
      CreateManyHeld(w.s.(evs := w.s.evs[1..]), w.lines, jobs);
    } else {
      EventHeld(w.s, w.lines);
    }
  }

  lemma HeldStep<T>(w: World<T>, op: Op<T>)
    requires HeldAreTagged(w.s, w.lines) && Numbered(w.s) && Enabled(w, op)
    ensures HeldAreTagged(Step(w, op).s, Step(w, op).lines)
  {
    match op
    case OpCreate => CreateHeld(w.s, w.lines);
    case OpYield => YieldHeld(w.s, w.lines);
    case OpWait(fd) => WaitHeld(w.s, w.lines, fd);
    case OpSleep(ms, now) =>
      if ms <= 0 { YieldHeld(w.s, w.lines); } else { SleepHeld(w.s, w.lines, ms, now); }
    case OpSend(ch, val) => SendHeld(w.s, w.lines, ch, val);
    case OpRecv(ch) => RecvHeld(w.s, w.lines, ch);
    case OpFinish => FinishHeld(w.s, w.lines);
    case OpDispatch => DispatchHeld(w.s, w.lines);
    case OpReap => ReapHeld(w.s, w.lines);
    case OpFire(_, fired) => FireHeld(w.s, w.lines, fired);
    case OpPoll(evs) => EvsHeld(w.s, w.lines, evs, Poll(w.s, evs).epoll);
    case OpEvent(jobs) => EventsHeld(w, jobs);
  }

  lemma ShapesStep<T>(w: World<T>, op: Op<T>)
    requires Shapes(w.lines) && Enabled(w, op)
    ensures Shapes(Step(w, op).lines)
  {
  }

  // ----- who is alive -----

  /** Only a creation hands out a pointer, and only a deletion takes one away. */
  lemma SameKeys<T>(w: World<T>, op: Op<T>)
    requires Enabled(w, op) && !op.OpCreate? && !op.OpReap? && !op.OpEvent?
    ensures Step(w, op).s.coros.Keys == w.s.coros.Keys && Step(w, op).s.nextId == w.s.nextId && Step(w, op).reaped == w.reaped
  {
    match op
    case OpFire(_, fired) => FireKeys(w.s, fired);
    case OpSend(ch, val) => ChannelKeys(w, op, ch);
    case OpRecv(ch) => ChannelKeys(w, op, ch);
    case _ => CallKeys(w, op);
  }

  lemma CallKeys<T>(w: World<T>, op: Op<T>)
    requires Enabled(w, op) && !op.OpCreate? && !op.OpReap? && !op.OpEvent? && !op.OpFire? && !op.OpSend? && !op.OpRecv?
    ensures Step(w, op).s.coros.Keys == w.s.coros.Keys && Step(w, op).s.nextId == w.s.nextId && Step(w, op).reaped == w.reaped
  {
  }

  lemma ChannelKeys<T>(w: World<T>, op: Op<T>, ch: ChId)
    requires Enabled(w, op) && (op == OpRecv(ch) || (op.OpSend? && op.ch == ch))
    ensures Step(w, op).s.coros.Keys == w.s.coros.Keys && Step(w, op).s.nextId == w.s.nextId && Step(w, op).reaped == w.reaped
  {
  }

  lemma {:induction false} FireKeys(s: Sched, fired: seq<TimerEntry>)
    ensures FireTimers(s, fired).coros.Keys == s.coros.Keys && FireTimers(s, fired).nextId == s.nextId
  {
    if fired != [] {
      FireKeys(s, fired[..|fired| - 1]);
    }
  }

  lemma {:induction false} CreateManyAccounted(s: Sched, reaped: seq<CoId>, n: nat)
    requires Accounted(s, reaped)
    ensures Accounted(CreateMany(s, n), reaped)
  {
    if n > 0 {
      CreateManyAccounted(s, reaped, n - 1);
    }
  }

  lemma EventAccounted(s: Sched, reaped: seq<CoId>, jobs: nat)
    requires Accounted(s, reaped) && s.evs != []
    ensures Accounted(HandleEvent(s, jobs), reaped)
  {
    var s' := s.(evs := s.evs[1..]);
    AccountedFrame(s, s', reaped);
    if s.evs[0] == s.pipe {
      CreateManyAccounted(s', reaped, jobs);
    } else {
      AccountedFrame(s, HandleEvent(s, jobs), reaped);
    }
  }

  lemma ReapAccounted(s: Sched, reaped: seq<CoId>)
    requires Accounted(s, reaped) && s.running.Some? && s.running.value in s.coros && s.coros[s.running.value].state == DONE
    ensures Accounted(Reap(s), reaped + [s.running.value])
  {
    DistinctPush(reaped, s.running.value);
  }

  lemma AccountedStep<T>(w: World<T>, op: Op<T>)
    requires Accounted(w.s, w.reaped) && Enabled(w, op)
    ensures Accounted(Step(w, op).s, Step(w, op).reaped)
  {
    match op
    case OpCreate => CreateManyAccounted(w.s, w.reaped, 1);
    case OpReap => ReapAccounted(w.s, w.reaped);
    case OpEvent(jobs) => EventAccounted(w.s, w.reaped, jobs);
    case _ =>
      SameKeys(w, op);
      AccountedFrame(w.s, Step(w, op).s, w.reaped);
  }

  lemma NumberedStep<T>(w: World<T>, op: Op<T>)
    requires Numbered(w.s) && Enabled(w, op)
    ensures Numbered(Step(w, op).s)
  {
    match op
    case OpCreate =>
    case OpReap =>
    case OpEvent(jobs) => EventNumbered(w.s, jobs);
    case _ =>
      SameKeys(w, op);
      assert forall c :: c in Step(w, op).s.coros ==> c in Step(w, op).s.coros.Keys;
  }

  lemma {:induction false} CreateManyNumbered(s: Sched, n: nat)
    requires Numbered(s)
    ensures Numbered(CreateMany(s, n))
  {
    if n > 0 {
      CreateManyNumbered(s, n - 1);
    }
  }

  lemma EventNumbered(s: Sched, jobs: nat)
    requires Numbered(s) && s.evs != []
    ensures Numbered(HandleEvent(s, jobs))
  {
    CreateManyNumbered(s.(evs := s.evs[1..]), jobs);
  }

  /** No step, whatever the coroutines do, breaks what is safe. */
  lemma SafeStep<T>(w: World<T>, op: Op<T>)
    requires Safe(w) && Enabled(w, op)
    ensures Safe(Step(w, op))
  {
    HeldStep(w, op);
    NumberedStep(w, op);
    ShapesStep(w, op);
  }

  lemma {:induction false} SafeRun<T>(w: World<T>, ops: seq<Op<T>>)
    requires Safe(w) && Possible(w, ops)
    ensures Safe(Run(w, ops))
    decreases |ops|
  {
    if ops != [] {
      SafeStep(w, ops[0]);
      SafeRun(Step(w, ops[0]), ops[1..]);
    }
  }

  lemma {:induction false} AccountedRun<T>(w: World<T>, ops: seq<Op<T>>)
    requires Accounted(w.s, w.reaped) && Possible(w, ops)
    ensures Accounted(Run(w, ops).s, Run(w, ops).reaped)
    decreases |ops|
  {
    if ops != [] {
      AccountedStep(w, ops[0]);
      AccountedRun(Step(w, ops[0]), ops[1..]);
    }
  }

  // ----- epoll: one coroutine per fd is all it takes -----

  lemma WaitRegistered(s: Sched, fd: Fd)
    requires Registered(s) && InCoroutine(s) && s.coros[s.running.value].at == Nowhere
    requires !FdInUse(s, fd) && fd !in s.waiting
    ensures Registered(WaitEvent(s, fd))
  {
    var s' := WaitEvent(s, fd);
    forall f | f in s'.epoll ensures f == s'.pipe || f in s'.waiting || Woken(s', f) {
      if Woken(s, f) {
        var c :| c in s.coros && s.coros[c] == Coroutine(READY, InWait(f));
        assert s'.coros[c] == s.coros[c];
      }
    }
  }

  lemma DispatchRegistered<T>(s: Sched, lines: map<ChId, Line<T>>)
    requires HeldAreTagged(s, lines) && Registered(s) && s.running == None && s.ready != []
    ensures Registered(Dispatch(s))
  {
    var c0 := s.ready[0];
    var s' := Dispatch(s);
    forall f | f in s'.epoll ensures f == s'.pipe || f in s'.waiting || Woken(s', f) {
      if Woken(s, f) {
        var c :| c in s.coros && s.coros[c] == Coroutine(READY, InWait(f));
        assert c != c0;
        assert s'.coros[c] == s.coros[c];
      }
    }
  }

  lemma PollRegistered(s: Sched, evs: seq<Fd>)
    requires Registered(s) && s.evs == [] && Distinct(evs)
    requires forall fd :: fd in evs ==> fd in s.epoll && (s.epoll[fd] || fd == s.pipe)
    ensures Registered(Poll(s, evs))
  {
    forall fd ensures Woken(s, fd) ==> Woken(Poll(s, evs), fd) {
    }
  }

  lemma PipeEventRegistered(s: Sched)
    requires Registered(s) && s.evs != [] && s.evs[0] == s.pipe
    ensures Registered(s.(evs := s.evs[1..]))
  {
    var s' := s.(evs := s.evs[1..]);
    assert s.evs == [s.pipe] + s'.evs;
    forall fd | fd in s'.epoll ensures fd == s'.pipe || fd in s'.waiting || Woken(s', fd) {
      if Woken(s, fd) {
        var c :| c in s.coros && s.coros[c] == Coroutine(READY, InWait(fd));
        assert c in s'.coros;
      }
    }
  }

  lemma StillWoken(s: Sched, fd: Fd)
    requires Registered(s) && s.evs != [] && s.evs[0] != s.pipe && Is(s, s.waiting[s.evs[0]], WAITING, InWait(s.evs[0]))
    ensures Woken(s, fd) || fd == s.evs[0] ==> Woken(HandleEvent(s, 0), fd)
  {
    var s', c0 := HandleEvent(s, 0), s.waiting[s.evs[0]];
    assert s'.coros == s.coros[c0 := Coroutine(READY, InWait(s.evs[0]))];
    if fd == s.evs[0] {
      assert s'.coros[c0] == Coroutine(READY, InWait(fd));
    } else if Woken(s, fd) {
      var c :| c in s.coros && s.coros[c] == Coroutine(READY, InWait(fd));
      assert s'.coros[c] == s.coros[c];
    }
  }

  lemma EventRegistered(s: Sched)
    requires Registered(s) && s.evs != [] && s.evs[0] != s.pipe && Is(s, s.waiting[s.evs[0]], WAITING, InWait(s.evs[0]))
    ensures Registered(HandleEvent(s, 0))
  {
    var fd := s.evs[0];
    var s' := HandleEvent(s, 0);
    assert s.evs == [fd] + s'.evs;
    assert forall f :: f in s'.evs ==> f in s.evs && f != fd;
    assert s'.coros == s.coros[s.waiting[fd] := Coroutine(READY, InWait(fd))];
    forall f | f in s'.epoll ensures f == s'.pipe || f in s'.waiting || Woken(s', f) {
      StillWoken(s, f);
    }
  }

  lemma {:induction false} CreateManySameWaits(s: Sched, n: nat)
    requires Numbered(s)
    ensures SameWaits(s, CreateMany(s, n)) && Numbered(CreateMany(s, n))
  {
    if n > 0 {
      CreateManySameWaits(s, n - 1);
      LifeSameWaits(CreateMany(s, n - 1));
      SameWaitsTrans(s, CreateMany(s, n - 1), CreateMany(s, n));
    }
  }

  lemma EventsRegistered<T>(w: World<T>, jobs: nat)
    requires HeldAreTagged(w.s, w.lines) && Numbered(w.s) && Registered(w.s) && w.s.evs != []
    ensures Registered(HandleEvent(w.s, jobs))
  {
    if w.s.evs[0] == w.s.pipe {
      PipeEventRegistered(w.s);
      CreateManySameWaits(w.s.(evs := w.s.evs[1..]), jobs);
      RegisteredFrame(w.s.(evs := w.s.evs[1..]), HandleEvent(w.s, jobs));
    } else {
      assert w.s.evs[0] in w.s.evs;
      EventRegistered(w.s);
    }
  }

  /** Expiries touch sleepers only. */
  lemma {:induction false} FireSameWaits(s: Sched, fired: seq<TimerEntry>)
    requires forall e :: e in fired ==> e.co in s.coros && s.coros[e.co].at.InSleep?
    ensures SameWaits(s, FireTimers(s, fired))
    ensures forall c :: c in s.coros ==> c in FireTimers(s, fired).coros && FireTimers(s, fired).coros[c].at == s.coros[c].at
  {
    if fired != [] {
      FireSameWaits(s, fired[..|fired| - 1]);
      assert fired[|fired| - 1] in fired;
    }
  }

  lemma ExpirySameWaits<T>(s: Sched, lines: map<ChId, Line<T>>, fired: seq<TimerEntry>)
    requires HeldAreTagged(s, lines) && multiset(fired) <= s.timers
    ensures SameWaits(s, FireTimers(s, fired))
  {
    forall e | e in fired ensures e.co in s.coros && s.coros[e.co].at.InSleep? {
      assert e in multiset(fired);
    }
    FireSameWaits(s, fired);
  }

  lemma SameWaitsTrans(s: Sched, s1: Sched, s2: Sched)
    requires SameWaits(s, s1) && SameWaits(s1, s2)
    ensures SameWaits(s, s2)
  {
  }

  lemma WakeSameWaits(s: Sched, c: CoId)
    requires c in s.coros && !s.coros[c].at.InWait?
    ensures SameWaits(s, Wake(s, c))
  {
  }

  lemma LeaveSameWaits(s: Sched, state: State, at: Call)
    requires InCoroutine(s) && s.coros[s.running.value].at == Nowhere && !at.InWait?
    ensures SameWaits(s, Suspend(s, state, at)) && SameWaits(s, Yield(s))
  {
  }

  /** Channels wake and park coroutines that are not inside wait_event. */
  lemma SendSameWaits<T>(s: Sched, lines: map<ChId, Line<T>>, ch: ChId, val: T)
    requires HeldAreTagged(s, lines) && InCoroutine(s) && ch in lines
    ensures SameWaits(s, Send(s, lines[ch].chan, ch, val).0)
  {
    if lines[ch].chan.recvWaiter.Some? {
      var s1 := Wake(s, lines[ch].chan.recvWaiter.value);
      WakeSameWaits(s, lines[ch].chan.recvWaiter.value);
      LeaveSameWaits(s1, READY, InYield);
      SameWaitsTrans(s, s1, Yield(s1));
    } else {
      LeaveSameWaits(s, WAITING, InSend(ch));
    }
  }

  lemma RecvSameWaits<T>(s: Sched, lines: map<ChId, Line<T>>, ch: ChId)
    requires HeldAreTagged(s, lines) && InCoroutine(s) && ch in lines
    ensures SameWaits(s, Recv(s, lines[ch].chan, ch).0)
  {
    if lines[ch].chan.sendWaiter.Some? {
      WakeSameWaits(s, lines[ch].chan.sendWaiter.value);
    } else {
      LeaveSameWaits(s, WAITING, InRecv(ch));
    }
  }

  lemma SleepSameWaits(s: Sched, ms: int, now: int)
    requires InCoroutine(s) && s.coros[s.running.value].at == Nowhere
    ensures SameWaits(s, Sleep(s, ms, now))
  {
    LeaveSameWaits(s, WAITING, InSleep(now + ms));
  }

  lemma LifeSameWaits(s: Sched)
    requires Numbered(s)
    ensures SameWaits(s, Create(s))
    ensures s.running.Some? && s.running.value in s.coros && s.coros[s.running.value].at == Nowhere ==>
              SameWaits(s, Finish(s)) && SameWaits(s, Reap(s))
  {
  }

  /** One coroutine per file descriptor. */
  predicate FdDiscipline<T>(w: World<T>, op: Op<T>) {
    op.OpWait? ==> !FdInUse(w.s, op.fd)
  }

  lemma RegisteredStep<T>(w: World<T>, op: Op<T>)
    requires Safe(w) && Registered(w.s) && Enabled(w, op) && FdDiscipline(w, op)
    ensures Registered(Step(w, op).s)
  {
    match op
    case OpWait(fd) => WaitRegistered(w.s, fd);
    case OpDispatch => DispatchRegistered(w.s, w.lines);
    case OpPoll(evs) => PollRegistered(w.s, evs);
    case OpEvent(jobs) => EventsRegistered(w, jobs);
    case _ =>
      OtherSameWaits(w, op);
      RegisteredFrame(w.s, Step(w, op).s);
  }

  lemma OtherSameWaits<T>(w: World<T>, op: Op<T>)
    requires HeldAreTagged(w.s, w.lines) && Numbered(w.s) && Enabled(w, op)
    requires !op.OpWait? && !op.OpDispatch? && !op.OpPoll? && !op.OpEvent?
    ensures SameWaits(w.s, Step(w, op).s)
  {
    match op
    case OpYield => LeaveSameWaits(w.s, READY, InYield);
    case OpSleep(ms, now) => SleepSameWaits(w.s, ms, now);
    case OpSend(ch, val) => SendSameWaits(w.s, w.lines, ch, val);
    case OpRecv(ch) => RecvSameWaits(w.s, w.lines, ch);
    case OpFire(_, fired) => ExpirySameWaits(w.s, w.lines, fired);
    case _ => LifeSameWaits(w.s);
  }

  ghost predicate FdDisciplined<T>(w: World<T>, ops: seq<Op<T>>)
    requires Possible(w, ops)
    decreases |ops|
  {
    ops != [] ==> FdDiscipline(w, ops[0]) && FdDisciplined(Step(w, ops[0]), ops[1..])
  }

  /** The registrations agree with the waiters in every run with one coroutine per fd, whatever the channels do. */
  lemma {:induction false} RegisteredRun<T>(w: World<T>, ops: seq<Op<T>>)
    requires Safe(w) && Registered(w.s) && Possible(w, ops) && FdDisciplined(w, ops)
    ensures Safe(Run(w, ops)) && Registered(Run(w, ops).s)
    decreases |ops|
  {
    if ops != [] {
      SafeStep(w, ops[0]);
      RegisteredStep(w, ops[0]);
      RegisteredRun(Step(w, ops[0]), ops[1..]);
    }
  }

  // ----- channel contents: the rule for senders of that channel is all it takes -----

  /** A send on this channel meets a parked receiver, or no parked sender. */
  predicate ChanDiscipline<T>(w: World<T>, op: Op<T>, ch: ChId) {
    op.OpSend? && op.ch == ch ==> ch in w.lines && (w.lines[ch].chan.recvWaiter.Some? || w.lines[ch].chan.sendWaiter == None)
  }

  lemma InOrderStep<T>(w: World<T>, op: Op<T>, ch: ChId)
    requires ch in w.lines && Shape(w.lines[ch].chan) && InOrder(w.lines[ch]) && Enabled(w, op) && ChanDiscipline(w, op, ch)
    ensures ch in Step(w, op).lines && InOrder(Step(w, op).lines[ch])
  {
    var l := w.lines[ch];
    match op
    case OpSend(c, val) =>
      if c == ch {
        var l' := SendLine(w.s, l, ch, val);
        assert l.chan.recvWaiter.Some? ==> l.sent + [val] == l.handed + [val] + Parked(l'.chan);
        assert l.chan.recvWaiter == None ==> l.sent + [val] == l.handed + Parked(l'.chan);
      }
    case OpRecv(c) =>
      if c == ch && l.chan.sendWaiter.Some? {
        assert l.handed + [l.chan.sendVal.value] == RecvLine(w.s, l, ch).handed + Parked(RecvLine(w.s, l, ch).chan);
      }
    case _ =>
  }

  // ----- whoever is alive is held: the whole discipline -----

  lemma SuspendTagged<T>(s: Sched, lines: map<ChId, Line<T>>, at: Call, lines': map<ChId, Line<T>>)
    requires TaggedAreHeld(s, lines) && InCoroutine(s)
    requires forall c, a :: c != s.running.value && ParkedWhereItSays(s, lines, c, a) ==> ParkedWhereItSays(s, lines', c, a)
    requires ParkedWhereItSays(s, lines', s.running.value, at)
    ensures TaggedAreHeld(Suspend(s, WAITING, at), lines')
  {
    var s' := Suspend(s, WAITING, at);
    forall c | c in s'.coros && s'.coros[c].state == WAITING ensures ParkedWhereItSays(s', lines', c, s'.coros[c].at) {
      assert ParkedWhereItSays(s, lines', c, s'.coros[c].at);
    }
  }

  lemma CreateTagged<T>(s: Sched, lines: map<ChId, Line<T>>)
    requires TaggedAreHeld(s, lines)
    ensures TaggedAreHeld(Create(s), lines)
  {
  }

  lemma {:induction false} CreateManyTagged<T>(s: Sched, lines: map<ChId, Line<T>>, n: nat)
    requires TaggedAreHeld(s, lines)
    ensures TaggedAreHeld(CreateMany(s, n), lines)
  {
    if n > 0 {
      CreateManyTagged(s, lines, n - 1);
      CreateTagged(CreateMany(s, n - 1), lines);
    }
  }

  lemma YieldTagged<T>(s: Sched, lines: map<ChId, Line<T>>)
    requires TaggedAreHeld(s, lines) && InCoroutine(s)
    ensures TaggedAreHeld(Yield(s), lines)
  {
  }

  lemma WaitTagged<T>(s: Sched, lines: map<ChId, Line<T>>, fd: Fd)
    requires TaggedAreHeld(s, lines) && InCoroutine(s) && fd !in s.waiting
    ensures TaggedAreHeld(WaitEvent(s, fd), lines)
  {
  }

  lemma SleepTagged<T>(s: Sched, lines: map<ChId, Line<T>>, ms: int, now: int)
    requires TaggedAreHeld(s, lines) && InCoroutine(s) && ms > 0
    ensures TaggedAreHeld(Sleep(s, ms, now), lines)
  {
  }

  lemma DispatchTagged<T>(s: Sched, lines: map<ChId, Line<T>>)
    requires HeldAreTagged(s, lines) && TaggedAreHeld(s, lines) && s.running == None && s.ready != []
    ensures TaggedAreHeld(Dispatch(s), lines)
  {
    assert s.ready == [s.ready[0]] + s.ready[1..];
  }

  lemma FinishTagged<T>(s: Sched, lines: map<ChId, Line<T>>)
    requires TaggedAreHeld(s, lines) && InCoroutine(s)
    ensures TaggedAreHeld(Finish(s), lines)
  {
  }

  lemma ReapTagged<T>(s: Sched, lines: map<ChId, Line<T>>)
    requires TaggedAreHeld(s, lines) && s.running.Some? && s.running.value in s.coros && s.coros[s.running.value].state == DONE
    ensures TaggedAreHeld(Reap(s), lines)
  {
  }

  lemma EvsTagged<T>(s: Sched, lines: map<ChId, Line<T>>, evs: seq<Fd>, epoll: map<Fd, bool>)
    requires TaggedAreHeld(s, lines)
    ensures TaggedAreHeld(s.(evs := evs, epoll := epoll), lines)
  {
  }

  lemma EventTagged<T>(s: Sched, lines: map<ChId, Line<T>>)
    requires HeldAreTagged(s, lines) && TaggedAreHeld(s, lines) && s.evs != [] && s.evs[0] != s.pipe
    ensures TaggedAreHeld(HandleEvent(s, 0), lines)
  {
  }

  lemma EventsTagged<T>(w: World<T>, jobs: nat)
    requires HeldAreTagged(w.s, w.lines) && TaggedAreHeld(w.s, w.lines) && w.s.evs != []
    ensures TaggedAreHeld(HandleEvent(w.s, jobs), w.lines)
  {
    if w.s.evs[0] == w.s.pipe {
      EvsTagged(w.s, w.lines, w.s.evs[1..], w.s.epoll);
      CreateManyTagged(w.s.(evs := w.s.evs[1..]), w.lines, jobs);
    } else {
      EventTagged(w.s, w.lines);
    }
  }

  lemma FireOneTagged<T>(s: Sched, lines: map<ChId, Line<T>>, e: TimerEntry)
    requires HeldAreTagged(s, lines) && TaggedAreHeld(s, lines) && e in s.timers
    ensures TaggedAreHeld(FireOne(s, e), lines)
  {
  }

  lemma {:induction false} FireTagged<T>(s: Sched, lines: map<ChId, Line<T>>, fired: seq<TimerEntry>)
    requires HeldAreTagged(s, lines) && TaggedAreHeld(s, lines) && multiset(fired) <= s.timers
    ensures TaggedAreHeld(FireTimers(s, fired), lines)
  {
    if fired != [] {
      LastStillThere(s, fired);
      FireHeld(s, lines, fired[..|fired| - 1]);
      FireTagged(s, lines, fired[..|fired| - 1]);
      FireOneTagged(FireTimers(s, fired[..|fired| - 1]), lines, fired[|fired| - 1]);
    }
  }

  lemma WakeReceiverTagged<T>(s: Sched, lines: map<ChId, Line<T>>, ch: ChId, l: Line<T>)
    requires HeldAreTagged(s, lines) && TaggedAreHeld(s, lines)
    requires ch in lines && lines[ch].chan.recvWaiter.Some? && OnlyReceiver(lines[ch], l, None)
    ensures TaggedAreHeld(Wake(s, lines[ch].chan.recvWaiter.value), lines[ch := l])
  {
  }

  lemma WakeSenderTagged<T>(s: Sched, lines: map<ChId, Line<T>>, ch: ChId, l: Line<T>)
    requires HeldAreTagged(s, lines) && TaggedAreHeld(s, lines)
    requires ch in lines && lines[ch].chan.sendWaiter.Some? && OnlySender(lines[ch], l, None)
    ensures TaggedAreHeld(Wake(s, lines[ch].chan.sendWaiter.value), lines[ch := l])
  {
  }

  lemma SendTagged<T>(s: Sched, lines: map<ChId, Line<T>>, ch: ChId, val: T)
    requires HeldAreTagged(s, lines) && TaggedAreHeld(s, lines) && InCoroutine(s) && ch in lines
    requires lines[ch].chan.recvWaiter.Some? || lines[ch].chan.sendWaiter == None
    ensures TaggedAreHeld(Send(s, lines[ch].chan, ch, val).0, lines[ch := SendLine(s, lines[ch], ch, val)])
  {
    var l, l' := lines[ch], SendLine(s, lines[ch], ch, val);
    if l.chan.recvWaiter.Some? {
      WakeReceiverTagged(s, lines, ch, l');
      YieldTagged(Wake(s, l.chan.recvWaiter.value), lines[ch := l']);
    } else {
      SuspendTagged(s, lines, InSend(ch), lines[ch := l']);
    }
  }

  lemma RecvTagged<T>(s: Sched, lines: map<ChId, Line<T>>, ch: ChId)
    requires HeldAreTagged(s, lines) && TaggedAreHeld(s, lines) && InCoroutine(s) && ch in lines
    requires lines[ch].chan.sendWaiter.Some? || lines[ch].chan.recvWaiter == None
    ensures TaggedAreHeld(Recv(s, lines[ch].chan, ch).0, lines[ch := RecvLine(s, lines[ch], ch)])
  {
    var l, l' := lines[ch], RecvLine(s, lines[ch], ch);
    if l.chan.sendWaiter.Some? {
      WakeSenderTagged(s, lines, ch, l');
    } else {
      SuspendTagged(s, lines, InRecv(ch), lines[ch := l']);
    }
  }

  lemma TaggedStep<T>(w: World<T>, op: Op<T>)
    requires HeldAreTagged(w.s, w.lines) && TaggedAreHeld(w.s, w.lines) && Enabled(w, op) && Discipline(w, op)
    ensures TaggedAreHeld(Step(w, op).s, Step(w, op).lines)
  {
    match op
    case OpCreate => CreateTagged(w.s, w.lines);
    case OpYield => YieldTagged(w.s, w.lines);
    case OpWait(fd) => WaitTagged(w.s, w.lines, fd);
    case OpSleep(ms, now) =>
      if ms <= 0 { YieldTagged(w.s, w.lines); } else { SleepTagged(w.s, w.lines, ms, now); }
    case OpSend(ch, val) => SendTagged(w.s, w.lines, ch, val);
    case OpRecv(ch) => RecvTagged(w.s, w.lines, ch);
    case OpFinish => FinishTagged(w.s, w.lines);
    case OpDispatch => DispatchTagged(w.s, w.lines);
    case OpReap => ReapTagged(w.s, w.lines);
    case OpFire(_, fired) => FireTagged(w.s, w.lines, fired);
    case OpPoll(evs) => EvsTagged(w.s, w.lines, evs, Poll(w.s, evs).epoll);
    case OpEvent(jobs) => EventsTagged(w, jobs);
  }

  // ----- the whole invariant -----

  lemma SameChannels<T>(w: World<T>, op: Op<T>)
    requires Enabled(w, op)
    ensures Step(w, op).lines.Keys == w.lines.Keys
  {
  }

  lemma StepHolds<T>(w: World<T>, op: Op<T>)
    requires Inv(w) && Enabled(w, op) && Discipline(w, op)
    ensures Inv(Step(w, op))
  {
    SafeStep(w, op);
    TaggedStep(w, op);
    AccountedStep(w, op);
    RegisteredStep(w, op);
    SameChannels(w, op);
    forall ch | ch in Step(w, op).lines ensures InOrder(Step(w, op).lines[ch]) {
      assert ch in w.lines.Keys;
      InOrderStep(w, op, ch);
    }
  }

  /** The invariant holds in every state that a disciplined run can reach. */
  lemma {:induction false} RunHolds<T>(w: World<T>, ops: seq<Op<T>>)
    requires Inv(w) && Possible(w, ops) && Disciplined(w, ops)
    ensures Inv(Run(w, ops))
    decreases |ops|
  {
    if ops != [] {
      StepHolds(w, ops[0]);
      RunHolds(Step(w, ops[0]), ops[1..]);
    }
  }
}
