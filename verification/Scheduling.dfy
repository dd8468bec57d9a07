/** What the invariant means, and what holds over whole runs of a scheduler thread. */
module Scheduling {
  import opened Bytes
  import opened TimerHeap
  import opened Machine
  import opened Invariants

  // ----- one coroutine, one place -----

  datatype Place = OnProcessor | InReady(i: nat) | OnFd(fd: Fd) | InTimer(e: TimerEntry, copy: nat) | AsSender(ch: ChId) | AsReceiver(ch: ChId)

  ghost predicate Holds<T>(w: World<T>, p: Place, c: CoId) {
    match p
    case OnProcessor => w.s.running == Some(c)
    case InReady(i) => i < |w.s.ready| && w.s.ready[i] == c
    case OnFd(fd) => fd in w.s.waiting && w.s.waiting[fd] == c
    case InTimer(e, copy) => copy < w.s.timers[e] && e.co == c
    case AsSender(ch) => ch in w.lines && w.lines[ch].chan.sendWaiter == Some(c)
    case AsReceiver(ch) => ch in w.lines && w.lines[ch].chan.recvWaiter == Some(c)
  }

  predicate TagFits(p: Place, state: State) {
    match p
    case OnProcessor => state == RUNNING || state == DONE
    case InReady(_) => state == READY
    case _ => state == WAITING
  }

  lemma PlaceIsUnique<T>(w: World<T>, c: CoId, p: Place, q: Place)
    requires HeldAreTagged(w.s, w.lines) && Holds(w, p, c) && Holds(w, q, c)
    ensures p == q
  {
  }

  /** A live coroutine is held in exactly one place, and its tag names the kind of place. */
  lemma ExactlyOnePlace<T>(w: World<T>, c: CoId) returns (p: Place)
    requires HeldAreTagged(w.s, w.lines) && TaggedAreHeld(w.s, w.lines) && c in w.s.coros
    ensures Holds(w, p, c) && TagFits(p, w.s.coros[c].state)
    ensures forall q :: Holds(w, q, c) ==> q == p
  {
    p := SomePlace(w, c);
    forall q | Holds(w, q, c) ensures q == p {
      PlaceIsUnique(w, c, p, q);
    }
  }

  lemma SomePlace<T>(w: World<T>, c: CoId) returns (p: Place)
    requires HeldAreTagged(w.s, w.lines) && TaggedAreHeld(w.s, w.lines) && c in w.s.coros
    ensures Holds(w, p, c) && TagFits(p, w.s.coros[c].state)
  {
    match w.s.coros[c].state {
      case READY =>
        var i :| 0 <= i < |w.s.ready| && w.s.ready[i] == c;
        p := InReady(i);
      case WAITING =>
        p := match w.s.coros[c].at
             case InWait(fd) => OnFd(fd)
             case InSleep(until) => InTimer(TimerEntry(until, c), 0)
             case InSend(ch) => AsSender(ch)
             case InRecv(ch) => AsReceiver(ch)
             case _ => OnProcessor;
      case _ => p := OnProcessor;
    }
  }

  /** Without any discipline: a coroutine is in at most one place, is alive and tagged for it, and was not deleted. */
  lemma AtMostOnePlace<T>(w: World<T>, c: CoId, p: Place, q: Place)
    requires HeldAreTagged(w.s, w.lines) && Accounted(w.s, w.reaped) && Holds(w, p, c) && Holds(w, q, c)
    ensures p == q && c in w.s.coros && TagFits(p, w.s.coros[c].state) && c !in w.reaped
  {
    PlaceIsUnique(w, c, p, q);
    match p
    case InReady(i) => assert c in w.s.ready;
    case _ =>
  }

  /** So it is in every run of a new thread, in which moreover nothing is deleted twice. */
  lemma AtMostOnePlaceEver<T>(pipe: Fd, channels: set<ChId>, ops: seq<Op<T>>, c: CoId, p: Place, q: Place)
    requires Possible(Start<T>(pipe, channels), ops)
    requires Holds(Run(Start<T>(pipe, channels), ops), p, c) && Holds(Run(Start<T>(pipe, channels), ops), q, c)
    ensures var w := Run(Start<T>(pipe, channels), ops);
            p == q && c in w.s.coros && TagFits(p, w.s.coros[c].state) && c !in w.reaped && Distinct(w.reaped)
  {
    StartHolds<T>(pipe, channels);
    SafeRun(Start<T>(pipe, channels), ops);
    AccountedRun(Start<T>(pipe, channels), ops);
    AtMostOnePlace(Run(Start<T>(pipe, channels), ops), c, p, q);
  }

  /** A deleted coroutine, or a pointer never handed out, is in no container. */
  lemma DeadAreNowhere<T>(w: World<T>, c: CoId, p: Place)
    requires HeldAreTagged(w.s, w.lines) && Accounted(w.s, w.reaped) && (c in w.reaped || c !in w.s.coros)
    ensures c !in w.s.coros && !Holds(w, p, c)
  {
    if Holds(w, p, c) {
      AtMostOnePlace(w, c, p, p);
    }
  }

  // ----- epoll -----

  /** A waiting fd is armed, or its event lies in the part of the result not handled yet, never both; and
      what is registered is the pipe, the waiting fds and the fds woken but not yet resumed. */
  lemma NoLostWakeUp<T>(w: World<T>, fd: Fd)
    requires Safe(w) && Registered(w.s)
    ensures fd in w.s.waiting ==> fd in w.s.epoll && (w.s.epoll[fd] <==> fd !in w.s.evs)
    ensures fd in w.s.epoll <==> fd == w.s.pipe || fd in w.s.waiting || Woken(w.s, fd)
    ensures !(fd in w.s.waiting && Woken(w.s, fd))
  {
    if fd in w.s.waiting {
      assert Is(w.s, w.s.waiting[fd], WAITING, InWait(fd));
    }
  }

  /** What a wait does to the registrations in any state whatever: its fd is armed afterwards, also where it was
      registered and disarmed, and left alone only where a waiter is on record for an fd that is not registered. */
  lemma WaitArms<T>(w: World<T>, fd: Fd)
    requires Enabled(w, OpWait(fd))
    ensures var s, s1, me := w.s, Step(w, OpWait(fd)).s, w.s.running.value;
            && s1.running == None && s1.ready == s.ready && Is(s1, me, WAITING, InWait(fd)) && s1.waiting == s.waiting[fd := me]
            && (fd in s1.epoll <==> fd in s.epoll || fd !in s.waiting) && (fd in s1.epoll ==> s1.epoll[fd])
            && forall other :: other != fd ==> (other in s1.epoll <==> other in s.epoll) && (other in s.epoll ==> s1.epoll[other] == s.epoll[other])
  {
  }

  /** wait_event adds a fresh registration exactly when no coroutine is inside wait_event on that fd. */
  lemma AddedIffUnused<T>(w: World<T>, fd: Fd)
    requires Safe(w) && Registered(w.s)
    ensures RegistrationOf(w.s, fd) == Added <==> !FdInUse(w.s, fd)
  {
    NoLostWakeUp(w, fd);
    if fd in w.s.waiting {
      assert w.s.coros[w.s.waiting[fd]].at == InWait(fd);
    }
  }

  /** An event that names a parked coroutine's fd wakes that coroutine. */
  lemma EventWakes<T>(w: World<T>, jobs: nat)
    requires Safe(w) && Registered(w.s) && Enabled(w, OpEvent(jobs)) && w.s.evs[0] != w.s.pipe
    ensures var fd := w.s.evs[0];
            fd in w.s.waiting && Step(w, OpEvent(jobs)).s.ready == w.s.ready + [w.s.waiting[fd]]
  {
    assert w.s.evs[0] in w.s.evs;
  }

  /** The wake-up pipe is registered, and nobody who waits on it is ever woken. */
  predicate PipeWatched(s: Sched) {
    s.pipe in s.epoll && forall c :: c in s.coros && s.coros[c].at == InWait(s.pipe) ==> s.coros[c].state == WAITING
  }

  lemma PipeEvent(s: Sched, jobs: nat)
    requires PipeWatched(s) && Numbered(s) && s.evs != [] && s.evs[0] == s.pipe
    ensures PipeWatched(HandleEvent(s, jobs))
  {
    CreateManySameWaits(s.(evs := s.evs[1..]), jobs);
  }

  /** Whatever the coroutines do, the pipe stays registered. */
  lemma PipeWatchedStep<T>(w: World<T>, op: Op<T>)
    requires Safe(w) && PipeWatched(w.s) && Enabled(w, op)
    ensures PipeWatched(Step(w, op).s) && Step(w, op).s.pipe == w.s.pipe
  {
    match op
    case OpWait(_) =>
    case OpDispatch => assert w.s.ready[0] in w.s.ready;
    case OpPoll(_) =>
    case OpEvent(jobs) =>
      CreateManySameWaits(w.s.(evs := w.s.evs[1..]), jobs);
      if w.s.evs[0] == w.s.pipe {
        PipeEvent(w.s, jobs);
      }
    case _ => OtherSameWaits(w, op);
  }

  lemma {:induction false} PipeWatchedRun<T>(w: World<T>, ops: seq<Op<T>>)
    requires Safe(w) && PipeWatched(w.s) && Possible(w, ops)
    ensures PipeWatched(Run(w, ops).s) && Run(w, ops).s.pipe == w.s.pipe
    decreases |ops|
  {
    if ops != [] {
      SafeStep(w, ops[0]);
      PipeWatchedStep(w, ops[0]);
      PipeWatchedRun(Step(w, ops[0]), ops[1..]);
    }
  }

  // ----- where discipline is needed, and that nothing less will do -----

  /** The registrations survive a wait if and only if nobody is inside wait_event on the fd. */
  lemma WaitRegistersIff<T>(w: World<T>, fd: Fd)
    requires Safe(w) && Registered(w.s) && Enabled(w, OpWait(fd))
    ensures Registered(Step(w, OpWait(fd)).s) <==> !FdInUse(w.s, fd)
  {
    var me := w.s.running.value;
    if !FdInUse(w.s, fd) {
      RegisteredStep(w, OpWait(fd));
    } else if fd != w.s.pipe {
      var c :| c in w.s.coros && w.s.coros[c].at == InWait(fd);
      var w' := Step(w, OpWait(fd));
      assert c != me;
      assert w'.s.coros[c].at == w'.s.coros[me].at;
    }
  }

  lemma WaitKeepsIff<T>(w: World<T>, fd: Fd)
    requires Inv(w) && Enabled(w, OpWait(fd))
    ensures Inv(Step(w, OpWait(fd))) <==> !FdInUse(w.s, fd)
  {
    WaitRegistersIff(w, fd);
    if !FdInUse(w.s, fd) {
      StepHolds(w, OpWait(fd));
    }
  }

  /** No wake-up is lost in any run of a new thread that keeps to one coroutine per fd. */
  lemma NoLostWakeUpEver<T>(pipe: Fd, channels: set<ChId>, ops: seq<Op<T>>, fd: Fd)
    requires Possible(Start<T>(pipe, channels), ops) && FdDisciplined(Start<T>(pipe, channels), ops)
    ensures var s := Run(Start<T>(pipe, channels), ops).s;
            && (fd in s.waiting ==> fd in s.epoll && (s.epoll[fd] <==> fd !in s.evs))
            && (fd in s.epoll <==> fd == s.pipe || fd in s.waiting || Woken(s, fd))
            && (RegistrationOf(s, fd) == Added <==> !FdInUse(s, fd))
  {
    StartHolds<T>(pipe, channels);
    RegisteredRun(Start<T>(pipe, channels), ops);
    NoLostWakeUp(Run(Start<T>(pipe, channels), ops), fd);
    AddedIffUnused(Run(Start<T>(pipe, channels), ops), fd);
  }

  lemma SendKeepsIff<T>(w: World<T>, ch: ChId, val: T)
    requires Inv(w) && Enabled(w, OpSend(ch, val))
    ensures Inv(Step(w, OpSend(ch, val))) <==> w.lines[ch].chan.sendWaiter == None || w.lines[ch].chan.recvWaiter.Some?
  {
    var l := w.lines[ch];
    if l.chan.sendWaiter == None || l.chan.recvWaiter.Some? {
      StepHolds(w, OpSend(ch, val));
    } else {
      LostWaiter(w, Step(w, OpSend(ch, val)), l.chan.sendWaiter.value);
    }
  }

  lemma RecvKeepsIff<T>(w: World<T>, ch: ChId)
    requires Inv(w) && Enabled(w, OpRecv(ch))
    ensures Inv(Step(w, OpRecv(ch))) <==> w.lines[ch].chan.recvWaiter == None || w.lines[ch].chan.sendWaiter.Some?
  {
    var l := w.lines[ch];
    if l.chan.recvWaiter == None || l.chan.sendWaiter.Some? {
      StepHolds(w, OpRecv(ch));
    } else {
      LostWaiter(w, Step(w, OpRecv(ch)), l.chan.recvWaiter.value);
    }
  }

  /** A coroutine tagged as waiting that its place no longer names breaks the invariant. */
  lemma LostWaiter<T>(w: World<T>, w': World<T>, c: CoId)
    requires c in w.s.coros && c in w'.s.coros && w'.s.coros[c] == w.s.coros[c] && w.s.coros[c].state == WAITING
    requires !ParkedWhereItSays(w'.s, w'.lines, c, w.s.coros[c].at)
    ensures !Inv(w')
  {
  }

  /** The second wait on a busy fd: the first waiter is alive, tagged WAITING, and in no place at all. */
  lemma OverwriteStrands<T>(w: World<T>, fd: Fd, p: Place)
    requires HeldAreTagged(w.s, w.lines) && Enabled(w, OpWait(fd)) && fd in w.s.waiting
    ensures var w' := Step(w, OpWait(fd));
            Is(w'.s, w.s.waiting[fd], WAITING, InWait(fd)) && !Holds(w', p, w.s.waiting[fd])
  {
    var c := w.s.waiting[fd];
    assert Is(w.s, c, WAITING, InWait(fd));
    if Holds(w, p, c) {
      PlaceIsUnique(w, c, p, OnFd(fd));
    }
  }

  /** Runs compose. */
  lemma {:induction false} RunConcat<T>(w: World<T>, a: seq<Op<T>>, b: seq<Op<T>>)
    requires Possible(w, a) && Possible(Run(w, a), b)
    ensures Possible(w, a + b) && Run(w, a + b) == Run(Run(w, a), b)
    ensures Disciplined(w, a + b) <==> Disciplined(w, a) && Disciplined(Run(w, a), b)
    decreases |a|
  {
    if a == [] {
      assert a + b == b;
    } else {
      assert (a + b)[1..] == a[1..] + b;
      RunConcat(Step(w, a[0]), a[1..], b);
    }
  }

  lemma RunJoins<T>(w: World<T>, ops: seq<Op<T>>, op: Op<T>)
    requires Possible(w, ops) && Enabled(Run(w, ops), op)
    ensures Possible(w, ops + [op]) && Run(w, ops + [op]) == Step(Run(w, ops), op)
  {
    var one := [op];
    assert one[1..] == [];
    RunConcat(w, ops, one);
  }

  /** The first coroutine waits for fd 5, the second is ready. */
  predicate OneWaits(w: World<int>) {
    && w.s.running == None && w.s.evs == [] && w.s.timers == multiset{} && w.lines == map[]
    && w.s.ready == [2] && w.s.waiting == map[5 := 1] && Is(w.s, 1, WAITING, InWait(5)) && 2 in w.s.coros
  }

  lemma OneWaitsIsReachable() returns (ops: seq<Op<int>>)
    ensures Possible(Start<int>(3, {}), ops) && OneWaits(Run(Start<int>(3, {}), ops))
  {
    var w0 := Start<int>(3, {});
    ops := TwoCreatedIsReachable({});
    RunJoins(w0, ops, OpWait(5));
    ops := ops + [OpWait(5)];
  }

  /** And that second wait can come about: two coroutines are created and both wait for fd 5. */
  lemma StrandingIsReachable() returns (ops: seq<Op<int>>)
    ensures Possible(Start<int>(3, {}), ops)
    ensures var w := Run(Start<int>(3, {}), ops);
            Is(w.s, 1, WAITING, InWait(5)) && forall p :: !Holds(w, p, 1)
  {
    var w0 := Start<int>(3, {});
    ops := OneWaitsIsReachable();
    var w := Run(w0, ops);
    RunJoins(w0, ops, OpDispatch);
    ops, w := ops + [OpDispatch], Step(w, OpDispatch);
    assert w.s.ready == [];
    RunJoins(w0, ops, OpWait(5));
    ops, w := ops + [OpWait(5)], Step(w, OpWait(5));
    assert w.s.waiting == map[5 := 2];
  }

  // ----- the ready queue is a queue -----

  lemma {:induction false} CreateManyAppends(s: Sched, n: nat)
    ensures s.ready <= CreateMany(s, n).ready
  {
    if n > 0 {
      CreateManyAppends(s, n - 1);
    }
  }

  lemma ChannelAppends<T>(s: Sched, ch: Chan<T>, id: ChId, val: T)
    requires s.running.Some?
    ensures s.ready <= Send(s, ch, id, val).0.ready
    ensures s.ready <= Recv(s, ch, id).0.ready
  {
  }

  lemma CallsAppend(s: Sched, fd: Fd, ms: int, now: int)
    ensures s.ready <= Yield(s).ready && s.ready <= WaitEvent(s, fd).ready && s.ready <= Sleep(s, ms, now).ready
    ensures s.ready <= Finish(s).ready && s.ready <= Reap(s).ready && s.ready <= Create(s).ready
  {
  }

  lemma DispatchAppends(s: Sched, log: seq<CoId>)
    requires s.ready != [] && s.ready[0] in s.coros
    ensures log + s.ready == (log + [s.ready[0]]) + Dispatch(s).ready
  {
    assert s.ready == [s.ready[0]] + s.ready[1..];
  }

  lemma ReadyAppends<T>(w: World<T>, op: Op<T>)
    requires Enabled(w, op) && !op.OpDispatch?
    ensures w.s.ready <= Step(w, op).s.ready && Step(w, op).log == w.log
  {
    match op
    case OpFire(_, fired) => FireTimersQueues(w.s, fired);
    case OpEvent(jobs) => CreateManyAppends(w.s.(evs := w.s.evs[1..]), jobs);
    case OpSend(ch, val) => ChannelAppends(w.s, w.lines[ch].chan, ch, val);
    case OpRecv(ch) => assert w.s.ready <= Recv(w.s, w.lines[ch].chan, ch).0.ready;
    case OpWait(fd) => CallsAppend(w.s, fd, 0, 0);
    case OpSleep(ms, now) => CallsAppend(w.s, 0, ms, now);
    case _ => CallsAppend(w.s, 0, 0, 0);
  }

  lemma StepAppends<T>(w: World<T>, op: Op<T>)
    requires Enabled(w, op)
    ensures w.log + w.s.ready <= Step(w, op).log + Step(w, op).s.ready
  {
    if op.OpDispatch? {
      DispatchAppends(w.s, w.log);
    } else {
      ReadyAppends(w, op);
    }
  }

  /** Whatever happens, coroutines are dispatched in the order in which they were queued. */
  lemma {:induction false} RunAppends<T>(w: World<T>, ops: seq<Op<T>>)
    requires Possible(w, ops)
    ensures w.log + w.s.ready <= Run(w, ops).log + Run(w, ops).s.ready
    decreases |ops|
  {
    if ops != [] {
      StepAppends(w, ops[0]);
      RunAppends(Step(w, ops[0]), ops[1..]);
    }
  }

  /** Bounded waiting: the coroutine at index k is the one dispatched after exactly k others. */
  lemma BoundedWaiting<T>(w: World<T>, ops: seq<Op<T>>, k: nat)
    requires Possible(w, ops) && k < |w.s.ready| && |Run(w, ops).log| > |w.log| + k
    ensures Run(w, ops).log[|w.log| + k] == w.s.ready[k]
    ensures Distinct(w.s.ready) ==> forall j :: |w.log| <= j < |w.log| + k ==> Run(w, ops).log[j] != w.s.ready[k]
  {
    RunAppends(w, ops);
    var q, q' := w.log + w.s.ready, Run(w, ops).log + Run(w, ops).s.ready;
    assert forall j :: |w.log| <= j <= |w.log| + k ==> Run(w, ops).log[j] == q'[j] == q[j] == w.s.ready[j - |w.log|];
  }

  /** A sleep that is not positive is a yield: no timer is set, everybody who is ready gets the processor first,
      in order, and then the caller gets it back. */
  lemma YieldsToAll<T>(w: World<T>, op: Op<T>, ops: seq<Op<T>>)
    requires Enabled(w, op) && (op.OpYield? || (op.OpSleep? && op.ms <= 0)) && Possible(Step(w, op), ops)
    ensures var me, w1 := w.s.running.value, Step(w, op);
            && w1.s.running == None && w1.s.ready == w.s.ready + [me] && Is(w1.s, me, READY, InYield)
            && w1.s.timers == w.s.timers && w1.s.waiting == w.s.waiting && w1.lines == w.lines
    ensures |Run(Step(w, op), ops).log| > |w.log| + |w.s.ready| ==>
              w.log + w.s.ready + [w.s.running.value] <= Run(Step(w, op), ops).log
  {
    var w1 := Step(w, op);
    RunAppends(w1, ops);
    var q, log, ready := w.log + w.s.ready + [w.s.running.value], Run(w1, ops).log, Run(w1, ops).s.ready;
    assert w1.log + w1.s.ready == q;
    if |log| >= |q| {
      assert forall i :: 0 <= i < |q| ==> log[i] == (log + ready)[i] == q[i];
    }
  }

  // ----- rendezvous -----

  /** A receive that meets a parked sender takes its value and goes on; the sender is queued. */
  lemma ReceiverGoesOn<T>(w: World<T>, ch: ChId)
    requires HeldAreTagged(w.s, w.lines) && Shapes(w.lines) && Enabled(w, OpRecv(ch)) && w.lines[ch].chan.sendWaiter.Some?
    ensures var w1, chan := Step(w, OpRecv(ch)), w.lines[ch].chan;
            && InCoroutine(w1.s) && w1.s.running == w.s.running
            && w1.s.ready == w.s.ready + [chan.sendWaiter.value] && Is(w1.s, chan.sendWaiter.value, READY, InSend(ch))
            && chan.sendVal.Some? && Recv(w.s, chan, ch).2 == chan.sendVal
            && w1.lines[ch].handed == w.lines[ch].handed + [chan.sendVal.value]
            && w1.lines[ch].chan.sendWaiter == None && w1.lines[ch].chan.sendVal == None
  {
    assert Is(w.s, w.lines[ch].chan.sendWaiter.value, WAITING, InSend(ch));
  }

  /** A send that meets no receiver parks with its value, and a receive that meets no sender parks: the caller
      leaves the processor and is queued nowhere. */
  lemma CallerParks<T>(w: World<T>, ch: ChId, val: T)
    requires InCoroutine(w.s) && ch in w.lines
    ensures w.lines[ch].chan.recvWaiter == None ==>
              var w1 := Step(w, OpSend(ch, val));
              && w1.s.running == None && w1.s.ready == w.s.ready && Is(w1.s, w.s.running.value, WAITING, InSend(ch))
              && w1.lines[ch].chan.sendWaiter == w.s.running && w1.lines[ch].chan.sendVal == Some(val)
              && w1.lines[ch].handed == w.lines[ch].handed
    ensures w.lines[ch].chan.sendWaiter == None ==>
              var w1 := Step(w, OpRecv(ch));
              && w1.s.running == None && w1.s.ready == w.s.ready && Is(w1.s, w.s.running.value, WAITING, InRecv(ch))
              && w1.lines[ch].chan.recvWaiter == w.s.running && w1.lines[ch].chan.recvSlot == w.s.running
              && w1.lines[ch].handed == w.lines[ch].handed
  {
  }

  /** A send that meets a parked receiver returns to its caller only after that receiver has resumed. */
  lemma SenderFollowsReceiver<T>(w: World<T>, ch: ChId, val: T, w1: World<T>, ops: seq<Op<T>>, j: nat)
    requires HeldAreTagged(w.s, w.lines) && Enabled(w, OpSend(ch, val)) && w.lines[ch].chan.recvWaiter.Some?
    requires w1 == Step(w, OpSend(ch, val)) && Possible(w1, ops)
    requires |w.log| <= j < |Run(w1, ops).log| && Run(w1, ops).log[j] == w.s.running.value
    ensures exists i :: |w.log| <= i < j && Run(w1, ops).log[i] == w.lines[ch].chan.recvWaiter.value
  {
    var me, r := w.s.running.value, w.lines[ch].chan.recvWaiter.value;
    HandOffQueues(w, ch, val);
    RunAppends(w1, ops);
    FirstOfPair(w.log, w.s.ready, r, me, Run(w1, ops).log, Run(w1, ops).s.ready, j);
  }

  /** The receiver is queued ahead of the sender. */
  lemma HandOffQueues<T>(w: World<T>, ch: ChId, val: T)
    requires HeldAreTagged(w.s, w.lines) && Enabled(w, OpSend(ch, val)) && w.lines[ch].chan.recvWaiter.Some?
    ensures var me, r, w1 := w.s.running.value, w.lines[ch].chan.recvWaiter.value, Step(w, OpSend(ch, val));
            w1.s.ready == w.s.ready + [r, me] && w1.log == w.log && me !in w.s.ready && me != r
  {
  }

  lemma FirstOfPair(log: seq<CoId>, ready: seq<CoId>, r: CoId, me: CoId, log': seq<CoId>, ready': seq<CoId>, j: nat)
    requires log + (ready + [r, me]) <= log' + ready' && me !in ready && me != r
    requires |log| <= j < |log'| && log'[j] == me
    ensures |log| + |ready| < j && log'[|log| + |ready|] == r
  {
    var q, q' := log + (ready + [r, me]), log' + ready';
    var i := |log| + |ready|;
    assert forall k :: |log| <= k < i ==> q[k] == ready[k - |log|];
    assert q[i] == r && q'[j] == me;
    assert forall k :: |log| <= k <= i ==> q'[k] == q[k] && q[k] != me;
    assert q'[i] == log'[i];
  }

  /** A line hands values over only at its end. */
  lemma StepHandsOn<T>(w: World<T>, op: Op<T>, ch: ChId)
    requires Enabled(w, op) && ch in w.lines
    ensures ch in Step(w, op).lines && w.lines[ch].handed <= Step(w, op).lines[ch].handed
  {
  }

  lemma {:induction false} RunHandsOn<T>(w: World<T>, ops: seq<Op<T>>, ch: ChId)
    requires Possible(w, ops) && ch in w.lines
    ensures ch in Run(w, ops).lines && w.lines[ch].handed <= Run(w, ops).lines[ch].handed
    decreases |ops|
  {
    if ops != [] {
      StepHandsOn(w, ops[0], ch);
      RunHandsOn(Step(w, ops[0]), ops[1..], ch);
    }
  }

  /** A send that parks stays parked until a receiver has its value: at any later point either the sender
      still waits there, or its value is the next one that the channel has handed over. */
  lemma {:induction false} ParkedSendIsReceived<T>(w: World<T>, ch: ChId, c: CoId, ops: seq<Op<T>>)
    requires Safe(w) && ch in w.lines && w.lines[ch].chan.sendWaiter == Some(c)
    requires Possible(w, ops) && ChanDisciplined(w, ops, ch)
    ensures var w', k := Run(w, ops), |w.lines[ch].handed|;
            && ch in w'.lines
            && ((w'.lines[ch].chan.sendWaiter == Some(c) && Is(w'.s, c, WAITING, InSend(ch)))
                || (k < |w'.lines[ch].handed| && Some(w'.lines[ch].handed[k]) == w.lines[ch].chan.sendVal))
    decreases |ops|
  {
    if ops != [] {
      var w1 := Step(w, ops[0]);
      SafeStep(w, ops[0]);
      if ops[0] == OpRecv(ch) {
        RunHandsOn(w1, ops[1..], ch);
      } else {
        OthersLeaveParkedSend(w, ops[0], ch);
        ParkedSendIsReceived(w1, ch, c, ops[1..]);
      }
    }
  }

  lemma OthersLeaveParkedSend<T>(w: World<T>, op: Op<T>, ch: ChId)
    requires ch in w.lines && w.lines[ch].chan.sendWaiter.Some? && Shape(w.lines[ch].chan)
    requires Enabled(w, op) && ChanDiscipline(w, op, ch) && op != OpRecv(ch)
    ensures ch in Step(w, op).lines && Step(w, op).lines[ch] == w.lines[ch]
  {
  }

  lemma {:induction false} CreateManyKeeps(s: Sched, n: nat, c: CoId)
    requires c in s.coros && c < s.nextId
    ensures c in CreateMany(s, n).coros && CreateMany(s, n).coros[c] == s.coros[c]
    ensures c < CreateMany(s, n).nextId
  {
    if n > 0 {
      CreateManyKeeps(s, n - 1, c);
    }
  }

  lemma {:induction false} FireTimersKeeps(s: Sched, fired: seq<TimerEntry>, c: CoId)
    requires c in s.coros && s.coros[c].state == READY
    ensures c in FireTimers(s, fired).coros && FireTimers(s, fired).coros[c] == s.coros[c]
  {
    if fired != [] {
      FireTimersKeeps(s, fired[..|fired| - 1], c);
    }
  }

  lemma CallsKeep(s: Sched, c: CoId, fd: Fd, ms: int, now: int)
    requires c in s.coros && s.running != Some(c)
    ensures c in Yield(s).coros && Yield(s).coros[c] == s.coros[c]
    ensures c in WaitEvent(s, fd).coros && WaitEvent(s, fd).coros[c] == s.coros[c]
    ensures c in Sleep(s, ms, now).coros && Sleep(s, ms, now).coros[c] == s.coros[c]
    ensures c in Finish(s).coros && Finish(s).coros[c] == s.coros[c]
    ensures c in Reap(s).coros && Reap(s).coros[c] == s.coros[c]
    ensures c < s.nextId ==> c in Create(s).coros && Create(s).coros[c] == s.coros[c]
  {
  }

  lemma ChannelKeeps<T>(s: Sched, ch: Chan<T>, id: ChId, val: T, c: CoId)
    requires c in s.coros && s.running.Some? && s.running != Some(c) && s.coros[c].state == READY
    ensures c in Send(s, ch, id, val).0.coros && Send(s, ch, id, val).0.coros[c] == s.coros[c]
    ensures c in Recv(s, ch, id).0.coros && Recv(s, ch, id).0.coros[c] == s.coros[c]
  {
  }

  /** A ready coroutine stays as it is until it is dispatched. */
  lemma ReadyStays<T>(w: World<T>, op: Op<T>, c: CoId)
    requires w.s.running != Some(c) && c < w.s.nextId && Enabled(w, op) && c in w.s.coros && w.s.coros[c].state == READY
    requires op.OpDispatch? ==> w.s.ready[0] != c
    ensures c in Step(w, op).s.coros && Step(w, op).s.coros[c] == w.s.coros[c]
  {
    match op
    case OpFire(_, fired) => FireTimersKeeps(w.s, fired, c);
    case OpEvent(jobs) => CreateManyKeeps(w.s.(evs := w.s.evs[1..]), jobs, c);
    case OpDispatch =>
    case OpPoll(_) =>
    case OpSend(ch, val) => ChannelKeeps(w.s, w.lines[ch].chan, ch, val, c);
    case OpRecv(ch) => assert c in Recv(w.s, w.lines[ch].chan, ch).0.coros && Recv(w.s, w.lines[ch].chan, ch).0.coros[c] == w.s.coros[c];
    case OpWait(fd) => CallsKeep(w.s, c, fd, 0, 0);
    case OpSleep(ms, now) => CallsKeep(w.s, c, 0, ms, now);
    case _ => CallsKeep(w.s, c, 0, 0, 0);
  }

  /** Nobody writes the result of a receiver that the channel no longer points to. */
  lemma ResultStays<T>(w: World<T>, op: Op<T>, ch: ChId, r: CoId)
    requires Safe(w) && Enabled(w, op) && ch in w.lines && r in w.lines[ch].chan.results
    requires r in w.s.coros && w.s.coros[r].state == READY
    ensures var l := Step(w, op).lines;
            ch in l && r in l[ch].chan.results && l[ch].chan.results[r] == w.lines[ch].chan.results[r]
  {
  }

  /** The value written for a woken receiver is still there when that receiver resumes. */
  lemma {:induction false} ResultWaits<T>(w: World<T>, ch: ChId, r: CoId, ops: seq<Op<T>>)
    requires Safe(w) && ch in w.lines && r in w.lines[ch].chan.results && Is(w.s, r, READY, InRecv(ch))
    requires Possible(w, ops) && |w.log| <= |Run(w, ops).log|
    requires r !in Run(w, ops).log[|w.log|..]
    ensures var w' := Run(w, ops);
            Is(w'.s, r, READY, InRecv(ch)) && ch in w'.lines && r in w'.lines[ch].chan.results
            && w'.lines[ch].chan.results[r] == w.lines[ch].chan.results[r]
    decreases |ops|
  {
    if ops != [] {
      var w1 := Step(w, ops[0]);
      SafeStep(w, ops[0]);
      LogGrows(w1, ops[1..]);
      var log := Run(w, ops).log;
      if ops[0].OpDispatch? {
        assert log[|w.log|] in log[|w.log|..];
      }
      ReadyStays(w, ops[0], r);
      ResultStays(w, ops[0], ch, r);
      assert forall x :: x in log[|w1.log|..] ==> x in log[|w.log|..];
      ResultWaits(w1, ch, r, ops[1..]);
    }
  }

  /** What a send hands to a parked receiver is what that receiver finds when it resumes, however long that
      takes and whatever is sent in between. */
  lemma ReceiverGetsValue<T>(w: World<T>, ch: ChId, val: T, r: CoId, ops: seq<Op<T>>)
    requires Safe(w) && Enabled(w, OpSend(ch, val)) && w.lines[ch].chan.recvWaiter == Some(r)
    requires Possible(Step(w, OpSend(ch, val)), ops)
    requires |w.log| <= |Run(Step(w, OpSend(ch, val)), ops).log|
    requires r !in Run(Step(w, OpSend(ch, val)), ops).log[|w.log|..]
    ensures var w' := Run(Step(w, OpSend(ch, val)), ops);
            Is(w'.s, r, READY, InRecv(ch)) && ch in w'.lines
            && r in w'.lines[ch].chan.results && w'.lines[ch].chan.results[r] == val
  {
    HandOffWrites(w, ch, val, r);
    SafeStep(w, OpSend(ch, val));
    ResultWaits(Step(w, OpSend(ch, val)), ch, r, ops);
  }

  lemma HandOffWrites<T>(w: World<T>, ch: ChId, val: T, r: CoId)
    requires HeldAreTagged(w.s, w.lines) && Shapes(w.lines) && Enabled(w, OpSend(ch, val)) && w.lines[ch].chan.recvWaiter == Some(r)
    ensures var w1 := Step(w, OpSend(ch, val));
            && Is(w1.s, r, READY, InRecv(ch)) && ch in w1.lines && w1.log == w.log
            && r in w1.lines[ch].chan.results && w1.lines[ch].chan.results[r] == val
  {
  }

  lemma {:induction false} LogGrows<T>(w: World<T>, ops: seq<Op<T>>)
    requires Possible(w, ops)
    ensures w.log <= Run(w, ops).log
    decreases |ops|
  {
    if ops != [] {
      LogGrows(Step(w, ops[0]), ops[1..]);
    }
  }

  // ----- channels and timers over whole runs -----

  /** Without any discipline: never a parked sender and a parked receiver together, recv_slot_ set exactly
      when recv_waiter_ is. */
  lemma {:induction false} ShapesAlways<T>(w: World<T>, ops: seq<Op<T>>)
    requires Shapes(w.lines) && Possible(w, ops)
    ensures Shapes(Run(w, ops).lines)
    decreases |ops|
  {
    if ops != [] {
      ShapesStep(w, ops[0]);
      ShapesAlways(Step(w, ops[0]), ops[1..]);
    }
  }

  /** Every send on this channel in the run meets a parked receiver or no parked sender. */
  ghost predicate ChanDisciplined<T>(w: World<T>, ops: seq<Op<T>>, ch: ChId)
    requires Possible(w, ops)
    decreases |ops|
  {
    ops != [] ==> ChanDiscipline(w, ops[0], ch) && ChanDisciplined(Step(w, ops[0]), ops[1..], ch)
  }

  /** How many of the values sent are neither handed over nor held for a parked sender. */
  function Missing<T>(l: Line<T>): int {
    |l.sent| - |l.handed| - |Parked(l.chan)|
  }

  /** A step keeps the number, but for a send over a parked sender, which loses one value. */
  lemma MissingStep<T>(w: World<T>, op: Op<T>, ch: ChId)
    requires Shapes(w.lines) && ch in w.lines && Enabled(w, op)
    ensures ch in Step(w, op).lines
    ensures Missing(Step(w, op).lines[ch]) == Missing(w.lines[ch]) + if ChanDiscipline(w, op, ch) then 0 else 1
  {
  }

  /** A value once missing is missing for good. */
  lemma {:induction false} MissingRun<T>(w: World<T>, ops: seq<Op<T>>, ch: ChId)
    requires Shapes(w.lines) && ch in w.lines && Possible(w, ops)
    ensures ch in Run(w, ops).lines && Missing(Run(w, ops).lines[ch]) >= Missing(w.lines[ch])
    decreases |ops|
  {
    if ops != [] {
      ShapesStep(w, ops[0]);
      MissingStep(w, ops[0], ch);
      MissingRun(Step(w, ops[0]), ops[1..], ch);
    }
  }

  lemma OrderMissesNothing<T>(l: Line<T>)
    requires InOrder(l)
    ensures Missing(l) == 0
  {
  }

  /** After any run, whatever else happened in it, the values of a channel were handed over exactly once and in
      order if and only if no send on this channel met a parked sender. */
  lemma {:induction false} InOrderIff<T>(w: World<T>, ops: seq<Op<T>>, ch: ChId)
    requires Shapes(w.lines) && ch in w.lines && InOrder(w.lines[ch]) && Possible(w, ops)
    ensures ch in Run(w, ops).lines
    ensures InOrder(Run(w, ops).lines[ch]) <==> ChanDisciplined(w, ops, ch)
    decreases |ops|
  {
    if ops != [] {
      var w1 := Step(w, ops[0]);
      ShapesStep(w, ops[0]);
      MissingStep(w, ops[0], ch);
      OrderMissesNothing(w.lines[ch]);
      if ChanDiscipline(w, ops[0], ch) {
        InOrderStep(w, ops[0], ch);
        InOrderIff(w1, ops[1..], ch);
      } else {
        MissingRun(w1, ops[1..], ch);
        assert Missing(Run(w, ops).lines[ch]) >= 1;
        if InOrder(Run(w, ops).lines[ch]) {
          OrderMissesNothing(Run(w, ops).lines[ch]);
        }
      }
    }
  }

  /** From the first use of the channels on. */
  lemma DeliveredInOrder<T>(pipe: Fd, channels: set<ChId>, ops: seq<Op<T>>, ch: ChId)
    requires ch in channels && Possible(Start<T>(pipe, channels), ops)
    ensures var w := Run(Start<T>(pipe, channels), ops);
            && ch in w.lines
            && (w.lines[ch].sent == w.lines[ch].handed + Parked(w.lines[ch].chan) <==> ChanDisciplined(Start<T>(pipe, channels), ops, ch))
  {
    StartHolds<T>(pipe, channels);
    InOrderIff(Start<T>(pipe, channels), ops, ch);
  }

  /** One expiry pass wakes exactly the sleepers that are due, in the order of their deadlines. */
  lemma FireIsExact<T>(w: World<T>, now: int, fired: seq<TimerEntry>, e: TimerEntry)
    requires HeldAreTagged(w.s, w.lines) && Enabled(w, OpFire(now, fired)) && e in w.s.timers
    ensures var s' := Step(w, OpFire(now, fired)).s;
            && s'.ready == w.s.ready + Sleepers(fired) && ByDeadline(fired)
            && (e in fired <==> e.expire <= now) && (e in s'.timers <==> now < e.expire)
            && (e in fired ==> e.co in Sleepers(fired)) && e.co !in w.s.ready
  {
    FireTimersPops(w.s, fired);
    FireTimersQueues(w.s, fired);
    assert Is(w.s, e.co, WAITING, InSleep(e.expire));
    assert e in fired <==> e in multiset(fired);
    if e in fired {
      var i :| 0 <= i < |fired| && fired[i] == e;
      assert Sleepers(fired)[i] == e.co;
    }
  }

  /** No expiry pass of the run happens at or after the deadline. */
  predicate NeverDue<T>(ops: seq<Op<T>>, deadline: int) {
    forall i :: 0 <= i < |ops| && ops[i].OpFire? ==> ops[i].now < deadline
  }

  /** A sleeper never wakes before its deadline, whatever else the thread does. */
  lemma {:induction false} SleepsUntilDue<T>(w: World<T>, e: TimerEntry, ops: seq<Op<T>>)
    requires Safe(w) && e in w.s.timers && Possible(w, ops) && NeverDue(ops, e.expire)
    ensures e in Run(w, ops).s.timers && Is(Run(w, ops).s, e.co, WAITING, InSleep(e.expire))
    decreases |ops|
  {
    if ops != [] {
      SafeStep(w, ops[0]);
      SleepStep(w, e, ops[0]);
      SleepsUntilDue(Step(w, ops[0]), e, ops[1..]);
    }
  }

  /** A sleep of ms milliseconds that starts at time `now` outlasts every expiry pass before now + ms. */
  lemma SleepLasts<T>(w: World<T>, ms: int, now: int, ops: seq<Op<T>>)
    requires Safe(w) && Enabled(w, OpSleep(ms, now)) && ms > 0
    requires Possible(Step(w, OpSleep(ms, now)), ops) && NeverDue(ops, now + ms)
    ensures Is(Run(Step(w, OpSleep(ms, now)), ops).s, w.s.running.value, WAITING, InSleep(now + ms))
  {
    SafeStep(w, OpSleep(ms, now));
    SleepsUntilDue(Step(w, OpSleep(ms, now)), TimerEntry(now + ms, w.s.running.value), ops);
  }

  lemma {:induction false} CreateManyTimers(s: Sched, n: nat)
    ensures CreateMany(s, n).timers == s.timers
  {
    if n > 0 {
      CreateManyTimers(s, n - 1);
    }
  }

  lemma SleepStep<T>(w: World<T>, e: TimerEntry, op: Op<T>)
    requires e in w.s.timers && Enabled(w, op) && (op.OpFire? ==> op.now < e.expire)
    ensures e in Step(w, op).s.timers
  {
    match op
    case OpFire(now, fired) =>
      FireTimersPops(w.s, fired);
      assert e !in multiset(fired);
    case OpEvent(jobs) => CreateManyTimers(w.s.(evs := w.s.evs[1..]), jobs);
    case _ =>
  }

  // ----- what a broken discipline costs -----

  /** A coroutine that no container names. */
  ghost predicate Lost<T>(w: World<T>, c: CoId) {
    && c in w.s.coros && c < w.s.nextId && w.s.running != Some(c) && c !in w.s.ready
    && (forall fd :: fd in w.s.waiting ==> w.s.waiting[fd] != c)
    && (forall e :: e in w.s.timers ==> e.co != c)
    && (forall ch :: ch in w.lines ==> w.lines[ch].chan.sendWaiter != Some(c) && w.lines[ch].chan.recvWaiter != Some(c))
  }

  lemma NowhereIsLost<T>(w: World<T>, c: CoId)
    requires c in w.s.coros && c < w.s.nextId && forall p :: !Holds(w, p, c)
    ensures Lost(w, c)
  {
    assert !Holds(w, OnProcessor, c);
    forall i | 0 <= i < |w.s.ready| ensures w.s.ready[i] != c { assert !Holds(w, InReady(i), c); }
    forall fd | fd in w.s.waiting ensures w.s.waiting[fd] != c { assert !Holds(w, OnFd(fd), c); }
    forall e | e in w.s.timers ensures e.co != c { assert !Holds(w, InTimer(e, 0), c); }
    forall ch | ch in w.lines ensures w.lines[ch].chan.sendWaiter != Some(c) && w.lines[ch].chan.recvWaiter != Some(c) {
      assert !Holds(w, AsSender(ch), c) && !Holds(w, AsReceiver(ch), c);
    }
  }

  lemma {:induction false} CreateManyLoses<T>(w: World<T>, n: nat, c: CoId)
    requires Lost(w, c)
    ensures Lost(w.(s := CreateMany(w.s, n)), c) && CreateMany(w.s, n).coros[c] == w.s.coros[c]
  {
    if n > 0 {
      CreateManyLoses(w, n - 1, c);
    }
  }

  lemma {:induction false} FireTimersLoses<T>(w: World<T>, fired: seq<TimerEntry>, c: CoId)
    requires Lost(w, c) && forall e :: e in fired ==> e in w.s.timers
    ensures Lost(w.(s := FireTimers(w.s, fired)), c) && FireTimers(w.s, fired).coros[c] == w.s.coros[c]
  {
    if fired != [] {
      FireTimersLoses(w, fired[..|fired| - 1], c);
    }
  }

  lemma LostStep<T>(w: World<T>, op: Op<T>, c: CoId)
    requires Lost(w, c) && Enabled(w, op)
    ensures Lost(Step(w, op), c) && Step(w, op).s.coros[c] == w.s.coros[c]
  {
    match op
    case OpFire(_, fired) =>
      forall e | e in fired ensures e in w.s.timers { assert e in multiset(fired); }
      FireTimersLoses(w, fired, c);
    case OpEvent(jobs) => CreateManyLoses(w.(s := w.s.(evs := w.s.evs[1..])), jobs, c);
    case OpSend(ch, val) => LostOnChannel(w, op, ch, c);
    case OpRecv(ch) => LostOnChannel(w, op, ch, c);
    case OpDispatch => LostInLoop(w, op, c);
    case OpReap => LostInLoop(w, op, c);
    case OpPoll(_) => LostInLoop(w, op, c);
    case _ => LostOnCall(w, op, c);
  }

  lemma LostOnChannel<T>(w: World<T>, op: Op<T>, ch: ChId, c: CoId)
    requires Lost(w, c) && Enabled(w, op) && (op == OpRecv(ch) || (op.OpSend? && op.ch == ch))
    ensures Lost(Step(w, op), c) && Step(w, op).s.coros[c] == w.s.coros[c]
  {
  }

  lemma LostInLoop<T>(w: World<T>, op: Op<T>, c: CoId)
    requires Lost(w, c) && Enabled(w, op) && (op.OpDispatch? || op.OpReap? || op.OpPoll?)
    ensures Lost(Step(w, op), c) && Step(w, op).s.coros[c] == w.s.coros[c]
  {
  }

  lemma LostOnCall<T>(w: World<T>, op: Op<T>, c: CoId)
    requires Lost(w, c) && Enabled(w, op)
    requires op.OpCreate? || op.OpYield? || op.OpWait? || op.OpSleep? || op.OpFinish?
    ensures Lost(Step(w, op), c) && Step(w, op).s.coros[c] == w.s.coros[c]
  {
  }

  /** A stranded coroutine is stranded for good: it keeps its tag, and nothing will ever resume it. */
  lemma {:induction false} LostForever<T>(w: World<T>, ops: seq<Op<T>>, c: CoId)
    requires Lost(w, c) && Possible(w, ops)
    ensures Lost(Run(w, ops), c) && Run(w, ops).s.coros[c] == w.s.coros[c]
    decreases |ops|
  {
    if ops != [] {
      LostStep(w, ops[0], c);
      LostForever(Step(w, ops[0]), ops[1..], c);
    }
  }

  /** So is the first of two coroutines that wait on one fd, whatever happens after the second wait. */
  lemma OverwriteStrandsForever<T>(w: World<T>, fd: Fd, ops: seq<Op<T>>)
    requires Safe(w) && Enabled(w, OpWait(fd)) && fd in w.s.waiting && Possible(Step(w, OpWait(fd)), ops)
    ensures var w' := Run(Step(w, OpWait(fd)), ops);
            Lost(w', w.s.waiting[fd]) && Is(w'.s, w.s.waiting[fd], WAITING, InWait(fd))
  {
    var w1, c := Step(w, OpWait(fd)), w.s.waiting[fd];
    forall p ensures !Holds(w1, p, c) {
      OverwriteStrands(w, fd, p);
    }
    OverwriteStrands(w, fd, OnProcessor);
    NowhereIsLost(w1, c);
    LostForever(w1, ops, c);
  }

  /** And so is a sender (receiver) whose field a second sender (receiver) overwrites. */
  lemma ChannelStrandsForever<T>(w: World<T>, ch: ChId, op: Op<T>, c: CoId, ops: seq<Op<T>>)
    requires Safe(w) && Enabled(w, op) && ch in w.lines && Possible(Step(w, op), ops)
    requires if op.OpSend? then op.ch == ch && w.lines[ch].chan.sendWaiter == Some(c)
             else op == OpRecv(ch) && w.lines[ch].chan.recvWaiter == Some(c)
    requires !Discipline(w, op)
    ensures Lost(Run(Step(w, op), ops), c)
    ensures Is(Run(Step(w, op), ops).s, c, WAITING, if op.OpSend? then InSend(ch) else InRecv(ch))
  {
    OverwrittenIsLost(w, ch, op, c);
    LostForever(Step(w, op), ops, c);
  }

  lemma OverwrittenIsLost<T>(w: World<T>, ch: ChId, op: Op<T>, c: CoId)
    requires HeldAreTagged(w.s, w.lines) && Numbered(w.s) && Enabled(w, op) && ch in w.lines
    requires if op.OpSend? then op.ch == ch && w.lines[ch].chan.sendWaiter == Some(c)
             else op == OpRecv(ch) && w.lines[ch].chan.recvWaiter == Some(c)
    requires !Discipline(w, op)
    ensures Lost(Step(w, op), c)
    ensures Is(Step(w, op).s, c, WAITING, if op.OpSend? then InSend(ch) else InRecv(ch))
  {
  }

  /** Somebody waits on the fd, while another coroutine that waited on it before is woken but not yet resumed. */
  predicate Robbed<T>(w: World<T>, fd: Fd, c: CoId) {
    && c in w.s.ready && c < w.s.nextId && w.s.running != Some(c) && Is(w.s, c, READY, InWait(fd))
    && fd in w.s.waiting && fd !in w.s.evs
  }

  lemma RobbedStep<T>(w: World<T>, op: Op<T>, fd: Fd, c: CoId)
    requires Robbed(w, fd, c) && Enabled(w, op) && (op.OpDispatch? ==> w.s.ready[0] != c)
    ensures Robbed(Step(w, op), fd, c)
  {
    ReadyStays(w, op, c);
    assert w.s.ready != [];
    match op
    case OpDispatch => assert w.s.ready == [w.s.ready[0]] + w.s.ready[1..];
    case OpFire(_, fired) =>
      FireTimersQueues(w.s, fired);
      FireTimersWaits(w.s, fired);
    case OpEvent(jobs) =>
      CreateManyAppends(w.s.(evs := w.s.evs[1..]), jobs);
      CreateManyWaits(w.s.(evs := w.s.evs[1..]), jobs);
    case _ =>
  }

  lemma {:induction false} FireTimersWaits(s: Sched, fired: seq<TimerEntry>)
    ensures var s' := FireTimers(s, fired);
            s'.waiting == s.waiting && s'.evs == s.evs && s'.epoll == s.epoll && s'.running == s.running && s'.nextId == s.nextId && s'.pipe == s.pipe
  {
    if fired != [] {
      FireTimersWaits(s, fired[..|fired| - 1]);
    }
  }

  lemma {:induction false} CreateManyWaits(s: Sched, n: nat)
    ensures var s' := CreateMany(s, n);
            s'.waiting == s.waiting && s'.evs == s.evs && s'.epoll == s.epoll && s'.running == s.running && s'.nextId >= s.nextId && s'.pipe == s.pipe
  {
    if n > 0 {
      CreateManyWaits(s, n - 1);
    }
  }

  lemma {:induction false} RobbedUntilResumed<T>(w: World<T>, ops: seq<Op<T>>, fd: Fd, c: CoId)
    requires Robbed(w, fd, c) && Possible(w, ops) && |w.log| <= |Run(w, ops).log| && c !in Run(w, ops).log[|w.log|..]
    ensures Robbed(Run(w, ops), fd, c)
    decreases |ops|
  {
    if ops != [] {
      var w1, log := Step(w, ops[0]), Run(w, ops).log;
      LogGrows(w1, ops[1..]);
      if ops[0].OpDispatch? {
        assert log[|w.log|] in log[|w.log|..];
      }
      RobbedStep(w, ops[0], fd, c);
      assert forall x :: x in log[|w1.log|..] ==> x in log[|w.log|..];
      RobbedUntilResumed(w1, ops[1..], fd, c);
    }
  }

  /** Somebody waits on the fd, but the kernel does not watch it and no event for it is on its way. */
  predicate Disarmed<T>(w: World<T>, fd: Fd) {
    fd in w.s.waiting && fd !in w.s.epoll && fd !in w.s.evs
  }

  lemma DisarmedStep<T>(w: World<T>, op: Op<T>, fd: Fd)
    requires Disarmed(w, fd) && Enabled(w, op)
    ensures Disarmed(Step(w, op), fd)
  {
    match op
    case OpFire(_, fired) => FireTimersWaits(w.s, fired);
    case OpEvent(jobs) => CreateManyWaits(w.s.(evs := w.s.evs[1..]), jobs);
    case _ =>
  }

  /** And that does not mend: later waits on the fd take the MOD branch, which fails. */
  lemma {:induction false} DisarmedForever<T>(w: World<T>, ops: seq<Op<T>>, fd: Fd)
    requires Disarmed(w, fd) && Possible(w, ops)
    ensures Disarmed(Run(w, ops), fd)
    decreases |ops|
  {
    if ops != [] {
      DisarmedStep(w, ops[0], fd);
      DisarmedForever(Step(w, ops[0]), ops[1..], fd);
    }
  }

  /** A wait on the wake-up pipe never ends: its events are for the post queue. */
  lemma {:induction false} PipeWaitsForever<T>(w: World<T>, ops: seq<Op<T>>)
    requires w.s.pipe in w.s.waiting && Possible(w, ops)
    ensures Run(w, ops).s.pipe == w.s.pipe && w.s.pipe in Run(w, ops).s.waiting
    decreases |ops|
  {
    if ops != [] {
      PipeWaitsStep(w, ops[0]);
      PipeWaitsForever(Step(w, ops[0]), ops[1..]);
    }
  }

  lemma PipeWaitsStep<T>(w: World<T>, op: Op<T>)
    requires w.s.pipe in w.s.waiting && Enabled(w, op)
    ensures Step(w, op).s.pipe == w.s.pipe && w.s.pipe in Step(w, op).s.waiting
  {
    match op
    case OpFire(_, fired) => FireTimersWaits(w.s, fired);
    case OpEvent(jobs) => CreateManyWaits(w.s.(evs := w.s.evs[1..]), jobs);
    case _ =>
  }

  /** A wait on an fd whose earlier waiter c is woken but not yet resumed: when c resumes, its DEL takes the
      registration away from the new waiter, and from then on the fd is waited for and never watched. */
  lemma SecondWaitIsDisarmed<T>(w: World<T>, fd: Fd, c: CoId, ops: seq<Op<T>>, more: seq<Op<T>>)
    requires Safe(w) && Registered(w.s) && Enabled(w, OpWait(fd)) && Is(w.s, c, READY, InWait(fd)) && c in w.s.ready
    requires var w1 := Step(w, OpWait(fd));
             Possible(w1, ops) && |w1.log| <= |Run(w1, ops).log| && c !in Run(w1, ops).log[|w1.log|..]
    requires var w2 := Run(Step(w, OpWait(fd)), ops);
             Enabled(w2, OpDispatch) && w2.s.ready[0] == c && Possible(Step(w2, OpDispatch), more)
    ensures Step(w, OpWait(fd)).s.waiting[fd] == w.s.running.value
    ensures Disarmed(Run(Step(Run(Step(w, OpWait(fd)), ops), OpDispatch), more), fd)
  {
    var w1 := Step(w, OpWait(fd));
    WokenIsRobbed(w, fd, c);
    RobbedUntilResumed(w1, ops, fd, c);
    DisarmedForever(Step(Run(w1, ops), OpDispatch), more, fd);
  }

  lemma WokenIsRobbed<T>(w: World<T>, fd: Fd, c: CoId)
    requires Safe(w) && Registered(w.s) && InCoroutine(w.s) && Is(w.s, c, READY, InWait(fd)) && c in w.s.ready
    ensures Robbed(w.(s := WaitEvent(w.s, fd)), fd, c)
  {
    NoLostWakeUp(w, fd);
    assert Woken(w.s, fd);
    assert fd != w.s.pipe;
  }

  // ----- runs of a new thread that come to this -----

  /** Two coroutines have been created, the first is on the processor. */
  predicate TwoCreated(w: World<int>) {
    && InCoroutine(w.s) && w.s.running == Some(1) && w.s.ready == [2] && Is(w.s, 2, READY, Nowhere)
    && w.s.nextId == 3 && w.s.evs == [] && w.s.waiting == map[] && w.s.timers == multiset{} && w.s.pipe == 3
    && w.s.epoll == map[3 := true]
  }

  lemma TwoCreatedIsReachable(channels: set<ChId>) returns (ops: seq<Op<int>>)
    ensures Possible(Start<int>(3, channels), ops)
    ensures TwoCreated(Run(Start<int>(3, channels), ops))
    ensures Run(Start<int>(3, channels), ops).lines == Start<int>(3, channels).lines
  {
    var w0 := Start<int>(3, channels);
    ops := [];
    var w := w0;
    RunJoins(w0, ops, OpCreate);
    ops, w := ops + [OpCreate], Step(w, OpCreate);
    RunJoins(w0, ops, OpCreate);
    ops, w := ops + [OpCreate], Step(w, OpCreate);
    assert w.s.ready == [1, 2];
    RunJoins(w0, ops, OpDispatch);
    ops := ops + [OpDispatch];
  }

  /** The first waits for fd 5 and the second for fd 6. */
  predicate BothWait(w: World<int>) {
    && w.s.running == None && w.s.ready == [] && w.s.evs == [] && w.s.pipe == 3
    && Is(w.s, 1, WAITING, InWait(5)) && Is(w.s, 2, WAITING, InWait(6))
    && w.s.waiting == map[5 := 1, 6 := 2] && w.s.epoll == map[3 := true, 5 := true, 6 := true]
  }

  lemma BothWaitIsReachable() returns (ops: seq<Op<int>>)
    ensures Possible(Start<int>(3, {}), ops) && BothWait(Run(Start<int>(3, {}), ops))
  {
    var w0 := Start<int>(3, {});
    ops := TwoCreatedIsReachable({});
    var w := Run(w0, ops);
    RunJoins(w0, ops, OpWait(5));
    ops, w := ops + [OpWait(5)], Step(w, OpWait(5));
    RunJoins(w0, ops, OpDispatch);
    ops, w := ops + [OpDispatch], Step(w, OpDispatch);
    assert w.s.ready == [];
    RunJoins(w0, ops, OpWait(6));
    ops := ops + [OpWait(6)];
  }

  /** Both are woken, the second first. */
  predicate BothWoken(w: World<int>) {
    && w.s.running == None && w.s.ready == [2, 1] && w.s.evs == []
    && Is(w.s, 1, READY, InWait(5)) && Is(w.s, 2, READY, InWait(6)) && w.s.waiting == map[]
  }

  predicate BothReported(w: World<int>) {
    && w.s.running == None && w.s.ready == [] && w.s.evs == [6, 5] && w.s.pipe == 3
    && Is(w.s, 1, WAITING, InWait(5)) && Is(w.s, 2, WAITING, InWait(6)) && w.s.waiting == map[5 := 1, 6 := 2]
  }

  lemma BothReportedIsReachable() returns (ops: seq<Op<int>>)
    ensures Possible(Start<int>(3, {}), ops) && BothReported(Run(Start<int>(3, {}), ops))
  {
    var w0 := Start<int>(3, {});
    ops := BothWaitIsReachable();
    RunJoins(w0, ops, OpPoll([6, 5]));
    ops := ops + [OpPoll([6, 5])];
  }

  lemma BothWokenIsReachable() returns (ops: seq<Op<int>>)
    ensures Possible(Start<int>(3, {}), ops) && BothWoken(Run(Start<int>(3, {}), ops))
  {
    var w0 := Start<int>(3, {});
    ops := BothReportedIsReachable();
    var w := Run(w0, ops);
    RunJoins(w0, ops, OpEvent(0));
    ops, w := ops + [OpEvent(0)], Step(w, OpEvent(0));
    assert w.s.evs == [5];
    RunJoins(w0, ops, OpEvent(0));
    ops, w := ops + [OpEvent(0)], Step(w, OpEvent(0));
    assert w.s.evs == [];
  }

  /** The second resumes and waits for fd 5 before the first has resumed: the new wait ends up disarmed. */
  lemma DisarmingIsReachable() returns (ops: seq<Op<int>>)
    ensures Possible(Start<int>(3, {}), ops)
    ensures var w := Run(Start<int>(3, {}), ops);
            Disarmed(w, 5) && w.s.waiting[5] == 2 && Is(w.s, 2, WAITING, InWait(5))
  {
    var w0 := Start<int>(3, {});
    ops := BothWokenIsReachable();
    var w := Run(w0, ops);
    RunJoins(w0, ops, OpDispatch);
    ops, w := ops + [OpDispatch], Step(w, OpDispatch);
    assert w.s.ready == [1];
    RunJoins(w0, ops, OpWait(5));
    ops, w := ops + [OpWait(5)], Step(w, OpWait(5));
    RunJoins(w0, ops, OpDispatch);
    ops := ops + [OpDispatch];
  }

  /** Two sends, or two receives, on the same unused channel: the first coroutine is lost. */
  lemma ChannelStrandingIsReachable(op: Op<int>) returns (ops: seq<Op<int>>)
    requires op == OpSend(0, 7) || op == OpRecv(0)
    ensures Possible(Start<int>(3, {0}), ops) && Lost(Run(Start<int>(3, {0}), ops), 1)
  {
    var w0 := Start<int>(3, {0});
    ops := TwoCreatedIsReachable({0});
    var w := Run(w0, ops);
    RunJoins(w0, ops, op);
    ops, w := ops + [op], Step(w, op);
    RunJoins(w0, ops, OpDispatch);
    ops, w := ops + [OpDispatch], Step(w, OpDispatch);
    assert w.s.ready == [];
    RunJoins(w0, ops, op);
    ops := ops + [op];
  }
}
