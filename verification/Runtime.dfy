/** The loop of run() over the Scheduler and Channel objects, with everything outside it arbitrary: what the
    coroutines call, what the clock shows, what epoll_wait reports and what other threads post. */
module Runtime {
  import opened Bytes
  import opened TimerHeap
  import opened Machine
  import opened Invariants
  import opened Scheduling
  import opened Schedulers
  import opened Turns

  /** This run of the machine leads from the start to this state. */
  ghost predicate Leads<T>(pipe: Fd, channels: set<ChId>, ops: seq<Op<T>>, w: World<T>) {
    Possible(Start<T>(pipe, channels), ops) && Run(Start<T>(pipe, channels), ops) == w
  }

  lemma StartLeads<T>(pipe: Fd, channels: set<ChId>)
    ensures Leads<T>(pipe, channels, [], Start<T>(pipe, channels))
  {
  }

  lemma RunLeads<T>(pipe: Fd, channels: set<ChId>, before: seq<Op<T>>, w: World<T>, ops: seq<Op<T>>)
    requires Leads(pipe, channels, before, w) && Possible(w, ops)
    ensures Leads(pipe, channels, before + ops, Run(w, ops))
  {
    RunConcat(Start<T>(pipe, channels), before, ops);
  }

  lemma StepLeads<T>(pipe: Fd, channels: set<ChId>, before: seq<Op<T>>, w: World<T>, op: Op<T>)
    requires Leads(pipe, channels, before, w) && Enabled(w, op)
    ensures Leads(pipe, channels, before + [op], Step(w, op))
  {
    RunJoins(Start<T>(pipe, channels), before, op);
  }

  /** What is true of a thread at any time: without any discipline, and with each part of it. */
  lemma LeadsToSafety<T>(pipe: Fd, channels: set<ChId>, ops: seq<Op<T>>, w: World<T>)
    requires Leads(pipe, channels, ops, w)
    ensures Safe(w) && Accounted(w.s, w.reaped) && PipeWatched(w.s)
    ensures FdDisciplined(Start<T>(pipe, channels), ops) ==> Registered(w.s)
    ensures Disciplined(Start<T>(pipe, channels), ops) ==> Inv(w)
    ensures forall ch :: ch in channels ==> ch in w.lines && (InOrder(w.lines[ch]) <==> ChanDisciplined(Start<T>(pipe, channels), ops, ch))
  {
    var w0 := Start<T>(pipe, channels);
    StartHolds<T>(pipe, channels);
    SafeRun(w0, ops);
    AccountedRun(w0, ops);
    PipeWatchedRun(w0, ops);
    if FdDisciplined(w0, ops) {
      RegisteredRun(w0, ops);
    }
    if Disciplined(w0, ops) {
      RunHolds(w0, ops);
    }
    forall ch | ch in channels ensures ch in w.lines && (InOrder(w.lines[ch]) <==> ChanDisciplined(w0, ops, ch)) {
      InOrderIff(w0, ops, ch);
    }
  }

  lemma WaitersAreAlive<T>(pipe: Fd, channels: set<ChId>, ops: seq<Op<T>>, w: World<T>, ch: ChId)
    requires Leads(pipe, channels, ops, w) && ch in w.lines
    ensures w.lines[ch].chan.recvWaiter.Some? ==> w.lines[ch].chan.recvWaiter.value in w.s.coros
    ensures w.lines[ch].chan.sendWaiter.Some? ==> w.lines[ch].chan.sendWaiter.value in w.s.coros
  {
    LeadsToSafety(pipe, channels, ops, w);
  }

  lemma FrontIsAlive<T>(pipe: Fd, channels: set<ChId>, ops: seq<Op<T>>, w: World<T>)
    requires Leads(pipe, channels, ops, w) && w.s.ready != []
    ensures w.s.ready[0] in w.s.coros
  {
    LeadsToSafety(pipe, channels, ops, w);
  }

  lemma PipeIsRegistered<T>(pipe: Fd, channels: set<ChId>, ops: seq<Op<T>>, w: World<T>)
    requires Leads(pipe, channels, ops, w)
    ensures w.s.pipe in w.s.epoll
  {
    LeadsToSafety(pipe, channels, ops, w);
  }

  /** A call either suspends its caller or returns to it. */
  lemma CallReturnsOrParks<T>(pipe: Fd, channels: set<ChId>, ops: seq<Op<T>>, w: World<T>, c: CoCall<T>)
    requires Leads(pipe, channels, ops, w) && InCoroutine(w.s) && Enabled(w, OpOf(c))
    ensures var s := Step(w, OpOf(c)).s;
            (s.running == None || InCoroutine(s)) && s.evs == w.s.evs
  {
    match c
    case DoRecv(ch) => SenderIsAnother(pipe, channels, ops, w, ch);
    case DoCreate(_) => NextIsFresh(pipe, channels, ops, w);
    case _ =>
  }

  lemma SenderIsAnother<T>(pipe: Fd, channels: set<ChId>, ops: seq<Op<T>>, w: World<T>, ch: ChId)
    requires Leads(pipe, channels, ops, w) && InCoroutine(w.s) && ch in w.lines
    ensures w.lines[ch].chan.sendWaiter != w.s.running
  {
    LeadsToSafety(pipe, channels, ops, w);
  }

  lemma NextIsFresh<T>(pipe: Fd, channels: set<ChId>, ops: seq<Op<T>>, w: World<T>)
    requires Leads(pipe, channels, ops, w)
    ensures w.s.nextId !in w.s.coros
  {
    LeadsToSafety(pipe, channels, ops, w);
  }

  lemma FireLeads<T>(pipe: Fd, channels: set<ChId>, ops: seq<Op<T>>, w: World<T>, now: int, fired: seq<TimerEntry>,
                     heap: seq<TimerEntry>, heap1: seq<TimerEntry>)
    requires Leads(pipe, channels, ops, w) && w.s.running == None && w.s.evs == []
    requires w.s.timers == multiset(heap) && Passed(heap, now, fired, heap1)
    ensures Leads(pipe, channels, ops + [OpFire(now, fired)], w.(s := FireTimers(w.s, fired)))
    ensures FireTimers(w.s, fired).running == None && FireTimers(w.s, fired).evs == []
  {
    PassedIsDue(heap, now, fired, heap1);
    StepLeads(pipe, channels, ops, w, OpFire(now, fired));
    FireTimersIdle(w.s, fired);
  }

  lemma AllEvents<T>(pipe: Fd, channels: set<ChId>, ops: seq<Op<T>>, w: World<T>, jobs: nat)
    requires Leads(pipe, channels, ops, w) && w.s.running == None
    ensures Leads(pipe, channels, ops + EventOps(w.s.evs, w.s.pipe, jobs), w.(s := HandleAll(w.s, jobs)))
    ensures HandleAll(w.s, jobs).running == None && HandleAll(w.s, jobs).evs == []
    ensures forall fd :: fd in w.s.evs && fd in w.s.waiting && fd != w.s.pipe ==> w.s.waiting[fd] in HandleAll(w.s, jobs).ready
  {
    HandleAllIsRun(w, jobs);
    RunLeads(pipe, channels, ops, w, EventOps(w.s.evs, w.s.pipe, jobs));
    HandleAllIdle(w.s, jobs);
    forall fd | fd in w.s.evs && fd in w.s.waiting && fd != w.s.pipe ensures w.s.waiting[fd] in HandleAll(w.s, jobs).ready {
      HandleAllWakes(w.s, jobs, fd);
    }
  }

  lemma NextIdAfter<T>(w: World<T>, c: CoCall<T>)
    requires Enabled(w, OpOf(c))
    ensures Step(w, OpOf(c)).s.nextId == w.s.nextId + |Created(c)|
  {
  }

  function Created<T>(c: CoCall<T>): seq<Job> {
    if c.DoCreate? then [c.f] else []
  }

  lemma MetCall<T>(r: Record<T>, c: CoCall<T>)
    ensures Met(r, Calls(c)) == Record(r.history + [OpOf(c)], r.queue, r.bodies + Created(c))
  {
  }

  /** A posted job is never without a byte in the pipe, even if writes have failed because it was full. */
  predicate Noticed(sched: Scheduler)
    reads sched
  {
    0 < sched.pipeCapacity && sched.pipeBytes <= sched.pipeCapacity && (sched.postQueue != [] ==> sched.pipeBytes > 0)
  }

  class Thread<T> {
    const sched: Scheduler
    const channels: map<ChId, Channel<T>>
    ghost var world: World<T>
    ghost var history: seq<Op<T>>
    ghost var bodies: seq<Job>

    /** The objects hold what the machine's state says. */
    ghost predicate Shows(w: World<T>)
      reads sched, channels.Values
    {
      && sched.Valid() && sched.View() == w.s && Noticed(sched)
      && channels.Keys == w.lines.Keys
      && forall ch :: ch in channels ==> ch in w.lines && Stands(channels[ch], ch, w.lines[ch].chan)
    }

    /** And that state is where the run of the machine that the thread has made so far leads. */
    ghost predicate Valid()
      reads this, sched, channels.Values
    {
      Shows(world) && Leads(sched.pipe, channels.Keys, history, world) && BodiesAre(sched.funcs, sched.nextId, bodies)
    }

    /** What there is to tell of the thread so far. */
    ghost function Told(): Record<T>
      reads this`history, this`bodies, sched`postQueue
    {
      Record(history, sched.postQueue, bodies)
    }

    ghost predicate Stands(c: Channel<T>, id: ChId, chan: Chan<T>)
      reads c
    {
      c.sched == sched && c.id == id && c.Valid() && c.View() == chan
    }

    constructor (sched: Scheduler, channels: map<ChId, Channel<T>>)
      requires sched.Valid() && sched.View() == Start<T>(sched.pipe, {}).s && Noticed(sched)
      requires forall ch :: ch in channels ==>
                 channels[ch].sched == sched && channels[ch].id == ch && channels[ch].View() == Chan(None, None, None, None, map[])
      ensures Valid() && this.sched == sched && this.channels == channels && Told() == Record([], sched.postQueue, [])
    {
      this.sched, this.channels, world, history, bodies := sched, channels, Start<T>(sched.pipe, channels.Keys), [], [];
      new;
      StartLeads<T>(sched.pipe, channels.Keys);
    }

    method CallCreate(f: Job)
      requires Shows(world)
      modifies sched`coros, sched`funcs, sched`nextId, sched`readyQueue
      ensures Shows(world.(s := Create(world.s)))
      ensures sched.postQueue == old(sched.postQueue)
      ensures sched.funcs == old(sched.funcs)[old(sched.nextId) := f]
    {
      var co := sched.Create(f);
    }

    method CallYield()
      requires Shows(world) && InCoroutine(world.s)
      modifies sched`coros, sched`readyQueue, sched`runningCoro
      ensures Shows(world.(s := Yield(world.s)))
      ensures sched.postQueue == old(sched.postQueue) && sched.funcs == old(sched.funcs)
    {
      sched.Yield();
    }

    method CallWait(fd: Fd)
      requires Shows(world) && InCoroutine(world.s)
      modifies sched`coros, sched`waitingMap, sched`runningCoro, sched`epoll
      ensures Shows(world.(s := WaitEvent(world.s, fd)))
      ensures sched.postQueue == old(sched.postQueue) && sched.funcs == old(sched.funcs)
    {
      sched.WaitEvent(fd);
    }

    method CallSleep(ms: int, now: int)
      requires Shows(world) && InCoroutine(world.s)
      modifies sched`coros, sched`readyQueue, sched`runningCoro, sched`timerHeap
      ensures Shows(world.(s := Sleep(world.s, ms, now)))
      ensures sched.postQueue == old(sched.postQueue) && sched.funcs == old(sched.funcs)
    {
      sched.Sleep(ms, now);
    }

    method CallSend(ch: ChId, val: T)
      requires Shows(world) && InCoroutine(world.s) && ch in channels
      requires channels[ch].recvWaiter.Some? ==> channels[ch].recvWaiter.value in sched.coros
      modifies sched`coros, sched`readyQueue, sched`runningCoro, channels[ch]
      ensures Shows(Step(world, OpSend(ch, val)))
      ensures sched.postQueue == old(sched.postQueue) && sched.funcs == old(sched.funcs)
    {
      assert forall other :: other in channels && other != ch ==> channels[other] != channels[ch];
      channels[ch].Send(val);
    }

    method CallRecv(ch: ChId)
      requires Shows(world) && InCoroutine(world.s) && ch in channels
      requires channels[ch].sendWaiter.Some? ==> channels[ch].sendWaiter.value in sched.coros
      modifies sched`coros, sched`readyQueue, sched`runningCoro, channels[ch]
      ensures Shows(Step(world, OpRecv(ch)))
      ensures sched.postQueue == old(sched.postQueue) && sched.funcs == old(sched.funcs)
    {
      assert forall other :: other in channels && other != ch ==> channels[other] != channels[ch];
      var got := channels[ch].Recv();
    }

    /** The call is on a channel of this thread, or on none. */
    predicate Known(c: CoCall<T>) {
      c.DoSend? || c.DoRecv? ==> c.ch in channels
    }

    /** The running coroutine makes a call, whichever it is. */
    method Call(c: CoCall<T>)
      requires Valid() && InCoroutine(world.s) && Known(c)
      modifies this`world, this`history, this`bodies, sched, channels.Values
      ensures Valid() && Enabled(old(world), OpOf(c)) && world == Step(old(world), OpOf(c))
      ensures Told() == Met(old(Told()), Calls(c))
    {
      assert channels.Keys == world.lines.Keys;
      StepLeads(sched.pipe, channels.Keys, history, world, OpOf(c));
      MetCall(Told(), c);
      Do(c);
    }

    method Do(c: CoCall<T>)
      requires Valid() && InCoroutine(world.s) && Enabled(world, OpOf(c))
      requires Leads(sched.pipe, channels.Keys, history + [OpOf(c)], Step(world, OpOf(c)))
      modifies this`world, this`history, this`bodies, sched, channels.Values
      ensures Valid() && world == Step(old(world), OpOf(c))
      ensures Told() == Record(old(history) + [OpOf(c)], old(sched.postQueue), old(bodies) + Created(c))
    {
      ghost var w1 := Step(world, OpOf(c));
      NextIdAfter(world, c);
      CallObjects(c, w1);
      BodiesGrow(old(sched.funcs), old(sched.nextId), bodies, sched.funcs, Created(c));
      Become(history + [OpOf(c)], w1, bodies + Created(c));
    }

    ghost method Become(ops: seq<Op<T>>, w1: World<T>, created: seq<Job>)
      requires Shows(w1) && Leads(sched.pipe, channels.Keys, ops, w1) && BodiesAre(sched.funcs, sched.nextId, created)
      modifies this`world, this`history, this`bodies
      ensures Valid() && world == w1 && history == ops && bodies == created
    {
      world, history, bodies := w1, ops, created;
    }

    method CallObjects(c: CoCall<T>, ghost w1: World<T>)
      requires Valid() && InCoroutine(world.s) && Enabled(world, OpOf(c)) && w1 == Step(world, OpOf(c))
      modifies sched, channels.Values
      ensures Shows(w1) && sched.postQueue == old(sched.postQueue)
      ensures sched.funcs == if c.DoCreate? then old(sched.funcs)[old(sched.nextId) := c.f] else old(sched.funcs)
    {
      match c {
        case DoSend(ch, val) =>
          WaitersAreAlive(sched.pipe, channels.Keys, history, world, ch);
          CallSend(ch, val);
        case DoRecv(ch) =>
          WaitersAreAlive(sched.pipe, channels.Keys, history, world, ch);
          CallRecv(ch);
        case DoCreate(f) => CallCreate(f);
        case DoYield => CallYield();
        case DoWait(fd) => CallWait(fd);
        case DoSleep(ms, now) => CallSleep(ms, now);
      }
    }

    // ----- the loop -----

    /** The loop has control and no event is left to handle. */
    ghost predicate Looping()
      reads this, sched, channels.Values
    {
      Valid() && world.s.running == None && world.s.evs == []
    }

    method Resume()
      requires Looping() && sched.readyQueue != []
      modifies this`world, this`history, this`bodies, sched`readyQueue, sched`runningCoro, sched`coros, sched`epoll
      ensures Valid() && InCoroutine(world.s) && world.s.evs == []
      ensures Told() == Stepped(old(Told()), [OpDispatch])
    {
      FrontIsAlive(sched.pipe, channels.Keys, history, world);
      StepLeads(sched.pipe, channels.Keys, history, world, OpDispatch);
      sched.Dispatch();
      Become(history + [OpDispatch], Step(world, OpDispatch), bodies);
    }

    /** The body has ended: the coroutine is done and is deleted. */
    method Return()
      requires Valid() && InCoroutine(world.s) && world.s.evs == []
      modifies this`world, this`history, this`bodies, sched`coros, sched`runningCoro
      ensures Looping() && Told() == Stepped(old(Told()), [OpFinish, OpReap])
    {
      End();
      Reclaim();
      assert old(history) + [OpFinish] + [OpReap] == old(history) + [OpFinish, OpReap];
    }

    method End()
      requires Valid() && InCoroutine(world.s)
      modifies this`world, this`history, this`bodies, sched`coros
      ensures Valid() && Enabled(world, OpReap) && world.s.evs == old(world.s.evs)
      ensures Told() == Stepped(old(Told()), [OpFinish])
    {
      StepLeads(sched.pipe, channels.Keys, history, world, OpFinish);
      sched.Finish();
      Become(history + [OpFinish], Step(world, OpFinish), bodies);
    }

    method Reclaim()
      requires Valid() && Enabled(world, OpReap) && world.s.evs == []
      modifies this`world, this`history, this`bodies, sched`coros, sched`runningCoro
      ensures Looping() && Told() == Stepped(old(Told()), [OpReap])
    {
      StepLeads(sched.pipe, channels.Keys, history, world, OpReap);
      ReapObjects();
      Become(history + [OpReap], Step(world, OpReap), bodies);
    }

    method ReapObjects()
      requires Shows(world) && Enabled(world, OpReap)
      modifies sched`coros, sched`runningCoro
      ensures Shows(Step(world, OpReap))
    {
      sched.Reap();
    }

    /** Anybody posts a job: it is queued, and the pipe is readable. */
    method Post(f: Job)
      requires Valid()
      modifies sched`postQueue, sched`pipeBytes
      ensures Valid() && sched.postQueue == old(sched.postQueue) + [f]
    {
      sched.Post(f);
    }

    /** The moment is a call on a channel that this thread does not have. */
    predicate NamesNone(m: Moment<T>) {
      m.Calls? && !Known(m.c)
    }

    /** One moment of a slice, if it is possible. */
    method Meet(m: Moment<T>)
      requires Valid() && InCoroutine(world.s) && world.s.evs == [] && !NamesNone(m)
      modifies this`world, this`history, this`bodies, sched, channels.Values
      ensures Valid() && world.s.evs == [] && (InCoroutine(world.s) || (world.s.running == None && m.Calls?))
      ensures Told() == Met(old(Told()), m)
    {
      match m {
        case Posts(f) => Post(f);
        case Calls(c) =>
          ghost var ops, w := history, world;
          Call(c);
          CallReturnsOrParks(sched.pipe, channels.Keys, ops, w, c);
      }
    }

    /** What happens from the dispatch of a coroutine until it leaves the processor: it makes its calls in order,
        up to one that parks it, and its body ends with the list. */
    method RunSlice(moments: seq<Moment<T>>) returns (ok: bool, ghost part: Part)
      requires Valid() && InCoroutine(world.s) && world.s.evs == []
      modifies this`world, this`history, this`bodies, sched, channels.Values
      ensures Valid() && part.made <= |moments|
      ensures ok ==> Looping() && PartFits(moments, part)
      ensures ok ==> Told() == Stepped(MetAll(old(Told()), moments[..part.made]), if part.ended then [OpFinish, OpReap] else [])
      ensures !ok ==> InCoroutine(world.s) && part.made < |moments| && NamesNone(moments[part.made])
                      && Told() == MetAll(old(Told()), moments[..part.made])
    {
      var i := 0;
      while i < |moments| && sched.runningCoro.Some?
        invariant i <= |moments|
        invariant Valid() && world.s.evs == [] && (InCoroutine(world.s) || (world.s.running == None && i > 0 && moments[i - 1].Calls?))
        invariant Told() == MetAll(old(Told()), moments[..i])
        decreases |moments| - i
      {
        if NamesNone(moments[i]) {
          return false, Part(i, false);
        }
        OneMoreMoment(old(Told()), moments, i);
        Meet(moments[i]);
        i := i + 1;
      }
      part := Part(i, sched.runningCoro.Some?);
      if sched.runningCoro.Some? {
        Return();
      }
      return true, part;
    }

    /** Phase 1 has come to a coroutine of which the slices do not say what it does: there is none for it, or
        it names a channel that does not exist. */
    ghost predicate Stuck(slices: seq<seq<Moment<T>>>, parts: seq<Part>, r: Record<T>)
      reads this, sched, channels.Values
    {
      && PartsFit(slices, parts)
      && if |parts| == |slices| then Looping() && sched.readyQueue != [] && Told() == AfterParts(r, slices, parts)
         else InCoroutine(world.s) && StopsIn(slices[|parts|], Stepped(AfterParts(r, slices, parts), [OpDispatch]))
    }

    ghost predicate StopsIn(moments: seq<Moment<T>>, r: Record<T>)
      reads this`history, this`bodies, sched`postQueue
    {
      exists n :: 0 <= n < |moments| && NamesNone(moments[n]) && Told() == MetAll(r, moments[..n])
    }

    /** Phase 1: until the ready queue is empty. Everybody who was ready at the start is dispatched, in order. */
    method RunReady(slices: seq<seq<Moment<T>>>) returns (ok: bool, ghost parts: seq<Part>)
      requires Looping()
      modifies this`world, this`history, this`bodies, sched, channels.Values
      ensures Valid() && PartsFit(slices, parts)
      ensures ok ==> Looping() && sched.readyQueue == [] && Told() == AfterParts(old(Told()), slices, parts)
      ensures ok ==> old(world.log) + old(sched.readyQueue) <= world.log
      ensures ok ==> forall e :: e in old(sched.timerHeap) ==> e in sched.timerHeap
      ensures !ok ==> Stuck(slices, parts, old(Told()))
    {
      parts := [];
      var k := 0;
      while sched.readyQueue != []
        invariant k == |parts| && PartsFit(slices, parts) && Looping()
        invariant Told() == AfterParts(old(Told()), slices, parts)
        decreases |slices| - k
      {
        if k == |slices| {
          return false, parts;
        }
        ghost var part;
        Resume();
        ok, part := RunSlice(slices[k]);
        if !ok {
          assert NamesNone(slices[k][part.made]);
          return false, parts;
        }
        OneMorePart(old(Told()), slices, parts, part);
        k, parts := k + 1, parts + [part];
      }
      PartsExtend(old(Told()), slices, parts);
      PhaseOneKeeps(sched.pipe, channels.Keys, old(history), old(world), history, world, old(sched.timerHeap), sched.timerHeap);
      return true, parts;
    }

    method FireObjects(now: int) returns (ghost fired: seq<TimerEntry>)
      requires Shows(world)
      modifies sched`coros, sched`readyQueue, sched`timerHeap
      ensures Shows(world.(s := FireTimers(world.s, fired)))
      ensures sched.readyQueue == old(sched.readyQueue) + Sleepers(fired)
      ensures Passed(old(sched.timerHeap), now, fired, sched.timerHeap)
    {
      var count;
      count, fired := sched.FireTimers(now);
    }

    /** An expiry pass: whoever is due is queued, in the order of the deadlines, and nobody who is due stays asleep. */
    method Fire(now: int) returns (ghost fired: seq<TimerEntry>)
      requires Looping()
      modifies this`world, this`history, this`bodies, sched`coros, sched`readyQueue, sched`timerHeap
      ensures Looping() && Told() == Stepped(old(Told()), [OpFire(now, fired)]) && world.log == old(world.log)
      ensures sched.readyQueue == old(sched.readyQueue) + Sleepers(fired)
      ensures Passed(old(sched.timerHeap), now, fired, sched.timerHeap)
    {
      fired := FireObjects(now);
      Fired(now, fired, old(sched.timerHeap));
    }

    ghost method Fired(now: int, fired: seq<TimerEntry>, heap: seq<TimerEntry>)
      requires Leads(sched.pipe, channels.Keys, history, world) && world.s.running == None && world.s.evs == []
      requires Shows(world.(s := FireTimers(world.s, fired))) && BodiesAre(sched.funcs, sched.nextId, bodies)
      requires world.s.timers == multiset(heap) && Passed(heap, now, fired, sched.timerHeap)
      modifies this`world, this`history, this`bodies
      ensures Looping() && Told() == Stepped(old(Told()), [OpFire(now, fired)]) && world.log == old(world.log)
    {
      FireLeads(sched.pipe, channels.Keys, history, world, now, fired, heap, sched.timerHeap);
      Become(history + [OpFire(now, fired)], world.(s := FireTimers(world.s, fired)), bodies);
    }

    /** Phase 3: an active armed fd is missed only if 64 others are reported, and so is a readable pipe. */
    method Wait(active: seq<Fd>)
      requires Looping() && sched.readyQueue == []
      modifies this`world, this`history, this`bodies, sched`evs, sched`epoll
      ensures Valid() && world.s.running == None && Told() == Stepped(old(Told()), [OpPoll(sched.evs)])
      ensures world.log == old(world.log) && |sched.evs| <= 64
      ensures forall fd :: fd in sched.evs ==> (fd in active || fd == sched.pipe) && Reportable(old(sched.epoll), sched.pipe, sched.pipeBytes, fd)
      ensures |sched.evs| < 64 ==>
                forall fd :: fd in active && Reportable(old(sched.epoll), sched.pipe, sched.pipeBytes, fd) ==> fd in sched.evs
      ensures |sched.evs| < 64 && sched.pipeBytes > 0 ==> sched.pipe in sched.evs
      ensures forall fd :: fd in sched.epoll && sched.epoll[fd] && fd != sched.pipe ==>
                fd !in sched.evs && Reportable(old(sched.epoll), sched.pipe, sched.pipeBytes, fd)
    {
      PipeIsRegistered(sched.pipe, channels.Keys, history, world);
      sched.EpollWait(if sched.pipe in active then active else active + [sched.pipe]);
      StepLeads(sched.pipe, channels.Keys, history, world, OpPoll(sched.evs));
      Become(history + [OpPoll(sched.evs)], Step(world, OpPoll(sched.evs)), bodies);
    }

    /** Phase 4: nobody whose fd was reported is left waiting, and if the pipe was, every job posted so far
        has become a coroutine that runs it. */
    method WakeReported()
      requires Valid() && world.s.running == None
      modifies this`world, this`history, this`bodies
      modifies sched`evs, sched`coros, sched`funcs, sched`nextId, sched`readyQueue, sched`waitingMap, sched`postQueue, sched`pipeBytes
      ensures Looping() && world.log == old(world.log)
      ensures Told() == AfterEvents(old(Told()), old(sched.evs), sched.pipe)
      ensures forall fd :: fd in old(sched.evs) && fd != sched.pipe ==>
                fd !in sched.waitingMap && (fd in old(sched.waitingMap) ==> old(sched.waitingMap[fd]) in sched.readyQueue)
    {
      ghost var w, jobs, first, funcs := world, |sched.postQueue|, sched.nextId, sched.funcs;
      AllEvents(sched.pipe, channels.Keys, history, w, jobs);
      HandleAllForgets(w.s, jobs);
      sched.HandleEvents();
      ghost var created := if sched.pipe in old(sched.evs) then old(sched.postQueue) else [];
      BodiesGrow(funcs, first, bodies, sched.funcs, created);
      Become(history + EventOps(w.s.evs, w.s.pipe, jobs), w.(s := HandleAll(w.s, jobs)), bodies + created);
    }

    method PostAll(posted: seq<Job>)
      requires Valid()
      modifies sched`postQueue, sched`pipeBytes
      ensures Valid() && sched.postQueue == old(sched.postQueue) + posted
    {
      for i := 0 to |posted|
        invariant Valid() && sched.postQueue == old(sched.postQueue) + posted[..i]
      {
        Post(posted[i]);
        assert posted[..i] + [posted[i]] == posted[..i + 1];
      }
      assert posted[..|posted|] == posted;
    }

    /** What epoll_wait reports: only active fds and the pipe, and unless 64 are reported every active fd that is
        armed, so that none of them is armed any more, and the pipe if a job was posted before. */
    ghost predicate WellReported(fds: seq<Fd>, active: seq<Fd>, jobs: seq<Job>)
      reads sched`epoll
    {
      && |fds| <= 64 && (forall fd :: fd in fds ==> fd in active || fd == sched.pipe)
      && (|fds| < 64 ==> forall fd :: fd in active && fd in sched.epoll && fd != sched.pipe ==> !sched.epoll[fd])
      && (|fds| < 64 && jobs != [] ==> sched.pipe in fds)
    }

    /** Phase 3: the timeout, and what epoll_wait reports. */
    method Await(t: Turn<T>) returns (timeout: int)
      requires Looping() && sched.readyQueue == []
      modifies this`world, this`history, this`bodies, sched`evs, sched`epoll, sched`postQueue, sched`pipeBytes
      ensures Valid() && world.s.running == None && world.log == old(world.log)
      ensures Told() == Record(old(history) + [OpPoll(sched.evs)], old(sched.postQueue) + t.posted, old(bodies))
      ensures RightTimeout(multiset(sched.timerHeap), t.now3, timeout)
      ensures WellReported(sched.evs, t.active, old(sched.postQueue) + t.posted)
    {
      timeout := sched.PollTimeout(t.now3);
      PostAll(t.posted);
      Wait(t.active);
    }

    /** Phase 4, with what is posted before it. */
    method HandleReported(late: seq<Job>)
      requires Valid() && world.s.running == None
      modifies this`world, this`history, this`bodies
      modifies sched`evs, sched`coros, sched`funcs, sched`nextId, sched`readyQueue, sched`waitingMap, sched`postQueue, sched`pipeBytes
      ensures Looping() && world.log == old(world.log)
      ensures Told() == AfterEvents(Record(old(history), old(sched.postQueue) + late, old(bodies)), old(sched.evs), sched.pipe)
      ensures forall fd :: fd in old(sched.evs) && fd != sched.pipe ==>
                fd !in sched.waitingMap && (fd in old(sched.waitingMap) ==> old(sched.waitingMap[fd]) in sched.readyQueue)
    {
      PostAll(late);
      WakeReported();
    }

    /** epoll_wait and its events. All jobs are taken if the pipe is reported, those that were posted meanwhile
        included, and nobody whose fd is reported is left waiting. */
    method PollPhase(t: Turn<T>) returns (reported: seq<Fd>, timeout: int)
      requires Looping() && sched.readyQueue == []
      modifies this`world, this`history, this`bodies
      modifies sched`evs, sched`epoll, sched`coros, sched`funcs, sched`nextId, sched`readyQueue, sched`waitingMap, sched`postQueue, sched`pipeBytes
      ensures Looping() && Told() == AfterPoll(old(Told()), t, reported, sched.pipe) && world.log == old(world.log)
      ensures RightTimeout(multiset(sched.timerHeap), t.now3, timeout)
      ensures WellReported(reported, t.active, old(sched.postQueue) + t.posted)
      ensures forall fd :: fd in reported && fd != sched.pipe ==>
                fd !in sched.waitingMap && (fd in old(sched.waitingMap) ==> old(sched.waitingMap[fd]) in sched.readyQueue)
    {
      timeout := Await(t);
      reported := sched.evs;
      HandleReported(t.late);
    }

    /** Phases 3 and 4 and the last expiry pass. */
    method PollAndFire(t: Turn<T>) returns (timeout: int, fds: seq<Fd>, ghost last: seq<TimerEntry>)
      requires Looping() && sched.readyQueue == []
      modifies this`world, this`history, this`bodies
      modifies sched`evs, sched`epoll, sched`coros, sched`funcs, sched`nextId, sched`readyQueue, sched`waitingMap, sched`postQueue, sched`pipeBytes, sched`timerHeap
      ensures Looping() && Told() == Stepped(AfterPoll(old(Told()), t, fds, sched.pipe), [OpFire(t.now4, last)])
      ensures world.log == old(world.log) && EndsWith(sched.readyQueue, Sleepers(last))
      ensures Passed(old(sched.timerHeap), t.now4, last, sched.timerHeap)
      ensures RightTimeout(multiset(sched.timerHeap) + multiset(last), t.now3, timeout)
      ensures WellReported(fds, t.active, old(sched.postQueue) + t.posted)
      ensures forall fd :: fd in fds && fd != sched.pipe ==> fd !in sched.waitingMap
    {
      fds, timeout := PollPhase(t);
      last := Fire(t.now4);
    }

    /** Phases 2 to 4: epoll_wait is skipped exactly if phase 2 wakes somebody. */
    method FireAndPoll(t: Turn<T>, ghost parts: seq<Part>) returns (timeout: Option<int>, ghost tr: Trace)
      requires Looping() && sched.readyQueue == [] && PartsFit(t.slices, parts)
      modifies this`world, this`history, this`bodies
      modifies sched`evs, sched`epoll, sched`coros, sched`funcs, sched`nextId, sched`readyQueue, sched`waitingMap, sched`postQueue, sched`pipeBytes, sched`timerHeap
      ensures Looping() && tr.parts == parts && TraceFits(t, tr) && Told() == AfterRest(old(Told()), t, tr, sched.pipe)
      ensures world.log == old(world.log) && WokenInTurn(old(sched.timerHeap), t, tr, sched.timerHeap, sched.readyQueue)
      ensures tr.polled == None <==> timeout == None
      ensures tr.polled.Some? ==>
                && RightTimeout(multiset(sched.timerHeap) + multiset(tr.last), t.now3, timeout.value)
                && WellReported(tr.polled.value, t.active, old(sched.postQueue) + t.posted)
                && (forall fd :: fd in tr.polled.value && fd != sched.pipe ==> fd !in sched.waitingMap)
                && JobsTaken(sched.pipe in tr.polled.value, old(bodies), old(sched.postQueue) + t.posted + t.late, bodies, sched.postQueue)
    {
      ghost var first := Fire(t.now2);
      if sched.readyQueue != [] {
        tr := Trace(parts, first, None, []);
        SkippedWakes(old(sched.timerHeap), t, tr, sched.timerHeap, sched.readyQueue);
        return None, tr;
      }
      ghost var waits := sched.timerHeap;
      var ms, fds;
      ghost var last;
      ms, fds, last := PollAndFire(t);
      tr := Trace(parts, first, Some(fds), last);
      PolledWakes(old(sched.timerHeap), waits, t, tr, sched.timerHeap, sched.readyQueue);
      return Some(ms), tr;
    }

    /** One turn of the loop: ready coroutines, timers, and only when nobody is ready epoll_wait and its events,
        and timers again. A sleeper is woken by the first pass at which it is due, in the order of the deadlines.
        A turn in which the pipe is reported leaves no posted job behind. */
    method RunTurn(t: Turn<T>) returns (ok: bool, timeout: Option<int>, ghost tr: Trace)
      requires Looping()
      modifies this`world, this`history, this`bodies, sched, channels.Values
      ensures Valid()
      ensures ok ==> Looping() && TraceFits(t, tr) && Told() == AfterTurn(old(Told()), t, tr, sched.pipe)
      ensures ok ==> old(world.log) + old(sched.readyQueue) <= world.log
      ensures ok ==> WokenInTurn(old(sched.timerHeap), t, tr, sched.timerHeap, sched.readyQueue)
      ensures ok ==> (tr.polled == None <==> timeout == None)
      ensures ok && tr.polled.Some? ==>
                var jobs := AfterParts(old(Told()), t.slices, tr.parts).queue + t.posted;
                && RightTimeout(multiset(sched.timerHeap) + multiset(tr.last), t.now3, timeout.value)
                && WellReported(tr.polled.value, t.active, jobs)
                && (forall fd :: fd in tr.polled.value && fd != sched.pipe ==> fd !in sched.waitingMap)
                && JobsTaken(sched.pipe in tr.polled.value, AfterParts(old(Told()), t.slices, tr.parts).bodies, jobs + t.late, bodies, sched.postQueue)
      ensures !ok ==> PartsFit(t.slices, tr.parts) && Stuck(t.slices, tr.parts, old(Told()))
    {
      ghost var parts;
      ok, parts := RunReady(t.slices);
      if !ok {
        return false, None, Trace(parts, [], None, []);
      }
      ghost var heap := sched.timerHeap;
      timeout, tr := FireAndPoll(t, parts);
      SleptFromStart(old(sched.timerHeap), heap, t, tr, sched.timerHeap, sched.readyQueue);
    }

    /** run(), for as many turns as are given, whatever the coroutines call: every turn is made, one after the
        other. It stops early only where a turn does not say what the next dispatched coroutine does, or names a
        channel that does not exist. */
    method RunLoop(turns: seq<Turn<T>>) returns (ok: bool, ghost traces: seq<Trace>, ghost stuck: seq<Part>)
      requires Looping()
      modifies this`world, this`history, this`bodies, sched, channels.Values
      ensures Valid() && TracesFit(turns, traces)
      ensures ok ==> Looping() && |traces| == |turns| && Told() == AfterTurns(old(Told()), turns, traces, sched.pipe)
      ensures !ok ==> |traces| < |turns| && Stuck(turns[|traces|].slices, stuck, AfterTurns(old(Told()), turns, traces, sched.pipe))
    {
      traces, stuck := [], [];
      for i := 0 to |turns|
        invariant Looping() && |traces| == i && TracesFit(turns, traces)
        invariant Told() == AfterTurns(old(Told()), turns, traces, sched.pipe)
      {
        var timeout;
        ghost var tr;
        ok, timeout, tr := RunTurn(turns[i]);
        if !ok {
          return false, traces, tr.parts;
        }
        OneMoreTurn(old(Told()), turns, traces, tr, sched.pipe);
        traces := traces + [tr];
      }
      return true, traces, [];
    }
  }

  lemma PassedIsDue(before: seq<TimerEntry>, now: int, fired: seq<TimerEntry>, after: seq<TimerEntry>)
    requires Passed(before, now, fired, after)
    ensures Due(multiset(before), now, fired)
  {
    assert multiset(before) - multiset(fired) == multiset(after);
    assert forall e :: e in multiset(after) ==> e in after;
  }

  lemma PassedSplits(before: seq<TimerEntry>, now: int, fired: seq<TimerEntry>, after: seq<TimerEntry>, e: TimerEntry)
    requires Passed(before, now, fired, after)
    ensures e in before <==> e in fired || e in after
  {
    assert e in before <==> e in multiset(before);
    assert e in fired <==> e in multiset(fired);
    assert e in after <==> e in multiset(after);
  }

  /** All jobs become coroutines, in order, or all stay queued. */
  predicate JobsTaken(taken: bool, before: seq<Job>, jobs: seq<Job>, bodies: seq<Job>, queue: seq<Job>) {
    if taken then bodies == before + jobs && queue == [] else bodies == before && queue == jobs
  }

  predicate EndsWith<A(==)>(s: seq<A>, end: seq<A>) {
    |end| <= |s| && s[|s| - |end|..] == end
  }

  /** What a turn means for the sleepers: at the start `asleep` were in the heap, at the end `left` are. */
  ghost predicate WokenInTurn<T>(asleep: seq<TimerEntry>, t: Turn<T>, tr: Trace, left: seq<TimerEntry>, ready: seq<CoId>) {
    && ByDeadline(tr.first) && ByDeadline(tr.last)
    && (forall e :: e in tr.first ==> e.expire <= t.now2) && (forall e :: e in tr.last ==> e.expire <= t.now4)
    && (forall e :: e in left ==> t.now2 < e.expire)
    && (forall e :: e in asleep ==> (e in tr.first <==> e.expire <= t.now2))
    && (forall e :: e in asleep ==> e in tr.first || e in tr.last || e in left)
    && (tr.polled == None ==> ready == Sleepers(tr.first))
    && (tr.polled.Some? ==>
          && EndsWith(ready, Sleepers(tr.last))
          && (forall e :: e in left ==> t.now4 < e.expire)
          && (forall e :: e in asleep ==> (e in tr.last <==> e.expire <= t.now4)))
  }

  lemma SkippedWakes<T>(asleep: seq<TimerEntry>, t: Turn<T>, tr: Trace, left: seq<TimerEntry>, ready: seq<CoId>)
    requires Passed(asleep, t.now2, tr.first, left)
    requires tr.polled == None && tr.last == [] && ready == [] + Sleepers(tr.first)
    ensures WokenInTurn(asleep, t, tr, left, ready)
  {
    forall e ensures e in asleep <==> e in tr.first || e in left {
      PassedSplits(asleep, t.now2, tr.first, left, e);
    }
  }

  lemma PolledWakes<T>(asleep: seq<TimerEntry>, waits: seq<TimerEntry>, t: Turn<T>, tr: Trace,
                       left: seq<TimerEntry>, ready: seq<CoId>)
    requires Passed(asleep, t.now2, tr.first, waits) && Passed(waits, t.now4, tr.last, left)
    requires tr.polled.Some? && tr.first == [] && EndsWith(ready, Sleepers(tr.last))
    ensures WokenInTurn(asleep, t, tr, left, ready)
  {
    forall e ensures e in asleep <==> e in waits {
      PassedSplits(asleep, t.now2, tr.first, waits, e);
    }
    forall e ensures e in waits <==> e in tr.last || e in left {
      PassedSplits(waits, t.now4, tr.last, left, e);
    }
  }

  lemma SleptFromStart<T>(asleep: seq<TimerEntry>, heap: seq<TimerEntry>, t: Turn<T>, tr: Trace, left: seq<TimerEntry>, ready: seq<CoId>)
    requires (forall e :: e in asleep ==> e in heap) && WokenInTurn(heap, t, tr, left, ready)
    ensures WokenInTurn(asleep, t, tr, left, ready)
  {
  }

  // ----- what phase 1 leaves alone -----

  /** The history has grown by steps other than expiry passes. */
  ghost predicate GrowsQuietly<T>(ops: seq<Op<T>>, ops1: seq<Op<T>>) {
    ops <= ops1 && forall i :: |ops| <= i < |ops1| ==> !ops1[i].OpFire?
  }

  lemma {:induction false} MomentsExtend<T>(r: Record<T>, ms: seq<Moment<T>>)
    ensures GrowsQuietly(r.history, MetAll(r, ms).history)
  {
    if ms != [] {
      MomentsExtend(r, ms[..|ms| - 1]);
    }
  }

  lemma {:induction false} PartsExtend<T>(r: Record<T>, slices: seq<seq<Moment<T>>>, parts: seq<Part>)
    requires PartsFit(slices, parts)
    ensures GrowsQuietly(r.history, AfterParts(r, slices, parts).history)
  {
    if parts != [] {
      var n := |parts| - 1;
      PartsExtend(r, slices, parts[..n]);
      MomentsExtend(Stepped(AfterParts(r, slices, parts[..n]), [OpDispatch]), slices[n][..parts[n].made]);
    }
  }

  lemma {:induction false} RunSplits<T>(w: World<T>, a: seq<Op<T>>, b: seq<Op<T>>)
    requires Possible(w, a + b)
    ensures Possible(w, a) && Possible(Run(w, a), b) && Run(w, a + b) == Run(Run(w, a), b)
    decreases |a|
  {
    if a == [] {
      assert a + b == b;
    } else {
      assert (a + b)[1..] == a[1..] + b;
      RunSplits(Step(w, a[0]), a[1..], b);
    }
  }

  /** The queue is served from its front, and without an expiry pass nobody is taken out of the heap. */
  lemma PhaseOneKeeps<T>(pipe: Fd, channels: set<ChId>, ops: seq<Op<T>>, w: World<T>, ops1: seq<Op<T>>, w1: World<T>,
                        heap: seq<TimerEntry>, heap1: seq<TimerEntry>)
    requires Leads(pipe, channels, ops, w) && Leads(pipe, channels, ops1, w1) && GrowsQuietly(ops, ops1)
    requires w.s.timers == multiset(heap) && w1.s.timers == multiset(heap1)
    ensures w.log + w.s.ready <= w1.log + w1.s.ready
    ensures forall e :: e in heap ==> e in heap1
  {
    var more := ops1[|ops|..];
    assert ops1 == ops + more;
    RunSplits(Start<T>(pipe, channels), ops, more);
    RunAppends(w, more);
    LeadsToSafety(pipe, channels, ops, w);
    forall e | e in heap ensures e in heap1 {
      assert e in multiset(heap);
      SleepsUntilDue(w, e, more);
      assert e in multiset(heap1);
    }
  }

  lemma {:induction false} FireTimersIdle(s: Sched, fired: seq<TimerEntry>)
    ensures FireTimers(s, fired).running == s.running && FireTimers(s, fired).evs == s.evs
  {
    if fired != [] {
      FireTimersIdle(s, fired[..|fired| - 1]);
    }
  }

  lemma {:induction false} HandleAllIdle(s: Sched, jobs: nat)
    ensures HandleAll(s, jobs).running == s.running && HandleAll(s, jobs).evs == []
    decreases |s.evs|
  {
    if s.evs != [] {
      CreateManyEvs(s.(evs := s.evs[1..]), jobs);
      CreateManyIdle(s.(evs := s.evs[1..]), jobs);
      HandleAllIdle(HandleEvent(s, jobs), if s.evs[0] == s.pipe then 0 else jobs);
    }
  }

  lemma {:induction false} HandleAllForgets(s: Sched, jobs: nat)
    ensures forall fd :: fd in HandleAll(s, jobs).waiting ==> fd in s.waiting && (fd in s.evs ==> fd == s.pipe)
    decreases |s.evs|
  {
    if s.evs != [] {
      NextEventIs(s, jobs);
      CreateManyIdle(s.(evs := s.evs[1..]), jobs);
      HandleAllForgets(HandleEvent(s, jobs), if s.evs[0] == s.pipe then 0 else jobs);
      assert s.evs == [s.evs[0]] + s.evs[1..];
    }
  }
}
