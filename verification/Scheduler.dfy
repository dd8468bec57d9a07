/** The Scheduler and Channel objects. Each method does to the fields what the machine's step does to the state. */
module Schedulers {
  import opened Bytes
  import opened TimerHeap
  import opened Machine
  import opened Invariants
  import opened Scheduling
  import Protocol = PostProtocol

  type Job = nat

  const INT_RANGE: int := 0x1_0000_0000

  /** static_cast<int> of a 64-bit difference: modulo 2^32, into the signed range. */
  function ToInt32(n: int): int {
    var m := n % INT_RANGE;
    if m < INT_RANGE / 2 then m else m - INT_RANGE
  }

  /** The loop handles the whole epoll_wait result; the first pipe event takes all posted jobs. */
  function HandleAll(s: Sched, jobs: nat): Sched
    decreases |s.evs|
  {
    if s.evs == [] then s
    else
      CreateManyEvs(s.(evs := s.evs[1..]), jobs);
      HandleAll(HandleEvent(s, jobs), if s.evs[0] == s.pipe then 0 else jobs)
  }

  lemma {:induction false} CreateManyEvs(s: Sched, n: nat)
    ensures CreateMany(s, n).evs == s.evs && CreateMany(s, n).nextId == s.nextId + n
    ensures CreateMany(s, n).pipe == s.pipe
  {
    if n > 0 {
      CreateManyEvs(s, n - 1);
    }
  }

  /** One step for each event of the result; the first event of the pipe finds all posted jobs. */
  function EventOps<T>(evs: seq<Fd>, pipe: Fd, jobs: nat): (ops: seq<Op<T>>)
    ensures |ops| == |evs| && forall i :: 0 <= i < |ops| ==> ops[i].OpEvent?
  {
    if evs == [] then [] else [OpEvent(jobs)] + EventOps(evs[1..], pipe, if evs[0] == pipe then 0 else jobs)
  }

  /** Handling the result is a run of the machine that leaves no event unhandled. */
  lemma {:induction false} HandleAllIsRun<T>(w: World<T>, jobs: nat)
    requires w.s.running == None
    ensures var ops := EventOps<T>(w.s.evs, w.s.pipe, jobs);
            && Possible(w, ops) && Disciplined(w, ops)
            && Run(w, ops) == w.(s := HandleAll(w.s, jobs))
            && Run(w, ops).s.evs == [] && (Inv(w) ==> Inv(Run(w, ops)))
    decreases |w.s.evs|
  {
    if w.s.evs != [] {
      var jobs1 := if w.s.evs[0] == w.s.pipe then 0 else jobs;
      NextEventIs(w.s, jobs);
      HandleAllIsRun(Step(w, OpEvent(jobs)), jobs1);
      assert EventOps<T>(w.s.evs, w.s.pipe, jobs)[1..] == EventOps<T>(w.s.evs[1..], w.s.pipe, jobs1);
      if Inv(w) {
        StepHolds(w, OpEvent(jobs));
      }
    }
  }

  lemma NextEventIs(s: Sched, jobs: nat)
    requires s.evs != []
    ensures var s1 := HandleEvent(s, jobs);
            s1.running == s.running && s1.evs == s.evs[1..] && s1.pipe == s.pipe
  {
    CreateManyEvs(s.(evs := s.evs[1..]), jobs);
    CreateManyIdle(s.(evs := s.evs[1..]), jobs);
  }

  lemma NextEventKeeps(s: Sched, jobs: nat, fd: Fd)
    requires s.evs != [] && fd in s.waiting && s.evs[0] != fd
    ensures var s1 := HandleEvent(s, jobs);
            fd in s1.waiting && s1.waiting[fd] == s.waiting[fd]
  {
    CreateManyIdle(s.(evs := s.evs[1..]), jobs);
  }

  /** Every coroutine whose fd is in the result is ready when the result has been handled. */
  lemma {:induction false} HandleAllWakes(s: Sched, jobs: nat, fd: Fd)
    requires fd in s.evs && fd in s.waiting && fd != s.pipe
    ensures s.waiting[fd] in HandleAll(s, jobs).ready
    decreases |s.evs|
  {
    var jobs1 := if s.evs[0] == s.pipe then 0 else jobs;
    var s1 := HandleEvent(s, jobs);
    NextEventIs(s, jobs);
    if s.evs[0] == fd {
      assert s1.ready[|s.ready|] == s.waiting[fd];
      HandleAllNoDispatch(s1, jobs1);
    } else {
      NextEventKeeps(s, jobs, fd);
      HandleAllWakes(s1, jobs1, fd);
    }
  }

  predicate AllWaited(s: Sched, evs: seq<Fd>) {
    forall i :: 0 <= i < |evs| ==> evs[i] in s.waiting && evs[i] != s.pipe
  }

  function WaitersOf(s: Sched, evs: seq<Fd>): seq<CoId>
    requires AllWaited(s, evs)
  {
    seq(|evs|, i requires 0 <= i < |evs| => s.waiting[evs[i]])
  }

  /** They are queued in the order in which the events were reported. */
  lemma {:induction false} WokenInOrder(s: Sched, jobs: nat)
    requires Distinct(s.evs) && AllWaited(s, s.evs)
    ensures HandleAll(s, jobs).ready == s.ready + WaitersOf(s, s.evs)
    decreases |s.evs|
  {
    if s.evs != [] {
      var s1 := HandleEvent(s, jobs);
      assert forall i :: 0 <= i < |s1.evs| ==> s1.evs[i] == s.evs[i + 1];
      WokenInOrder(s1, jobs);
      assert WaitersOf(s, s.evs) == [s.waiting[s.evs[0]]] + WaitersOf(s1, s1.evs);
    }
  }

  lemma {:induction false} HandleAllNoDispatch(s: Sched, jobs: nat)
    ensures s.ready <= HandleAll(s, jobs).ready
    decreases |s.evs|
  {
    if s.evs != [] {
      CreateManyEvs(s.(evs := s.evs[1..]), jobs);
      CreateManyAppends(s.(evs := s.evs[1..]), jobs);
      HandleAllNoDispatch(HandleEvent(s, jobs), if s.evs[0] == s.pipe then 0 else jobs);
    }
  }

  lemma {:induction false} CreateManyIdle(s: Sched, n: nat)
    ensures CreateMany(s, n).running == s.running && CreateMany(s, n).waiting == s.waiting
  {
    if n > 0 {
      CreateManyIdle(s, n - 1);
    }
  }

  /** A registered fd is reported while it is armed; the pipe, being level-triggered, while it is readable. */
  predicate Reportable(epoll: map<Fd, bool>, pipe: Fd, pipeBytes: nat, fd: Fd) {
    fd in epoll && if fd == pipe then pipeBytes > 0 else epoll[fd]
  }

  /** Coroutines created before id n still run what they ran. */
  predicate Kept(before: map<CoId, Job>, after: map<CoId, Job>, n: nat) {
    forall c :: c < n && c in before ==> c in after && after[c] == before[c]
  }

  /** The coroutines from `first` on run these jobs, in order. */
  predicate RunAll(funcs: map<CoId, Job>, first: nat, jobs: seq<Job>) {
    forall i :: 0 <= i < |jobs| ==> Runs(funcs, first + i, jobs[i])
  }

  /** The coroutine was created to run this job. */
  predicate Runs(funcs: map<CoId, Job>, co: CoId, f: Job) {
    co in funcs && funcs[co] == f
  }

  /** The work behind the protocol's jobs. */
  function Works(jobs: seq<Protocol.Job>, work: Protocol.Job -> Job): (r: seq<Job>)
    ensures |r| == |jobs|
  {
    seq(|jobs|, i requires 0 <= i < |jobs| => work(jobs[i]))
  }

  lemma OneMoreRuns(funcs: map<CoId, Job>, first: nat, jobs: seq<Job>, f: Job)
    requires RunAll(funcs, first, jobs)
    ensures RunAll(funcs[first + |jobs| := f], first, jobs + [f])
  {
    forall i | 0 <= i <= |jobs| ensures Runs(funcs[first + |jobs| := f], first + i, (jobs + [f])[i]) {
      assert i < |jobs| ==> Runs(funcs, first + i, jobs[i]);
    }
  }

  /** Coroutine i + 1 runs bodies[i], for every coroutine created so far. */
  predicate BodiesAre(funcs: map<CoId, Job>, nextId: nat, bodies: seq<Job>) {
    |bodies| + 1 == nextId && RunAll(funcs, 1, bodies)
  }

  lemma BodiesGrow(funcs: map<CoId, Job>, nextId: nat, bodies: seq<Job>, funcs': map<CoId, Job>, jobs: seq<Job>)
    requires BodiesAre(funcs, nextId, bodies) && Kept(funcs, funcs', nextId) && RunAll(funcs', nextId, jobs)
    ensures BodiesAre(funcs', nextId + |jobs|, bodies + jobs)
  {
    forall i | 0 <= i < |bodies + jobs| ensures Runs(funcs', 1 + i, (bodies + jobs)[i]) {
      if i < |bodies| {
        assert Runs(funcs, 1 + i, bodies[i]);
      } else {
        assert Runs(funcs', nextId + (i - |bodies|), jobs[i - |bodies|]);
      }
    }
  }

  lemma StillRun(funcs: map<CoId, Job>, first: nat, jobs: seq<Job>, funcs': map<CoId, Job>, n: nat)
    requires RunAll(funcs, first, jobs) && first + |jobs| <= n && (funcs' == funcs || Kept(funcs, funcs', n))
    ensures RunAll(funcs', first, jobs)
  {
    forall i | 0 <= i < |jobs| ensures Runs(funcs', first + i, jobs[i]) {
      assert Runs(funcs, first + i, jobs[i]);
    }
  }

  class Scheduler {
    var coros: map<CoId, Coroutine>
    var funcs: map<CoId, Job>          // what each coroutine was created to run
    var runningCoro: Option<CoId>
    var nextId: nat
    var readyQueue: seq<CoId>
    var waitingMap: map<Fd, CoId>
    var timerHeap: seq<TimerEntry>
    var epoll: map<Fd, bool>           // the kernel's interest list: armed or not
    var evs: seq<Fd>                   // the rest of the epoll_wait result
    const pipe: Fd
    const pipeCapacity: nat
    var pipeBytes: nat
    var postQueue: seq<Job>

    ghost predicate Valid()
      reads this
    {
      IsHeap(timerHeap)
    }

    function View(): Sched
      reads this
    {
      Sched(coros, runningCoro, nextId, readyQueue, waitingMap, multiset(timerHeap), epoll, evs, pipe)
    }

    /** The object is where the posting protocol is between two of the loop's steps on it. */
    ghost predicate Stands(ps: Protocol.State, work: Protocol.Job -> Job)
      reads this
    {
      && ps.loop == Protocol.Elsewhere && ps.batch == [] && ps.capacity == pipeCapacity && ps.pipe == pipeBytes
      && postQueue == Works(ps.queue, work)
    }

    constructor (pipe: Fd, pipeCapacity: nat)
      ensures Valid() && View() == Start<int>(pipe, {}).s && postQueue == [] && pipeBytes == 0
      ensures this.pipe == pipe && this.pipeCapacity == pipeCapacity
    {
      coros, funcs, runningCoro, nextId := map[], map[], None, 1;
      readyQueue, waitingMap, timerHeap := [], map[], [];
      epoll, evs := map[pipe := true], [];
      this.pipe, this.pipeCapacity, pipeBytes, postQueue := pipe, pipeCapacity, 0, [];
    }

    method Create(f: Job) returns (co: CoId)
      requires Valid()
      modifies this`coros, this`funcs, this`nextId, this`readyQueue
      ensures Valid() && View() == Machine.Create(old(View()))
      ensures co == old(nextId) && funcs == old(funcs)[co := f]
    {
      co := nextId;
      nextId := nextId + 1;
      coros := coros[co := Coroutine(READY, Nowhere)];
      funcs := funcs[co := f];
      readyQueue := readyQueue + [co];
    }

    // ----- cross-thread posting -----

    /** The push happens under the mutex; the one-byte write fails without effect when the pipe is full. */
    method Post(f: Job)
      requires pipeBytes <= pipeCapacity
      modifies this`postQueue, this`pipeBytes
      ensures postQueue == old(postQueue) + [f] && pipeBytes <= pipeCapacity
      ensures pipeCapacity > 0 ==> pipeBytes > 0
      ensures forall ps, p, work :: old(Stands(ps, work)) && Protocol.Enabled(ps, Protocol.Push(p))
                                    && work(Protocol.Job(p, Protocol.Next(ps, p))) == f ==>
                Stands(Protocol.Posted(ps, p), work)
    {
      forall ps, p, work | Stands(ps, work) && Protocol.Enabled(ps, Protocol.Push(p))
                           && work(Protocol.Job(p, Protocol.Next(ps, p))) == f
        ensures Works(Protocol.Posted(ps, p).queue, work) == postQueue + [f]
      {
        Protocol.PostIsRun(ps, p);
      }
      postQueue := postQueue + [f];
      if pipeBytes < pipeCapacity {
        pipeBytes := pipeBytes + 1;
      }
    }

    /** Every posted job becomes a coroutine, in posting order. */
    method DrainPostQueue()
      requires Valid()
      modifies this`coros, this`funcs, this`nextId, this`readyQueue, this`postQueue
      ensures Valid() && View() == CreateMany(old(View()), |old(postQueue)|) && postQueue == []
      ensures nextId == old(nextId) + |old(postQueue)|
      ensures RunAll(funcs, old(nextId), old(postQueue)) && Kept(old(funcs), funcs, old(nextId))
    {
      var local := postQueue;
      postQueue := [];
      ghost var first := nextId;
      for i := 0 to |local|
        invariant Valid() && View() == CreateMany(old(View()), i) && postQueue == []
        invariant nextId == first + i
        invariant RunAll(funcs, first, local[..i]) && Kept(old(funcs), funcs, first)
      {
        OneMoreRuns(funcs, first, local[..i], local[i]);
        assert local[..i + 1] == local[..i] + [local[i]];
        var co := Create(local[i]);
      }
      assert local[..|local|] == local;
    }

    // ----- calls of the running coroutine -----

    method Yield()
      requires Valid() && (runningCoro.Some? ==> runningCoro.value in coros)
      modifies this`coros, this`readyQueue, this`runningCoro
      ensures Valid() && View() == Machine.Yield(old(View()))
    {
      if runningCoro == None {
        return;
      }
      var cur := runningCoro.value;
      coros := coros[cur := Coroutine(READY, InYield)];
      readyQueue := readyQueue + [cur];
      runningCoro := None;
    }

    /** epoll_ctl ADD; fails with EEXIST on a registered fd. */
    method EpollAdd(fd: Fd) returns (ok: bool)
      modifies this`epoll
      ensures ok == (fd !in old(epoll))
      ensures epoll == if ok then old(epoll)[fd := true] else old(epoll)
    {
      ok := fd !in epoll;
      if ok {
        epoll := epoll[fd := true];
      }
    }

    /** epoll_ctl MOD; without effect on an fd that is not registered. */
    method EpollMod(fd: Fd)
      modifies this`epoll
      ensures epoll == if fd in old(epoll) then old(epoll)[fd := true] else old(epoll)
    {
      if fd in epoll {
        epoll := epoll[fd := true];
      }
    }

    method WaitEvent(fd: Fd)
      requires Valid() && (runningCoro.Some? ==> runningCoro.value in coros)
      modifies this`coros, this`waitingMap, this`runningCoro, this`epoll
      ensures Valid() && View() == Machine.WaitEvent(old(View()), fd)
    {
      if runningCoro == None {
        return;
      }
      if fd in waitingMap {
        EpollMod(fd);
      } else {
        var ok := EpollAdd(fd);
        if !ok {
          EpollMod(fd);
        }
      }
      var cur := runningCoro.value;
      coros := coros[cur := Coroutine(WAITING, InWait(fd))];
      waitingMap := waitingMap[fd := cur];
      runningCoro := None;
    }

    method Sleep(ms: int, now: int)
      requires Valid() && (runningCoro.Some? ==> runningCoro.value in coros)
      modifies this`coros, this`readyQueue, this`runningCoro, this`timerHeap
      ensures Valid() && View() == Machine.Sleep(old(View()), ms, now)
    {
      if runningCoro == None {
        return;
      }
      if ms <= 0 {
        Yield();
        return;
      }
      var cur := runningCoro.value;
      coros := coros[cur := Coroutine(WAITING, InSleep(now + ms))];
      PushTimer(TimerEntry(now + ms, cur));
      runningCoro := None;
    }

    // ----- timers -----

    method PushTimer(entry: TimerEntry)
      requires Valid()
      modifies this`timerHeap
      ensures Valid() && multiset(timerHeap) == multiset(old(timerHeap)) + multiset{entry}
    {
      timerHeap := timerHeap + [entry];
      assert timerHeap[..|timerHeap| - 1] == old(timerHeap);
      timerHeap := PushHeap(timerHeap);
    }

    method PopTimer() returns (top: TimerEntry)
      requires Valid() && timerHeap != []
      modifies this`timerHeap
      ensures Valid() && |timerHeap| < |old(timerHeap)| && top in multiset(old(timerHeap)) && multiset(timerHeap) == multiset(old(timerHeap)) - multiset{top}
      ensures top == old(timerHeap)[0] && forall e :: e in old(timerHeap) ==> top.expire <= e.expire
    {
      HeapMembers(timerHeap);
      var h := PopHeap(timerHeap);
      top := h[|h| - 1];
      assert h == h[..|h| - 1] + [top];
      timerHeap := h[..|h| - 1];
    }

    method FireNext() returns (e: TimerEntry)
      requires Valid() && timerHeap != []
      modifies this`coros, this`readyQueue, this`timerHeap
      ensures Valid() && View() == FireOne(old(View()), e)
      ensures e == old(timerHeap)[0] && e in multiset(old(timerHeap))
      ensures |timerHeap| < |old(timerHeap)| && forall f :: f in old(timerHeap) ==> e.expire <= f.expire
      ensures multiset(timerHeap) == multiset(old(timerHeap)) - multiset{e}
    {
      e := PopTimer();
      coros := Retag(coros, e.co, READY);
      readyQueue := readyQueue + [e.co];
    }

    /** Pops and wakes everything that is due; `fired` is what was popped, in that order. */
    method FireTimers(now: int) returns (count: nat, ghost fired: seq<TimerEntry>)
      requires Valid()
      modifies this`coros, this`readyQueue, this`timerHeap
      ensures Valid() && View() == Machine.FireTimers(old(View()), fired)
      ensures Passed(old(timerHeap), now, fired, timerHeap) && count == |fired|
      ensures readyQueue == old(readyQueue) + Sleepers(fired)
    {
      count, fired := 0, [];
      HeapMembers(timerHeap);
      while timerHeap != [] && timerHeap[0].expire <= now
        invariant Valid() && count == |fired|
        invariant View() == Machine.FireTimers(old(View()), fired)
        invariant PoppedSoFar(old(timerHeap), now, fired, timerHeap)
        invariant readyQueue == old(readyQueue) + Sleepers(fired)
        decreases |timerHeap|
      {
        ghost var heap := timerHeap;
        var e := FireNext();
        OnePopped(old(timerHeap), now, fired, e, heap, timerHeap);
        FireTimersSnoc(old(View()), fired, e);
        SleepersSnoc(old(readyQueue), fired, e);
        count := count + 1;
        fired := fired + [e];
      }
      HeapMembers(timerHeap);
    }

    /** The milliseconds to the earliest deadline, as a 32-bit int; -1 without timers. */
    method NextTimeoutMs(now: int) returns (ms: int)
      requires Valid()
      ensures timerHeap == [] ==> ms == -1
      ensures timerHeap != [] ==> ms == ToInt32(if timerHeap[0].expire > now then timerHeap[0].expire - now else 0)
    {
      if timerHeap == [] {
        return -1;
      }
      var diff := timerHeap[0].expire - now;
      return ToInt32(if diff > 0 then diff else 0);
    }

    /** The timeout that run() passes to epoll_wait. */
    method PollTimeout(now: int) returns (timeout: int)
      requires Valid()
      ensures RightTimeout(multiset(timerHeap), now, timeout)
      ensures forall e :: e in timerHeap ==> timeout <= (if e.expire > now then e.expire - now else 0)
    {
      var ms := NextTimeoutMs(now);
      timeout := if ms < 0 then 50 else ms;
      if timerHeap == [] {
        return;
      }
      HeapMembers(timerHeap);
      NarrowedIsNotLater(if timerHeap[0].expire > now then timerHeap[0].expire - now else 0);
      FirstIsLeast(timerHeap);
      RightForLeast(multiset(timerHeap), now, timerHeap[0], timeout);
    }

    // ----- the loop -----

    /** epoll_wait(epoll_fd, evs, 64, ...): what the kernel reports of the fds on which something has happened. */
    method EpollWait(active: seq<Fd>)
      requires Valid() && evs == []
      modifies this`evs, this`epoll
      ensures Valid() && View() == Poll(old(View()), evs) && Distinct(evs) && |evs| <= 64
      ensures forall fd :: fd in evs ==> fd in active && Reportable(old(epoll), pipe, pipeBytes, fd)
      ensures |evs| < 64 ==> forall fd :: fd in active && Reportable(old(epoll), pipe, pipeBytes, fd) ==> fd in evs
    {
      var found: seq<Fd> := [];
      for i := 0 to |active|
        invariant Distinct(found) && |found| <= 64
        invariant forall fd :: fd in found ==> fd in active && Reportable(epoll, pipe, pipeBytes, fd)
        invariant |found| < 64 ==> forall k :: 0 <= k < i && Reportable(epoll, pipe, pipeBytes, active[k]) ==> active[k] in found
      {
        if |found| < 64 && active[i] !in found && Reportable(epoll, pipe, pipeBytes, active[i]) {
          found := found + [active[i]];
        }
      }
      evs := found;
      epoll := map fd | fd in epoll :: epoll[fd] && (fd == pipe || fd !in found);
    }

    /** Phase 1 up to the switch, and what the resumed coroutine does before it returns to its caller. */
    method Dispatch()
      requires Valid() && readyQueue != [] && readyQueue[0] in coros
      modifies this`readyQueue, this`runningCoro, this`coros, this`epoll
      ensures Valid() && View() == Machine.Dispatch(old(View()))
    {
      var co := readyQueue[0];
      readyQueue := readyQueue[1..];
      runningCoro := Some(co);
      var at := coros[co].at;
      coros := coros[co := Coroutine(RUNNING, Nowhere)];
      if at.InWait? {
        epoll := epoll - {at.fd};   // EPOLL_CTL_DEL
      }
    }

    /** The body of the coroutine returned or threw. */
    method Finish()
      requires Valid() && runningCoro.Some? && runningCoro.value in coros
      modifies this`coros
      ensures Valid() && View() == Machine.Finish(old(View()))
    {
      coros := Retag(coros, runningCoro.value, DONE);
    }

    /** Phase 1 after the switch. */
    method Reap()
      requires Valid() && (runningCoro.Some? ==> runningCoro.value in coros)
      modifies this`coros, this`runningCoro
      ensures Valid() && View() == Machine.Reap(old(View()))
    {
      if runningCoro.Some? && coros[runningCoro.value].state == DONE {
        coros := coros - {runningCoro.value};
      }
      runningCoro := None;
    }

    method EmptyPipe()
      modifies this`pipeBytes
      ensures pipeBytes == 0
    {
      while pipeBytes > 0   // read(pipe, buf, 64)
      {
        pipeBytes := if pipeBytes < 64 then 0 else pipeBytes - 64;
      }
    }

    /** One event: the pipe is emptied before the queue is taken; another fd wakes its coroutine. */
    method HandleNext()
      requires Valid() && evs != []
      modifies this`evs, this`coros, this`funcs, this`nextId, this`readyQueue, this`waitingMap, this`postQueue, this`pipeBytes
      ensures Valid() && View() == HandleEvent(old(View()), |old(postQueue)|) && evs == old(evs)[1..]
      ensures if old(evs)[0] == pipe then
                postQueue == [] && pipeBytes == 0 && nextId == old(nextId) + |old(postQueue)|
                && RunAll(funcs, old(nextId), old(postQueue)) && Kept(old(funcs), funcs, old(nextId))
              else postQueue == old(postQueue) && pipeBytes == old(pipeBytes) && nextId == old(nextId) && funcs == old(funcs)
      ensures forall ps, work :: old(Stands(ps, work)) ==>
                if old(evs)[0] == pipe then
                  Stands(Protocol.Drained(ps), work) && RunAll(funcs, old(nextId), Works(ps.queue, work))
                else Stands(ps, work)
    {
      var fd := evs[0];
      evs := evs[1..];
      if fd == pipe {
        CreateManyEvs(View(), |postQueue|);
        EmptyPipe();
        DrainPostQueue();
        return;
      }
      if fd in waitingMap {
        var co := waitingMap[fd];
        waitingMap := waitingMap - {fd};
        coros := Retag(coros, co, READY);
        readyQueue := readyQueue + [co];
      }
    }

    /** Phase 4: with the pipe in the result, every job posted so far becomes a coroutine. */
    method HandleEvents()
      requires Valid()
      modifies this`evs, this`coros, this`funcs, this`nextId, this`readyQueue, this`waitingMap, this`postQueue, this`pipeBytes
      ensures Valid() && View() == HandleAll(old(View()), |old(postQueue)|) && evs == []
      ensures if pipe in old(evs) then
                && postQueue == [] && pipeBytes == 0 && nextId == old(nextId) + |old(postQueue)|
                && RunAll(funcs, old(nextId), old(postQueue)) && Kept(old(funcs), funcs, old(nextId))
              else postQueue == old(postQueue) && pipeBytes == old(pipeBytes) && funcs == old(funcs) && nextId == old(nextId)
    {
      ghost var drained := false;
      while evs != []
        invariant Valid()
        invariant HandleAll(View(), |postQueue|) == HandleAll(old(View()), |old(postQueue)|)
        invariant pipe in old(evs) <==> drained || pipe in evs
        invariant nextId == old(nextId) + if drained then |old(postQueue)| else 0
        invariant if drained then
                    && postQueue == [] && pipeBytes == 0
                    && RunAll(funcs, old(nextId), old(postQueue)) && Kept(old(funcs), funcs, old(nextId))
                  else postQueue == old(postQueue) && pipeBytes == old(pipeBytes) && funcs == old(funcs)
        decreases |evs|
      {
        assert evs == [evs[0]] + evs[1..];
        ghost var now, was, next := evs[0] == pipe, funcs, nextId;
        CreateManyEvs(View().(evs := evs[1..]), |postQueue|);
        HandleNext();
        if drained {
          StillRun(was, old(nextId), old(postQueue), funcs, next);
        }
        drained := drained || now;
      }
    }
  }

  lemma HeapMembers(h: seq<TimerEntry>)
    requires IsHeap(h)
    ensures forall e :: e in h ==> h[0].expire <= e.expire
  {
    forall e | e in h ensures h[0].expire <= e.expire {
      var i :| 0 <= i < |h| && h[i] == e;
      TopIsEarliest(h, i);
    }
  }

  /** An expiry pass over a heap. */
  ghost predicate Passed(before: seq<TimerEntry>, now: int, fired: seq<TimerEntry>, after: seq<TimerEntry>) {
    && multiset(before) == multiset(fired) + multiset(after) && ByDeadline(fired)
    && (forall e :: e in fired ==> e.expire <= now) && (forall e :: e in after ==> now < e.expire)
  }

  /** `fired` and `left` make up the heap; `fired` is due, in deadline order, and no later than `left`. */
  ghost predicate PoppedSoFar(heap: seq<TimerEntry>, now: int, fired: seq<TimerEntry>, left: seq<TimerEntry>) {
    && multiset(heap) == multiset(fired) + multiset(left)
    && ByDeadline(fired) && (forall e :: e in fired ==> e.expire <= now)
    && forall e, f :: e in fired && f in left ==> e.expire <= f.expire
  }

  lemma OnePopped(heap: seq<TimerEntry>, now: int, fired: seq<TimerEntry>, e: TimerEntry, left: seq<TimerEntry>, left': seq<TimerEntry>)
    requires PoppedSoFar(heap, now, fired, left) && e in multiset(left) && e.expire <= now
    requires multiset(left') == multiset(left) - multiset{e} && forall f :: f in left ==> e.expire <= f.expire
    ensures PoppedSoFar(heap, now, fired + [e], left')
  {
    forall f | f in left' ensures f in left {
      assert f in multiset(left') && f in multiset(left);
    }
    assert e in left;
  }

  lemma SleepersSnoc(ready: seq<CoId>, fired: seq<TimerEntry>, e: TimerEntry)
    ensures ready + Sleepers(fired + [e]) == ready + Sleepers(fired) + [e.co]
  {
    assert (fired + [e])[..|fired|] == fired;
  }

  lemma FireTimersSnoc(s: Sched, fired: seq<TimerEntry>, e: TimerEntry)
    ensures FireTimers(s, fired + [e]) == FireOne(FireTimers(s, fired), e)
  {
    assert (fired + [e])[..|fired|] == fired;
  }

  /** Narrowing never lengthens a wait, once negative results are read as 50. */
  lemma NarrowedIsNotLater(diff: nat)
    ensures var ms := ToInt32(diff); (if ms < 0 then 50 else ms) <= diff
  {
    if diff < INT_RANGE / 2 {
      assert diff % INT_RANGE == diff;
    } else {
      assert diff % INT_RANGE <= diff;
    }
  }

  /** No deadline is earlier than this one. */
  ghost predicate IsLeast(timers: multiset<TimerEntry>, e: TimerEntry) {
    e in timers && forall f :: f in timers ==> e.expire <= f.expire
  }

  /** The time that epoll_wait should sleep: 50 ms without timers, else what is left until the earliest deadline,
      nothing if that has passed. From 2^31 ms on, what is left loses its high bits, and where bit 31 is set, it
      is 50 ms again. */
  ghost predicate RightTimeout(timers: multiset<TimerEntry>, now: int, timeout: int) {
    && 0 <= timeout < 0x8000_0000
    && (timers == multiset{} ==> timeout == 50)
    && (forall e :: IsLeast(timers, e) ==> FitsLeft(if now < e.expire then e.expire - now else 0, timeout))
  }

  predicate FitsLeft(left: nat, timeout: int) {
    && (left < 0x8000_0000 ==> timeout == left)
    && (left % 0x1_0000_0000 < 0x8000_0000 ==> timeout == left % 0x1_0000_0000)
    && (left % 0x1_0000_0000 >= 0x8000_0000 ==> timeout == 50)
  }

  lemma FirstIsLeast(h: seq<TimerEntry>)
    requires IsHeap(h) && h != []
    ensures IsLeast(multiset(h), h[0])
  {
    HeapMembers(h);
    forall f | f in multiset(h) ensures h[0].expire <= f.expire {
      assert f in h;
    }
  }

  lemma RightForLeast(timers: multiset<TimerEntry>, now: int, first: TimerEntry, timeout: int)
    requires IsLeast(timers, first)
    requires var ms := ToInt32(if first.expire > now then first.expire - now else 0); timeout == if ms < 0 then 50 else ms
    ensures RightTimeout(timers, now, timeout)
  {
    forall e | IsLeast(timers, e) ensures e.expire == first.expire {
    }
    LeftFits(if first.expire > now then first.expire - now else 0);
  }

  lemma LeftFits(left: nat)
    ensures var ms := ToInt32(left);
            var timeout := if ms < 0 then 50 else ms;
            FitsLeft(left, timeout) && 0 <= timeout < 0x8000_0000
  {
    assert left < 0x8000_0000 ==> left % 0x1_0000_0000 == left;
  }

  class Channel<T> {
    const sched: Scheduler
    const id: ChId
    var sendWaiter: Option<CoId>
    var sendVal: Option<T>
    var recvWaiter: Option<CoId>
    var recvSlot: Option<CoId>
    var results: map<CoId, T>     // the `result` locals of receivers

    function View(): Chan<T>
      reads this
    {
      Chan(sendWaiter, sendVal, recvWaiter, recvSlot, results)
    }

    ghost predicate Valid()
      reads this
    {
      Shape(View())
    }

    constructor (sched: Scheduler, id: ChId)
      ensures Valid() && View() == Chan(None, None, None, None, map[])
      ensures this.sched == sched && this.id == id
    {
      this.sched, this.id := sched, id;
      sendWaiter, sendVal, recvWaiter, recvSlot, results := None, None, None, None, map[];
    }

    method Send(val: T)
      requires Valid() && sched.Valid() && sched.runningCoro.Some? && sched.runningCoro.value in sched.coros
      requires recvWaiter.Some? ==> recvWaiter.value in sched.coros
      modifies this`sendWaiter, this`sendVal, this`recvWaiter, this`recvSlot, this`results
      modifies sched`coros, sched`readyQueue, sched`runningCoro
      ensures Valid() && sched.Valid()
      ensures (sched.View(), View()) == Machine.Send(old(sched.View()), old(View()), id, val)
    {
      var self := sched.runningCoro.value;
      if recvWaiter.Some? {
        results := results[recvSlot.value := val];
        recvSlot := None;
        var r := recvWaiter.value;
        recvWaiter := None;
        sched.coros := Retag(sched.coros, r, READY);
        sched.readyQueue := sched.readyQueue + [r];
        sched.Yield();
      } else {
        sendVal := Some(val);
        sendWaiter := Some(self);
        sched.coros := sched.coros[self := Coroutine(WAITING, InSend(id))];
        sched.runningCoro := None;
      }
    }

    /** Some(v) when a parked sender's value is returned at once; None when the caller parks. */
    method Recv() returns (got: Option<T>)
      requires Valid() && sched.Valid() && sched.runningCoro.Some? && sched.runningCoro.value in sched.coros
      requires sendWaiter.Some? ==> sendWaiter.value in sched.coros
      modifies this`sendWaiter, this`sendVal, this`recvWaiter, this`recvSlot
      modifies sched`coros, sched`readyQueue, sched`runningCoro
      ensures Valid() && sched.Valid()
      ensures (sched.View(), View(), got) == Machine.Recv(old(sched.View()), old(View()), id)
    {
      var self := sched.runningCoro.value;
      if sendWaiter.Some? {
        got, sendVal := sendVal, None;
        var s := sendWaiter.value;
        sendWaiter := None;
        sched.coros := Retag(sched.coros, s, READY);
        sched.readyQueue := sched.readyQueue + [s];
      } else {
        recvSlot := Some(self);
        recvWaiter := Some(self);
        sched.coros := sched.coros[self := Coroutine(WAITING, InRecv(id))];
        sched.runningCoro := None;
        got := None;
      }
    }
  }
}
