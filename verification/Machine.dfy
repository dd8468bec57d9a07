/** One scheduler thread as a step machine: the loop of run(), the calls coroutines make, and the channels.
    A step ends where control passes between the loop and a coroutine (swapcontext). */
module Machine {
  import opened Bytes
  import opened TimerHeap

  type CoId = nat
  type Fd = int
  type ChId = nat

  datatype State = READY | RUNNING | WAITING | DONE

  /** The scheduler call that a coroutine's own stack is suspended in. */
  datatype Call = Nowhere | InYield | InWait(fd: Fd) | InSleep(until: int) | InSend(ch: ChId) | InRecv(ch: ChId)

  datatype Coroutine = Coroutine(state: State, at: Call)

  /** `coros` are the live Coroutine objects by pointer; `epoll` says of each registered fd whether it is
      armed; `evs` is the part of the epoll_wait result that the loop has not handled yet. */
  datatype Sched = Sched(
    coros: map<CoId, Coroutine>,
    running: Option<CoId>,
    nextId: nat,
    ready: seq<CoId>,
    waiting: map<Fd, CoId>,
    timers: multiset<TimerEntry>,
    epoll: map<Fd, bool>,
    evs: seq<Fd>,
    pipe: Fd)

  /** `recvSlot` names the receiver whose local `result` the pointer recv_slot_ leads to; `results` holds
      those locals. */
  datatype Chan<T> = Chan(sendWaiter: Option<CoId>, sendVal: Option<T>,
                          recvWaiter: Option<CoId>, recvSlot: Option<CoId>, results: map<CoId, T>)

  /** A channel with the values it was ever given and the values it ever handed to a receiver. */
  datatype Line<T> = Line(chan: Chan<T>, sent: seq<T>, handed: seq<T>)

  /** `log` lists the dispatches and `reaped` the deletions so far. */
  datatype World<T> = World(s: Sched, lines: map<ChId, Line<T>>, log: seq<CoId>, reaped: seq<CoId>)

  // ----- the steps on the scheduler alone -----

  function Retag(coros: map<CoId, Coroutine>, c: CoId, state: State): (r: map<CoId, Coroutine>)
    ensures r.Keys == coros.Keys
  {
    if c in coros then coros[c := coros[c].(state := state)] else coros
  }

  function Create(s: Sched): Sched {
    s.(coros := s.coros[s.nextId := Coroutine(READY, Nowhere)], ready := s.ready + [s.nextId], nextId := s.nextId + 1)
  }

  function CreateMany(s: Sched, n: nat): Sched {
    if n == 0 then s else Create(CreateMany(s, n - 1))
  }

  function Wake(s: Sched, c: CoId): Sched {
    s.(coros := Retag(s.coros, c, READY), ready := s.ready + [c])
  }

  /** The running coroutine leaves the processor. */
  function Suspend(s: Sched, state: State, at: Call): Sched {
    match s.running
    case None => s
    case Some(c) => s.(coros := s.coros[c := Coroutine(state, at)], running := None)
  }

  function Yield(s: Sched): Sched {
    match s.running
    case None => s
    case Some(c) => Suspend(s, READY, InYield).(ready := s.ready + [c])
  }

  datatype Registration = Added | ModifiedWaiting | ModifiedExisting

  /** Which epoll_ctl call of wait_event takes effect. */
  function RegistrationOf(s: Sched, fd: Fd): Registration {
    if fd in s.waiting then ModifiedWaiting else if fd in s.epoll then ModifiedExisting else Added
  }

  function Register(s: Sched, fd: Fd): map<Fd, bool> {
    if RegistrationOf(s, fd) == ModifiedWaiting && fd !in s.epoll then s.epoll else s.epoll[fd := true]
  }

  function WaitEvent(s: Sched, fd: Fd): Sched {
    match s.running
    case None => s
    case Some(c) => Suspend(s, WAITING, InWait(fd)).(epoll := Register(s, fd), waiting := s.waiting[fd := c])
  }

  function Sleep(s: Sched, ms: int, now: int): Sched {
    match s.running
    case None => s
    case Some(c) =>
      if ms <= 0 then Yield(s)
      else Suspend(s, WAITING, InSleep(now + ms)).(timers := s.timers + multiset{TimerEntry(now + ms, c)})
  }

  function Finish(s: Sched): Sched {
    match s.running
    case None => s
    case Some(c) => s.(coros := Retag(s.coros, c, DONE))
  }

  /** What run() does when control comes back to it. */
  function Reap(s: Sched): Sched {
    match s.running
    case None => s
    case Some(c) =>
      if c in s.coros && s.coros[c].state == DONE then s.(coros := s.coros - {c}, running := None)
      else s.(running := None)
  }

  /** The front coroutine gets the processor; one that comes out of wait_event first deregisters its fd. */
  function Dispatch(s: Sched): Sched
    requires s.ready != [] && s.ready[0] in s.coros
  {
    var c := s.ready[0];
    s.(ready := s.ready[1..], running := Some(c), coros := s.coros[c := Coroutine(RUNNING, Nowhere)],
       epoll := if s.coros[c].at.InWait? then s.epoll - {s.coros[c].at.fd} else s.epoll)
  }

  function Sleepers(fired: seq<TimerEntry>): (r: seq<CoId>)
    ensures |r| == |fired| && forall i :: 0 <= i < |r| ==> r[i] == fired[i].co
  {
    if fired == [] then [] else Sleepers(fired[..|fired| - 1]) + [fired[|fired| - 1].co]
  }

  predicate ByDeadline(fired: seq<TimerEntry>) {
    forall i, j :: 0 <= i < j < |fired| ==> fired[i].expire <= fired[j].expire
  }

  /** `fired` is what fire_timers pops at time `now`: all that is due, and nothing else, in deadline order. */
  ghost predicate Due(timers: multiset<TimerEntry>, now: int, fired: seq<TimerEntry>) {
    && multiset(fired) <= timers && ByDeadline(fired)
    && (forall e :: e in fired ==> e.expire <= now)
    && (forall e :: e in timers - multiset(fired) ==> e.expire > now)
  }

  function FireOne(s: Sched, e: TimerEntry): Sched {
    Wake(s.(timers := s.timers - multiset{e}), e.co)
  }

  function FireTimers(s: Sched, fired: seq<TimerEntry>): Sched {
    if fired == [] then s
    else FireOne(FireTimers(s, fired[..|fired| - 1]), fired[|fired| - 1])
  }

  /** One-shot arming: an fd that epoll_wait reports is disarmed; the pipe is level-triggered. */
  function Poll(s: Sched, evs: seq<Fd>): Sched {
    s.(evs := evs, epoll := map fd | fd in s.epoll :: s.epoll[fd] && (fd == s.pipe || fd !in evs))
  }

  /** The loop handles the next event: `jobs` posted jobs for the pipe, else a wake-up. */
  function HandleEvent(s: Sched, jobs: nat): Sched
    requires s.evs != []
  {
    var fd := s.evs[0];
    var s' := s.(evs := s.evs[1..]);
    if fd == s.pipe then CreateMany(s', jobs)
    else if fd in s.waiting then
      s'.(waiting := s.waiting - {fd}, coros := Retag(s.coros, s.waiting[fd], READY), ready := s.ready + [s.waiting[fd]])
    else s'
  }

  // ----- the channel -----

  function Send<T>(s: Sched, ch: Chan<T>, id: ChId, val: T): (Sched, Chan<T>)
    requires s.running.Some?
  {
    if ch.recvWaiter.Some? then
      (Yield(Wake(s, ch.recvWaiter.value)),
       ch.(results := if ch.recvSlot.Some? then ch.results[ch.recvSlot.value := val] else ch.results,
           recvSlot := None, recvWaiter := None))
    else (Suspend(s, WAITING, InSend(id)), ch.(sendVal := Some(val), sendWaiter := s.running))
  }

  /** The third component is the value that recv returns at once; None if the receiver parks. */
  function Recv<T>(s: Sched, ch: Chan<T>, id: ChId): (Sched, Chan<T>, Option<T>)
    requires s.running.Some?
  {
    if ch.sendWaiter.Some? then
      (Wake(s, ch.sendWaiter.value), ch.(sendWaiter := None, sendVal := None), ch.sendVal)
    else (Suspend(s, WAITING, InRecv(id)), ch.(recvSlot := s.running, recvWaiter := s.running), None)
  }

  // ----- worlds and runs -----

  datatype Op<T> =
    | OpCreate | OpYield | OpWait(fd: Fd) | OpSleep(ms: int, now: int)
    | OpSend(ch: ChId, val: T) | OpRecv(ch: ChId) | OpFinish
    | OpDispatch | OpReap | OpFire(now: int, fired: seq<TimerEntry>) | OpPoll(evs: seq<Fd>) | OpEvent(jobs: nat)

  predicate InCoroutine(s: Sched) {
    s.running.Some? && s.running.value in s.coros && s.coros[s.running.value].state == RUNNING
  }

  predicate Distinct<A(==)>(q: seq<A>) {
    forall i, j :: 0 <= i < j < |q| ==> q[i] != q[j]
  }

  ghost predicate Enabled<T>(w: World<T>, op: Op<T>) {
    match op
    case OpCreate => w.s.running == None || InCoroutine(w.s)
    case OpYield => InCoroutine(w.s)
    case OpWait(_) => InCoroutine(w.s)
    case OpSleep(_, _) => InCoroutine(w.s)
    case OpSend(ch, _) => InCoroutine(w.s) && ch in w.lines
    case OpRecv(ch) => InCoroutine(w.s) && ch in w.lines
    case OpFinish => InCoroutine(w.s)
    case OpDispatch => w.s.running == None && w.s.evs == [] && w.s.ready != [] && w.s.ready[0] in w.s.coros
    case OpReap => w.s.running.Some? && w.s.running.value in w.s.coros && w.s.coros[w.s.running.value].state == DONE
    case OpFire(now, fired) => w.s.running == None && w.s.evs == [] && Due(w.s.timers, now, fired)
    case OpPoll(evs) =>
      && w.s.running == None && w.s.evs == [] && w.s.ready == [] && Distinct(evs) && |evs| <= 64
      && forall fd :: fd in evs ==> fd in w.s.epoll && (w.s.epoll[fd] || fd == w.s.pipe)
    case OpEvent(_) => w.s.running == None && w.s.evs != []
  }

  /** Some coroutine is inside wait_event on this fd, or it is the wake-up pipe. */
  predicate FdInUse(s: Sched, fd: Fd) {
    fd == s.pipe || exists c :: c in s.coros && s.coros[c].at == InWait(fd)
  }

  /** What the program must see to: one coroutine per fd, one parked sender and one parked receiver per channel. */
  predicate Discipline<T>(w: World<T>, op: Op<T>) {
    match op
    case OpWait(fd) => !FdInUse(w.s, fd)
    case OpSend(ch, _) => ch in w.lines && (w.lines[ch].chan.recvWaiter.Some? || w.lines[ch].chan.sendWaiter == None)
    case OpRecv(ch) => ch in w.lines && (w.lines[ch].chan.sendWaiter.Some? || w.lines[ch].chan.recvWaiter == None)
    case _ => true
  }

  function SendLine<T>(s: Sched, l: Line<T>, ch: ChId, val: T): Line<T>
    requires s.running.Some?
  {
    Line(Send(s, l.chan, ch, val).1, l.sent + [val], if l.chan.recvWaiter.Some? then l.handed + [val] else l.handed)
  }

  function RecvLine<T>(s: Sched, l: Line<T>, ch: ChId): Line<T>
    requires s.running.Some?
  {
    var (_, chan, got) := Recv(s, l.chan, ch);
    Line(chan, l.sent, if got.Some? then l.handed + [got.value] else l.handed)
  }

  ghost function Step<T>(w: World<T>, op: Op<T>): World<T>
    requires Enabled(w, op)
  {
    match op
    case OpCreate => w.(s := Create(w.s))
    case OpYield => w.(s := Yield(w.s))
    case OpWait(fd) => w.(s := WaitEvent(w.s, fd))
    case OpSleep(ms, now) => w.(s := Sleep(w.s, ms, now))
    case OpSend(ch, val) => w.(s := Send(w.s, w.lines[ch].chan, ch, val).0, lines := w.lines[ch := SendLine(w.s, w.lines[ch], ch, val)])
    case OpRecv(ch) => w.(s := Recv(w.s, w.lines[ch].chan, ch).0, lines := w.lines[ch := RecvLine(w.s, w.lines[ch], ch)])
    case OpFinish => w.(s := Finish(w.s))
    case OpDispatch => w.(s := Dispatch(w.s), log := w.log + [w.s.ready[0]])
    case OpReap => w.(s := Reap(w.s), reaped := w.reaped + [w.s.running.value])
    case OpFire(_, fired) => w.(s := FireTimers(w.s, fired))
    case OpPoll(evs) => w.(s := Poll(w.s, evs))
    case OpEvent(jobs) => w.(s := HandleEvent(w.s, jobs))
  }

  ghost predicate Possible<T>(w: World<T>, ops: seq<Op<T>>)
    decreases |ops|
  {
    ops != [] ==> Enabled(w, ops[0]) && Possible(Step(w, ops[0]), ops[1..])
  }

  ghost function Run<T>(w: World<T>, ops: seq<Op<T>>): World<T>
    requires Possible(w, ops)
    decreases |ops|
  {
    if ops == [] then w else Run(Step(w, ops[0]), ops[1..])
  }

  ghost predicate Disciplined<T>(w: World<T>, ops: seq<Op<T>>)
    requires Possible(w, ops)
    decreases |ops|
  {
    ops != [] ==> Discipline(w, ops[0]) && Disciplined(Step(w, ops[0]), ops[1..])
  }

  /** A scheduler just constructed, and channels nobody has used. */
  function Start<T>(pipe: Fd, channels: set<ChId>): World<T> {
    World(Sched(map[], None, 1, [], map[], multiset{}, map[pipe := true], [], pipe),
          map ch | ch in channels :: Line(Chan(None, None, None, None, map[]), [], []), [], [])
  }
}
