/** The platform event loop as a transition system: any number of threads in PostTask, and the
    main thread going round the poll loop of Run. Each step is one atomic action of one thread. */
module Scheduler {
  import opened Tasks

  type ThreadId = nat

  /** The thread that runs the poll loop. It may itself be inside PostTask, from code it calls. */
  const MAIN: ThreadId := 0

  /** Where a call of PostTask stands. A thread that is in no call has no entry. */
  datatype Poster =
    | Entered(target: nat, task: FlutterTask, began: nat)
    | Ordered(t: Task)    // has taken its order number
    | Locked(t: Task)     // holds the mutex
    | Pushed(t: Task)     // has pushed, still holds the mutex
    | Unlocked(t: Task)   // has still to write the event descriptor

  /** Where the main thread stands. */
  datatype Main =
    | Polling                                               // in ppoll
    | Polled(vsync: bool, wake: bool, timedOut: bool)       // has the poll results
    | HandlingVsync
    | ReadingEventfd
    | WantsDrain                                            // in ProcessEvents, before the lock
    | Draining(start: nat)                                  // holds the mutex
    | Firing                                                // between callbacks
    | InCallback(t: Task)
    | Peeking                                               // holds the mutex
    | Dispatching(processed: bool)                          // end of an outer iteration

  datatype Mutex = Free | HeldBy(tid: ThreadId)

  /** What has happened, by order number: `tick` counts the steps of the run, and the maps say at
      which step a call began, pushed and returned and at which step its task left the queue. */
  datatype History = History(
    tick: nat,
    issued: map<nat, Task>,
    began: map<nat, nat>,
    pushedAt: map<nat, nat>,
    poppedAt: map<nat, nat>,
    returned: map<nat, nat>)

  datatype State = State(
    now: nat,                       // the engine's clock
    counter: nat,                   // the static order counter
    queue: multiset<Task>,
    mutex: Mutex,
    eventfd: nat,                   // counter of the event descriptor
    posters: map<ThreadId, Poster>,
    main: Main,
    timestamp: nat,                 // timestamp_of_next_platform_event_ns
    batch: seq<Task>,               // taken, not fired yet
    batchFired: seq<Task>,          // fired since the last drain began
    drained: nat,                   // length of the queue when the last drain began
    lastStart: int,                 // clock at the last drain, -1 before the first
    lastWake: nat,                  // what ProcessEvents last returned, 0 before its first return
    peeked: multiset<Task>,         // the queue it returned that for
    pushed: multiset<Task>,
    fired: seq<Task>,
    h: History)

  const Init := State(0, 0, multiset{}, Free, 0, map[], Polling, 0, [], [], 0, -1, 0, multiset{}, multiset{}, [],
                      History(0, map[], map[], map[], map[], map[]))

  datatype Step =
    | Advance(d: nat)
    | Begin(tid: ThreadId, target: nat, task: FlutterTask)
    | TakeOrder(tid: ThreadId)
    | Lock(tid: ThreadId)
    | Push(tid: ThreadId)
    | Unlock(tid: ThreadId)
    | Write(tid: ThreadId)
    | PollReturn(vsync: bool, timedOut: bool)
    | TakeVsync
    | VsyncContinue
    | GoRead
    | GoDrain
    | SkipDrain
    | ReadEventfd
    | AcquireDrain
    | PopDue(top: Task)
    | FinishDrain
    | FireNext
    | CallbackReturns
    | AcquirePeek
    | Peek(wake: nat)
    | NextIteration

  /** The main thread calls code that may post: the engine, a task, a Wayland listener. */
  predicate CallsOut(m: Main) {
    m.Polled? || m.HandlingVsync? || m.InCallback? || m.Dispatching?
  }

  predicate IsMainStep(step: Step) {
    !step.Advance? && !step.Begin? && !step.TakeOrder? && !step.Lock? && !step.Push? && !step.Unlock? && !step.Write?
  }

  ghost predicate Enabled(s: State, step: Step) {
    && (IsMainStep(step) ==> MAIN !in s.posters)
    && match step
       case Advance(_) => true
       case Begin(tid, _, _) => tid !in s.posters && (tid == MAIN ==> CallsOut(s.main))
       case TakeOrder(tid) => tid in s.posters && s.posters[tid].Entered?
       case Lock(tid) => tid in s.posters && s.posters[tid].Ordered? && s.mutex.Free?
       case Push(tid) => tid in s.posters && s.posters[tid].Locked?
       case Unlock(tid) => tid in s.posters && s.posters[tid].Pushed?
       case Write(tid) => tid in s.posters && s.posters[tid].Unlocked?
       case PollReturn(vsync, timedOut) => s.main.Polling? && (timedOut ==> !vsync && s.eventfd == 0)
       case TakeVsync => s.main.Polled? && s.main.vsync
       case VsyncContinue => s.main.HandlingVsync?
       case GoRead => s.main.Polled? && !s.main.vsync && s.main.wake
       case GoDrain => s.main.Polled? && !s.main.vsync && !s.main.wake && s.main.timedOut
       case SkipDrain => s.main.Polled? && !s.main.vsync && !s.main.wake && !s.main.timedOut
       case ReadEventfd => s.main.ReadingEventfd? && s.eventfd > 0
       case AcquireDrain => s.main.WantsDrain? && s.mutex.Free?
       case PopDue(top) => s.main.Draining? && IsTop(top, s.queue) && top.fireTime <= s.main.start
       case FinishDrain => s.main.Draining? && (forall t :: t in s.queue ==> t.fireTime > s.main.start)
       case FireNext => s.main.Firing? && s.batch != []
       case CallbackReturns => s.main.InCallback?
       case AcquirePeek => s.main.Firing? && s.batch == [] && s.mutex.Free?
       case Peek(wake) => s.main.Peeking? && IsNextWake(wake, s.queue)
       case NextIteration => s.main.Dispatching?
  }

  function ApplyPoster(s: State, tid: ThreadId, p: Poster): State {
    s.(posters := s.posters[tid := p])
  }

  /** The effect of a step on everything but the step count. */
  function Effect(s: State, step: Step): State
    requires Enabled(s, step)
  {
    match step
    case Advance(d) => s.(now := s.now + d)
    case Begin(tid, target, task) => ApplyPoster(s, tid, Entered(target, task, s.h.tick))
    case TakeOrder(tid) =>
      var p, o := s.posters[tid], s.counter + 1;
      var t := Task(o, p.target, p.task);
      ApplyPoster(s, tid, Ordered(t)).(
        counter := o,
        h := s.h.(issued := s.h.issued[o := t], began := s.h.began[o := p.began]))
    case Lock(tid) => ApplyPoster(s, tid, Locked(s.posters[tid].t)).(mutex := HeldBy(tid))
    case Push(tid) =>
      var t := s.posters[tid].t;
      ApplyPoster(s, tid, Pushed(t)).(
        queue := s.queue + multiset{t},
        pushed := s.pushed + multiset{t},
        h := s.h.(pushedAt := s.h.pushedAt[t.order := s.h.tick]))
    case Unlock(tid) => ApplyPoster(s, tid, Unlocked(s.posters[tid].t)).(mutex := Free)
    case Write(tid) =>
      s.(posters := s.posters - {tid},
         eventfd := s.eventfd + 1,
         h := s.h.(returned := s.h.returned[s.posters[tid].t.order := s.h.tick]))
    case PollReturn(vsync, timedOut) => s.(main := Polled(vsync, s.eventfd > 0, timedOut))
    case TakeVsync => s.(main := HandlingVsync)
    case VsyncContinue => s.(main := Polling)
    case GoRead => s.(main := ReadingEventfd)
    case GoDrain => s.(main := WantsDrain)
    case SkipDrain => s.(main := Dispatching(false))
    case ReadEventfd => s.(main := WantsDrain, eventfd := 0)
    case AcquireDrain =>
      s.(main := Draining(s.now), mutex := HeldBy(MAIN), lastStart := s.now, drained := |s.queue|, batchFired := [])
    case PopDue(top) =>
      s.(queue := s.queue - multiset{top},
         batch := s.batch + [top],
         h := s.h.(poppedAt := s.h.poppedAt[top.order := s.h.tick]))
    case FinishDrain => s.(main := Firing, mutex := Free)
    case FireNext =>
      s.(main := InCallback(s.batch[0]),
         batch := s.batch[1..],
         fired := s.fired + [s.batch[0]],
         batchFired := s.batchFired + [s.batch[0]])
    case CallbackReturns => s.(main := Firing)
    case AcquirePeek => s.(main := Peeking, mutex := HeldBy(MAIN))
    case Peek(wake) =>
      s.(main := Dispatching(true), mutex := Free, timestamp := wake, lastWake := wake, peeked := s.queue)
    case NextIteration => s.(main := Polling, timestamp := 0)
  }

  function Apply(s: State, step: Step): State
    requires Enabled(s, step)
  {
    var e := Effect(s, step);
    e.(h := e.h.(tick := s.h.tick + 1))
  }

  /** `steps` leads from `s` to `s'`. */
  ghost predicate Runs(s: State, steps: seq<Step>, s': State)
    decreases |steps|
  {
    if steps == [] then s' == s
    else Enabled(s, steps[0]) && Runs(Apply(s, steps[0]), steps[1..], s')
  }

  ghost predicate Reachable(s: State) {
    exists steps :: Runs(Init, steps, s)
  }

  // ---------- invariants ----------

  /** The order number of `t` was given to `t`. */
  ghost predicate IsIssued(issued: map<nat, Task>, t: Task) {
    t.order in issued && issued[t.order] == t
  }

  /** Every order number names one task, and a task is pushed at most once. */
  ghost predicate Numbered(issued: map<nat, Task>, counter: nat, pushed: multiset<Task>) {
    && (forall o :: o in issued ==> 1 <= o <= counter && issued[o].order == o)
    && (forall t :: t in pushed ==> pushed[t] == 1 && IsIssued(issued, t))
  }

  /** The poster's task bears a number, and has been pushed if the poster says so. */
  ghost predicate OwnsTask(p: Poster, issued: map<nat, Task>, pushed: multiset<Task>) {
    p.Entered? || (IsIssued(issued, p.t) && (p.t in pushed <==> p.Pushed? || p.Unlocked?))
  }

  ghost predicate DifferentTasks(p: Poster, q: Poster) {
    p.Entered? || q.Entered? || p.t.order != q.t.order
  }

  /** Each thread inside PostTask has a task of its own. */
  ghost predicate PostersApart(posters: map<ThreadId, Poster>, issued: map<nat, Task>, pushed: multiset<Task>) {
    && (forall i :: i in posters ==> OwnsTask(posters[i], issued, pushed))
    && (forall i, j :: i in posters && j in posters && i != j ==> DifferentTasks(posters[i], posters[j]))
  }

  ghost predicate Identified(s: State) {
    && Numbered(s.h.issued, s.counter, s.pushed)
    && PostersApart(s.posters, s.h.issued, s.pushed)
  }

  /** Every pushed task is in exactly one place. */
  ghost predicate Partition(pushed: multiset<Task>, popped: seq<Task>, queue: multiset<Task>) {
    pushed == multiset(popped) + queue
  }

  ghost predicate ExactlyOnce(s: State) {
    Partition(s.pushed, s.fired + s.batch, s.queue)
  }

  predicate PosterHolds(p: Poster) { p.Locked? || p.Pushed? }

  predicate MainHolds(m: Main) { m.Draining? || m.Peeking? }

  /** The mutex is held by exactly the thread inside a critical section. */
  ghost predicate MutexCorrect(s: State) {
    && (MAIN in s.posters ==> CallsOut(s.main))
    && (MainHolds(s.main) ==> s.mutex == HeldBy(MAIN))
    && (forall tid :: tid in s.posters && PosterHolds(s.posters[tid]) ==> s.mutex == HeldBy(tid))
    && (s.mutex.HeldBy? ==>
          || (s.mutex.tid == MAIN && MainHolds(s.main))
          || (s.mutex.tid in s.posters && PosterHolds(s.posters[s.mutex.tid])))
  }

  /** Thread `tid` has pushed `t` and will yet write the event descriptor. */
  ghost predicate WillWake(s: State, tid: ThreadId, t: Task) {
    tid in s.posters && (s.posters[tid] == Pushed(t) || s.posters[tid] == Unlocked(t))
  }

  /** A wake-up for `t` is on its way or waits in the event descriptor. */
  ghost predicate WakeOutstanding(s: State, t: Task) {
    s.eventfd > 0 || exists tid :: WillWake(s, tid, t)
  }

  /** Every queued task was seen by the last drain and is later, or a wake-up for it is
      outstanding, or the main thread has committed to a drain. */
  ghost predicate NoLostWake(s: State) {
    forall t :: t in s.queue ==>
      || t.fireTime > s.lastStart
      || s.main.WantsDrain? || s.main.Draining?
      || WakeOutstanding(s, t)
  }

  /** What the poll results claim about the event descriptor is still so when they are used. */
  ghost predicate PollHonest(s: State) {
    && (s.main.Polled? && s.main.wake ==> s.eventfd > 0)
    && (s.main.ReadingEventfd? ==> s.eventfd > 0)
  }

  /** The main thread has committed to ProcessEvents and has not returned from it. */
  predicate InProcessEvents(m: Main) {
    m.WantsDrain? || m.Draining? || m.Firing? || m.InCallback? || m.Peeking?
  }

  /** The time last returned was right for the queue it was returned for. Outside ProcessEvents that
      queue is still there, and a wake-up is outstanding for every task that has joined it. */
  ghost predicate PeekKnows(s: State) {
    && IsNextWake(s.lastWake, s.peeked)
    && (!InProcessEvents(s.main) ==>
          && s.peeked <= s.queue
          && forall t :: t in s.queue ==> t in s.peeked || WakeOutstanding(s, t))
  }

  /** The time is kept from the return of ProcessEvents to the end of the outer iteration. */
  ghost predicate TimestampKept(s: State) {
    s.timestamp == if s.main == Dispatching(true) then s.lastWake else 0
  }

  /** The clock, and the order and the length of a batch. */
  ghost predicate BatchGood(s: State) {
    && -1 <= s.lastStart <= s.now
    && (s.main.Draining? ==> s.main.start == s.lastStart && s.batchFired == [])
    && (s.main.Firing? || s.main.InCallback? || s.main.Peeking? || s.main == Dispatching(true) ==> s.lastStart >= 0)
    && (!s.main.Draining? && !s.main.Firing? && !s.main.InCallback? ==> s.batch == [])
    && (forall t :: t in s.batch ==> t.fireTime <= s.lastStart)
    && (forall t :: t in s.fired ==> t.fireTime <= s.now)
    && Sorted(s.batchFired + s.batch)
    && (s.main.Draining? ==> forall t :: t in s.batch ==> NoneBefore(t, s.queue))
    && (if s.main.Draining? then |s.batch| + |s.queue| == s.drained
        else |s.batchFired| + |s.batch| <= s.drained)
  }

  ghost predicate Past(times: map<nat, nat>, tick: nat) {
    forall o :: o in times ==> times[o] < tick
  }

  /** Whatever has the later date has the earlier one too, and it is earlier. */
  ghost predicate Precedes(earlier: map<nat, nat>, later: map<nat, nat>) {
    forall o :: o in later ==> o in earlier && earlier[o] < later[o]
  }

  ghost predicate BegunInPast(posters: map<ThreadId, Poster>, tick: nat) {
    forall tid :: tid in posters && posters[tid].Entered? ==> posters[tid].began < tick
  }

  ghost predicate PushesDated(pushedAt: map<nat, nat>, issued: map<nat, Task>, pushed: multiset<Task>) {
    && (forall o :: o in pushedAt ==> o in issued && issued[o].order == o && issued[o] in pushed)
    && (forall t :: t in pushed ==> t.order in pushedAt)
  }

  /** The history is dated: a call begins, then pushes, then returns, and a task is taken after it
      was pushed. */
  ghost predicate DatedHistory(h: History, pushed: multiset<Task>) {
    && Past(h.began, h.tick) && Past(h.pushedAt, h.tick) && Past(h.poppedAt, h.tick) && Past(h.returned, h.tick)
    && h.began.Keys == h.issued.Keys
    && PushesDated(h.pushedAt, h.issued, pushed)
    && Precedes(h.began, h.pushedAt)
    && Precedes(h.pushedAt, h.returned)
    && Precedes(h.pushedAt, h.poppedAt)
  }

  ghost predicate Dated(s: State) {
    DatedHistory(s.h, s.pushed) && BegunInPast(s.posters, s.h.tick)
  }

  /** The tasks were taken one after the other, in the order of the sequence. */
  ghost predicate TakenInSequence(popped: seq<Task>, poppedAt: map<nat, nat>, issued: map<nat, Task>) {
    && (forall i :: 0 <= i < |popped| ==> popped[i].order in poppedAt)
    && (forall i, j :: 0 <= i < j < |popped| ==> poppedAt[popped[i].order] < poppedAt[popped[j].order])
    && (forall o :: o in poppedAt ==> o in issued && issued[o].order == o && issued[o] in popped)
  }

  ghost predicate PoppedInOrder(s: State) {
    TakenInSequence(s.fired + s.batch, s.h.poppedAt, s.h.issued)
  }

  /** A task that was queued when a later one was taken had been taken before it. */
  ghost predicate NoneOvertaken(issued: map<nat, Task>, pushedAt: map<nat, nat>, poppedAt: map<nat, nat>) {
    forall a, b :: a in pushedAt && b in poppedAt && a in issued && b in issued
                   && FiresAfter(issued[b], issued[a]) && pushedAt[a] <= poppedAt[b] ==>
      a in poppedAt && poppedAt[a] < poppedAt[b]
  }

  ghost predicate NoOvertaking(s: State) {
    NoneOvertaken(s.h.issued, s.h.pushedAt, s.h.poppedAt)
  }

  /** A call that returned before another began has the smaller order number. */
  ghost predicate ReturnedFirst(returned: map<nat, nat>, began: map<nat, nat>) {
    forall a, b :: a in returned && b in began && returned[a] < began[b] ==> a < b
  }

  ghost predicate NumbersFollowTime(s: State) {
    ReturnedFirst(s.h.returned, s.h.began)
  }

  ghost predicate Inv(s: State) {
    && Identified(s)
    && ExactlyOnce(s)
    && MutexCorrect(s)
    && NoLostWake(s)
    && PollHonest(s)
    && PeekKnows(s)
    && TimestampKept(s)
    && BatchGood(s)
    && Dated(s)
    && PoppedInOrder(s)
    && NoOvertaking(s)
    && NumbersFollowTime(s)
  }
}
