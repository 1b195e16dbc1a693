/** What the platform event loop guarantees in every reachable state and over every run. */
module SchedulerTheorems {
  import opened Tasks
  import opened TimeEncoding
  import opened Scheduler
  import opened SchedulerProofs

  /** The main thread sleeps in ppoll, nothing will wake it, and no thread is inside PostTask. */
  predicate Quiet(s: State) {
    s.main.Polling? && s.eventfd == 0 && s.posters == map[]
  }

  /** No lost wake-up: when the loop goes quiet, every queued task was still in the future at the
      last drain. */
  lemma NoLostWakeup(s: State, t: Task)
    requires Reachable(s) && Quiet(s) && t in s.queue
    ensures t.fireTime > s.lastStart
  {
    ReachableInv(s);
  }

  /** A read of the event descriptor never blocks the main thread. */
  lemma EventfdReadNeverBlocks(s: State)
    requires Reachable(s) && s.main.ReadingEventfd? && MAIN !in s.posters
    ensures Enabled(s, ReadEventfd)
  {
    ReachableInv(s);
  }

  /** Every pushed task is queued, taken or fired, in one place only; none is fired twice. */
  lemma FiredOnce(s: State)
    requires Reachable(s)
    ensures s.pushed == multiset(s.fired) + multiset(s.batch) + s.queue
    ensures forall i, j :: 0 <= i < j < |s.fired| ==> s.fired[i] != s.fired[j]
    ensures forall t :: t in s.fired ==> t.fireTime <= s.now
  {
    ReachableInv(s);
    forall i, j | 0 <= i < j < |s.fired| ensures s.fired[i] != s.fired[j] {
      assert s.fired[i] == (s.fired + s.batch)[i] && s.fired[j] == (s.fired + s.batch)[j];
    }
  }

  /** The position of a task among those taken follows the date it was taken. */
  lemma PositionFollowsDate(popped: seq<Task>, h: History, i: nat, j: nat)
    requires TakenInSequence(popped, h.poppedAt, h.issued) && i < |popped| && j < |popped|
    ensures popped[i].order in h.poppedAt && popped[j].order in h.poppedAt
    ensures h.poppedAt[popped[i].order] < h.poppedAt[popped[j].order] <==> i < j
  {
  }

  /** Of two tasks that have been taken, the one that should fire first is overtaken exactly when it
      was pushed after the other had been taken. */
  lemma OvertakenExactlyWhenPushedLate(s: State, a: nat, b: nat)
    requires Reachable(s)
    requires a in s.h.poppedAt && b in s.h.poppedAt
    requires a in s.h.issued && b in s.h.issued && FiresAfter(s.h.issued[b], s.h.issued[a])
    ensures a in s.h.pushedAt
    ensures s.h.poppedAt[b] < s.h.poppedAt[a] <==> s.h.poppedAt[b] < s.h.pushedAt[a]
  {
    ReachableInv(s);
    OvertakenOnlyWhenPushedLate(s.h, a, b);
  }

  lemma OvertakenOnlyWhenPushedLate(h: History, a: nat, b: nat)
    requires NoneOvertaken(h.issued, h.pushedAt, h.poppedAt) && Precedes(h.pushedAt, h.poppedAt)
    requires a in h.poppedAt && b in h.poppedAt
    requires a in h.issued && b in h.issued && FiresAfter(h.issued[b], h.issued[a])
    ensures a in h.pushedAt
    ensures h.poppedAt[b] < h.poppedAt[a] <==> h.poppedAt[b] < h.pushedAt[a]
  {
  }

  /** First in, first out for posts that do not overlap: if the call that posted `a` returned before
      the call that posted `b` began, and `a` is due no later, then `b` does not fire before `a`. */
  lemma FifoForSeparatePosts(s: State, a: nat, b: nat, j: nat) returns (i: nat)
    requires Reachable(s)
    requires a in s.h.returned && b in s.h.began && s.h.returned[a] < s.h.began[b]
    requires a in s.h.issued && b in s.h.issued && s.h.issued[a].fireTime <= s.h.issued[b].fireTime
    requires j < |s.fired| && s.fired[j] == s.h.issued[b]
    ensures i < j && s.fired[i] == s.h.issued[a]
  {
    ReachableInv(s);
    assert (s.fired + s.batch)[j] == s.h.issued[b];
    i := PositionBefore(s, a, b, j);
  }

  lemma PositionBefore(s: State, a: nat, b: nat, j: nat) returns (i: nat)
    requires Numbered(s.h.issued, s.counter, s.pushed) && DatedHistory(s.h, s.pushed)
    requires PoppedInOrder(s) && NoOvertaking(s) && NumbersFollowTime(s)
    requires a in s.h.returned && b in s.h.began && s.h.returned[a] < s.h.began[b]
    requires a in s.h.issued && b in s.h.issued && s.h.issued[a].fireTime <= s.h.issued[b].fireTime
    requires j < |s.fired + s.batch| && (s.fired + s.batch)[j] == s.h.issued[b]
    ensures i < j && (s.fired + s.batch)[i] == s.h.issued[a]
  {
    var popped := s.fired + s.batch;
    TakenBefore(s, a, b, j);
    i :| 0 <= i < |popped| && popped[i] == s.h.issued[a];
    PositionFollowsDate(popped, s.h, i, j);
  }

  lemma TakenBefore(s: State, a: nat, b: nat, j: nat)
    requires Numbered(s.h.issued, s.counter, s.pushed) && DatedHistory(s.h, s.pushed)
    requires PoppedInOrder(s) && NoOvertaking(s) && NumbersFollowTime(s)
    requires a in s.h.returned && b in s.h.began && s.h.returned[a] < s.h.began[b]
    requires a in s.h.issued && b in s.h.issued && s.h.issued[a].fireTime <= s.h.issued[b].fireTime
    requires j < |s.fired + s.batch| && (s.fired + s.batch)[j] == s.h.issued[b]
    ensures a in s.h.poppedAt && b in s.h.poppedAt && s.h.poppedAt[a] < s.h.poppedAt[b]
    ensures s.h.issued[a] in s.fired + s.batch && s.h.issued[a].order == a && s.h.issued[b].order == b
  {
  }

  lemma ReachableMutex(s: State)
    requires Reachable(s)
    ensures MutexCorrect(s)
  {
    ReachableInv(s);
  }

  /** Two threads are never inside a critical section together. */
  lemma MutualExclusion(s: State, i: ThreadId, j: ThreadId)
    requires Reachable(s) && i in s.posters && PosterHolds(s.posters[i])
    ensures j in s.posters && PosterHolds(s.posters[j]) ==> i == j
    ensures !MainHolds(s.main)
  {
    ReachableMutex(s);
  }

  /** A callback runs without the mutex unless it is itself inside PostTask. */
  lemma CallbackRunsUnlocked(s: State)
    requires Reachable(s) && s.main.InCallback? && s.mutex == HeldBy(MAIN)
    ensures MAIN in s.posters && PosterHolds(s.posters[MAIN])
  {
    ReachableMutex(s);
  }

  /** Whoever holds the mutex can take its next step: nobody waits for it for ever. */
  lemma HolderProceeds(s: State) returns (step: Step)
    requires Reachable(s) && s.mutex.HeldBy?
    ensures Enabled(s, step)
    ensures if MainHolds(s.main) then step.PopDue? || step.FinishDrain? || step.Peek?
            else step == Push(s.mutex.tid) || step == Unlock(s.mutex.tid)
  {
    ReachableMutex(s);
    if s.main.Draining? {
      step := DrainProceeds(s);
    } else if s.main.Peeking? {
      var wake := WakeOf(s.queue);
      step := Peek(wake);
    } else {
      step := if s.posters[s.mutex.tid].Locked? then Push(s.mutex.tid) else Unlock(s.mutex.tid);
    }
  }

  /** A thread inside PostTask has a next step of its own, unless it waits for the mutex. */
  lemma PosterProceeds(s: State, tid: ThreadId) returns (step: Step)
    requires tid in s.posters && (s.posters[tid].Ordered? ==> s.mutex.Free?)
    ensures Enabled(s, step) && !IsMainStep(step) && !step.Advance? && !step.Begin? && step.tid == tid
  {
    step := match s.posters[tid]
      case Entered(_, _, _) => TakeOrder(tid)
      case Ordered(_) => Lock(tid)
      case Locked(_) => Push(tid)
      case Pushed(_) => Unlock(tid)
      case Unlocked(_) => Write(tid);
  }

  /** So has the main thread; with HolderProceeds, nobody is ever stuck. */
  lemma MainProceeds(s: State) returns (step: Step)
    requires Reachable(s) && MAIN !in s.posters
    requires s.main.WantsDrain? || (s.main.Firing? && s.batch == []) ==> s.mutex.Free?
    ensures Enabled(s, step) && IsMainStep(step)
  {
    ReachableInv(s);
    match s.main
    case Polling => step := PollReturn(false, false);
    case Polled(vsync, wake, timedOut) =>
      step := if vsync then TakeVsync else if wake then GoRead else if timedOut then GoDrain else SkipDrain;
    case HandlingVsync => step := VsyncContinue;
    case ReadingEventfd => step := ReadEventfd;
    case WantsDrain => step := AcquireDrain;
    case Draining(_) => step := DrainProceeds(s);
    case Firing => step := if s.batch == [] then AcquirePeek else FireNext;
    case InCallback(_) => step := CallbackReturns;
    case Peeking =>
      var wake := WakeOf(s.queue);
      step := Peek(wake);
    case Dispatching(_) => step := NextIteration;
  }

  /** How far the main thread is from the end of its round, outside ProcessEvents. */
  function ToPoll(m: Main): nat {
    match m
    case Polled(_, _, _) => 2
    case HandlingVsync => 1
    case ReadingEventfd => 1
    case Dispatching(_) => 1
    case _ => 0
  }

  /** A round of the poll loop comes to its end, a poll or ProcessEvents, by at most two steps of the main
      thread, and no other thread sets it back. */
  lemma RoundEnds(s: State, step: Step)
    requires Enabled(s, step) && !InProcessEvents(s.main)
    ensures var m, m' := s.main, Apply(s, step).main;
            if !IsMainStep(step) then m' == m
            else if m.Polling? then m'.Polled?
            else InProcessEvents(m') || ToPoll(m') == ToPoll(m) - 1
    ensures ToPoll(s.main) <= 2 && (ToPoll(s.main) == 0 <==> s.main.Polling?)
  {
  }

  lemma DrainProceeds(s: State) returns (step: Step)
    requires s.main.Draining? && MAIN !in s.posters
    ensures Enabled(s, step) && (step.PopDue? || step.FinishDrain?)
  {
    if t :| t in s.queue && t.fireTime <= s.main.start {
      var top := LeastOf(s.queue);
      step := PopDue(top);
      assert !FiresAfter(top, t);
    } else {
      step := FinishDrain;
    }
  }

  lemma {:induction false} LeastOf(q: multiset<Task>) returns (top: Task)
    requires |q| > 0
    ensures IsTop(top, q)
    decreases |q|
  {
    top :| top in q;
    var rest := q - multiset{top};
    if |rest| > 0 {
      var t := LeastOf(rest);
      FiresAfterIsStrictOrder(top, t, top);
      forall u | u in q ensures u == top || !FiresAfter(t, u) {
        assert u != top ==> u in rest;
      }
      forall u ensures !FiresAfter(top, t) && !FiresAfter(t, u) ==> !FiresAfter(top, u) {
        FiresAfterIsStrictOrder(top, t, u);
      }
      if FiresAfter(top, t) {
        top := t;
      }
    } else {
      assert forall u :: u in q ==> u == top || u in rest;
    }
  }

  lemma WakeOf(q: multiset<Task>) returns (wake: nat)
    ensures IsNextWake(wake, q)
  {
    if |q| == 0 {
      wake := 0;
    } else {
      var top := LeastOf(q);
      wake := top.fireTime;
    }
  }

  // ---------- the wake-up time ----------

  /** When ProcessEvents has returned, a wake-up is waiting or on its way for every task that the
      returned time does not announce: those due before it, those with fire time 0, and those queued
      since. If 0 was returned and the queue is not empty, there is such a task. */
  lemma ReturnedTimeIsCovered(s: State)
    requires Reachable(s) && s.main == Dispatching(true)
    ensures forall t :: t in s.queue && (t.fireTime < s.timestamp || t.fireTime == 0 || t !in s.peeked) ==>
              WakeOutstanding(s, t)
    ensures s.timestamp == 0 && s.queue != multiset{} ==>
              exists t :: t in s.queue && (t.fireTime == 0 || t !in s.peeked) && WakeOutstanding(s, t)
  {
    ReachableInv(s);
    CoveredByWake(s);
  }

  lemma CoveredByWake(s: State)
    requires s.main == Dispatching(true) && PeekKnows(s) && TimestampKept(s) && NoLostWake(s) && BatchGood(s)
    ensures forall t :: t in s.queue && (t.fireTime < s.timestamp || t.fireTime == 0 || t !in s.peeked) ==>
              WakeOutstanding(s, t)
    ensures s.timestamp == 0 && s.queue != multiset{} ==>
              exists t :: t in s.queue && (t.fireTime == 0 || t !in s.peeked) && WakeOutstanding(s, t)
  {
    if s.timestamp == 0 && s.queue != multiset{} {
      var t :| t in s.queue;
      if |s.peeked| > 0 {
        t :| t in s.peeked && t.fireTime == 0;
      }
      assert t in s.queue && (t.fireTime == 0 || t !in s.peeked);
    }
  }

  /** The documented meaning of 0, that there are no events, holds of a peek exactly when no queued task
      has fire time 0. */
  lemma ZeroMeansEmptyExactlyWhen(s: State, wake: nat)
    requires Enabled(s, Peek(wake))
    ensures (wake == 0 ==> s.queue == multiset{}) <==> (forall t :: t in s.queue ==> t.fireTime != 0)
  {
    if t :| t in s.queue && t.fireTime == 0 {
      assert wake <= t.fireTime;
    }
  }

  ghost predicate NonZero(q: multiset<Task>) {
    forall t :: t in q ==> t.fireTime != 0
  }

  predicate NonZeroPost(p: Poster) {
    if p.Entered? then p.target != 0 else p.t.fireTime != 0
  }

  /** No task that has been or is being posted has fire time 0. */
  ghost predicate NoZeroTargets(s: State) {
    && NonZero(s.pushed) && NonZero(s.queue) && NonZero(s.peeked)
    && forall tid :: tid in s.posters ==> NonZeroPost(s.posters[tid])
  }

  lemma NoZeroTargetsStep(s: State, step: Step)
    requires NoZeroTargets(s) && Enabled(s, step)
    requires step.Begin? ==> step.target != 0
    ensures NoZeroTargets(Apply(s, step))
  {
    if IsMainStep(step) {
      NoZeroTargetsMain(s, step);
    } else {
      NoZeroTargetsPoster(s, step);
    }
  }

  lemma NoZeroTargetsMain(s: State, step: Step)
    requires NoZeroTargets(s) && Enabled(s, step) && IsMainStep(step)
    ensures NoZeroTargets(Apply(s, step))
  {
    MainOnlyTakes(s, step);
    assert NonZero(Apply(s, step).queue) && NonZero(Apply(s, step).peeked);
  }

  lemma MainOnlyTakes(s: State, step: Step)
    requires Enabled(s, step) && IsMainStep(step)
    ensures var s' := Apply(s, step);
            && s'.posters == s.posters && s'.pushed == s.pushed && s'.queue <= s.queue
            && s'.peeked == if step.Peek? then s.queue else s.peeked
  {
  }

  lemma NoZeroTargetsPoster(s: State, step: Step)
    requires NoZeroTargets(s) && Enabled(s, step) && !IsMainStep(step)
    requires step.Begin? ==> step.target != 0
    ensures NoZeroTargets(Apply(s, step))
  {
    var s' := Apply(s, step);
    if !step.Advance? && !step.Begin? {
      assert NonZeroPost(s.posters[step.tid]);
    }
    assert forall tid :: tid in s'.posters && (step.Advance? || tid != step.tid) ==> s'.posters[tid] == s.posters[tid];
  }

  lemma {:induction false} NoZeroTargetsRun(s: State, steps: seq<Step>, s': State)
    requires Inv(s) && NoZeroTargets(s) && Runs(s, steps, s')
    requires forall step :: step in steps && step.Begin? ==> step.target != 0
    ensures NoZeroTargets(s')
    decreases |steps|
  {
    if steps != [] {
      FirstStep(s, steps, s');
      InvStep(s, steps[0]);
      NoZeroTargetsStep(s, steps[0]);
      NoZeroTargetsRun(Apply(s, steps[0]), steps[1..], s');
    }
  }

  /** Over a run in which no call posts target 0, every 0 that ProcessEvents returns means an empty queue. */
  lemma ZeroMeansEmptyWithoutZeroTargets(steps: seq<Step>, s: State)
    requires Runs(Init, steps, s)
    requires forall step :: step in steps && step.Begin? ==> step.target != 0
    ensures s.lastWake == 0 <==> s.peeked == multiset{}
  {
    InitInv();
    InvRuns(Init, steps, s);
    NoZeroTargetsRun(Init, steps, s);
  }

  /** Run never polls with the time ProcessEvents returned: it always asks for the longest sleep. */
  lemma PollTimeoutIsAlwaysLongest(s: State)
    requires Reachable(s) && s.main.Polling?
    ensures s.timestamp == 0 && SleepUntil(s.timestamp, ToUInt64(s.now)) == Timespec(LONG_MAX, 0)
  {
    ReachableInv(s);
  }

  /** In a quiet loop the discarded time is the right one: the queue is what the last peek saw, and
      the time it returned is the least fire time. */
  lemma DiscardedTimeIsRight(s: State)
    requires Reachable(s) && Quiet(s)
    ensures s.queue == s.peeked && IsNextWake(s.lastWake, s.queue)
  {
    ReachableInv(s);
    QueueIsDistinct(s);
    SameQueue(s);
  }

  lemma SameQueue(s: State)
    requires Quiet(s) && PeekKnows(s) && DistinctOrders(s.queue)
    ensures s.queue == s.peeked
  {
    forall t ensures s.queue[t] == s.peeked[t] {
      assert t in s.queue ==> t in s.peeked;
      assert t in s.peeked ==> s.peeked[t] <= s.queue[t] && s.queue[t] == 1;
    }
  }

  /** So a quiet loop sleeps past a task that is due exactly when the time it has discarded has come. */
  lemma OversleepsExactlyWhen(s: State)
    requires Reachable(s) && Quiet(s)
    ensures (exists t :: t in s.queue && t.fireTime <= s.now) <==> s.queue != multiset{} && s.lastWake <= s.now
  {
    DiscardedTimeIsRight(s);
  }

  /** The main thread goes round its loop without having been woken. */
  ghost predicate Undisturbed(s: State) {
    && s.eventfd == 0 && s.posters == map[]
    && (s.main.Polling? || s.main.HandlingVsync? || s.main == Dispatching(false)
        || (s.main.Polled? && !s.main.wake && !s.main.timedOut))
  }

  lemma UndisturbedStep(s: State, step: Step)
    requires Undisturbed(s) && Enabled(s, step) && !step.Begin? && !(step.PollReturn? && step.timedOut)
    ensures var s' := Apply(s, step);
            Undisturbed(s') && s'.queue == s.queue && s'.fired == s.fired && s'.lastWake == s.lastWake
  {
  }

  /** And it goes on sleeping: until a post begins or a poll times out nothing is taken from the queue
      and nothing fires, however late it becomes and however often other events wake the loop. */
  lemma {:induction false} QuietLoopFiresNothing(s: State, steps: seq<Step>, s': State)
    requires Undisturbed(s) && Runs(s, steps, s')
    requires forall step :: step in steps ==> !step.Begin? && !(step.PollReturn? && step.timedOut)
    ensures Undisturbed(s') && s'.queue == s.queue && s'.fired == s.fired && s'.lastWake == s.lastWake
    decreases |steps|
  {
    if steps != [] {
      FirstStep(s, steps, s');
      UndisturbedStep(s, steps[0]);
      QuietLoopFiresNothing(Apply(s, steps[0]), steps[1..], s');
    }
  }

  // ---------- batches ----------

  /** The main thread is inside ProcessEvents, past the lock of the drain. */
  predicate InBatch(m: Main) {
    m.Firing? || m.InCallback? || m.Peeking?
  }

  lemma BatchStep(s: State, step: Step)
    requires Enabled(s, step) && !s.main.Draining? && step != AcquireDrain
    ensures Apply(s, step).batchFired + Apply(s, step).batch == s.batchFired + s.batch
    ensures !Apply(s, step).main.Draining?
  {
  }

  /** Once drained, a batch is fixed until the next drain: nothing posted meanwhile joins it. */
  lemma {:induction false} BatchIsFixed(s: State, steps: seq<Step>, s': State)
    requires Runs(s, steps, s') && !s.main.Draining? && AcquireDrain !in steps
    ensures s'.batchFired + s'.batch == s.batchFired + s.batch
    decreases |steps|
  {
    if steps != [] {
      FirstStep(s, steps, s');
      BatchStep(s, steps[0]);
      BatchIsFixed(Apply(s, steps[0]), steps[1..], s');
    }
  }

  /** What fires in a batch fires in order, all of it due at the drain, and no more than were queued. */
  lemma BatchFiresInOrder(s: State)
    requires Reachable(s) && InBatch(s.main)
    ensures Sorted(s.batchFired + s.batch) && |s.batchFired + s.batch| <= s.drained
    ensures forall t :: t in s.batch ==> t.fireTime <= s.lastStart
    ensures forall t :: t in s.queue && t.fireTime <= s.lastStart ==> WakeOutstanding(s, t)
  {
    ReachableInv(s);
  }

  /** A step of the run while the main thread drains: the lock keeps every poster out of the queue. */
  lemma DrainStep(s: State, step: Step)
    requires MutexCorrect(s) && Enabled(s, step) && s.main.Draining? && step != FinishDrain
    ensures Apply(s, step).main == s.main
    ensures multiset(Apply(s, step).batch) + Apply(s, step).queue == multiset(s.batch) + s.queue
  {
  }

  lemma {:induction false} DrainRun(s: State, steps: seq<Step>, s': State)
    requires Inv(s) && Runs(s, steps, s') && s.main.Draining? && FinishDrain !in steps
    ensures Inv(s') && s'.main == s.main
    ensures multiset(s'.batch) + s'.queue == multiset(s.batch) + s.queue
    decreases |steps|
  {
    if steps != [] {
      FirstStep(s, steps, s');
      DrainStep(s, steps[0]);
      InvStep(s, steps[0]);
      DrainRun(Apply(s, steps[0]), steps[1..], s');
    }
  }

  lemma QueueIsDistinct(s: State)
    requires Identified(s) && ExactlyOnce(s)
    ensures DistinctOrders(s.queue)
  {
    assert s.queue <= s.pushed;
    DistinctInPart(s.queue, s.pushed);
  }

  /** Whatever other threads do meanwhile, a drain takes what the sequential event loop takes: the
      queue it found under the lock, sorted and cut at the time it read there. */
  lemma DrainTakesTheBatch(s: State, q: seq<Task>, steps: seq<Step>, s': State)
    requires Reachable(s) && Enabled(s, AcquireDrain) && multiset(q) == s.queue
    requires Runs(Apply(s, AcquireDrain), steps, s') && FinishDrain !in steps && Enabled(s', FinishDrain)
    ensures s'.batch == Batch(q, s.now) && s'.queue == multiset(Leftover(q, s.now))
  {
    StartOfDrain(s);
    DrainStartInv(s);
    DrainRun(Apply(s, AcquireDrain), steps, s');
    EndOfDrain(q, s');
  }

  lemma EndOfDrain(q: seq<Task>, s: State)
    requires s.main.Draining? && BatchGood(s) && DistinctOrders(multiset(q))
    requires multiset(s.batch) + s.queue == multiset(q)
    requires Enabled(s, FinishDrain)
    ensures s.batch == Batch(q, s.main.start) && s.queue == multiset(Leftover(q, s.main.start))
  {
    assert s.batchFired + s.batch == s.batch;
    SplitIsBatch(q, s.main.start, s.batch, s.queue);
  }

  lemma {:induction false} TakenAfterDrain(s: State, q: seq<Task>, steps: seq<Step>, s': State)
    requires Inv(s) && s.main.Draining? && Runs(s, steps, s') && AcquireDrain !in steps
    requires multiset(s.batch) + s.queue == multiset(q) && DistinctOrders(multiset(q))
    ensures !s'.main.Draining? ==> s'.batchFired + s'.batch == Batch(q, s.main.start)
    decreases |steps|
  {
    if steps != [] {
      FirstStep(s, steps, s');
      var s1 := Apply(s, steps[0]);
      if steps[0] == FinishDrain {
        EndOfDrain(q, s);
        FinishKeepsBatch(s);
        BatchIsFixed(s1, steps[1..], s');
      } else {
        DrainStep(s, steps[0]);
        InvStep(s, steps[0]);
        TakenAfterDrain(s1, q, steps[1..], s');
      }
    }
  }

  lemma FinishKeepsBatch(s: State)
    requires BatchGood(s) && Enabled(s, FinishDrain)
    ensures var s1 := Apply(s, FinishDrain);
            !s1.main.Draining? && s1.batchFired + s1.batch == s.batch
  {
    assert s.batchFired + s.batch == s.batch;
  }

  lemma {:induction false} FiredIsBatchFired(s: State, base: seq<Task>, steps: seq<Step>, s': State)
    requires s.fired == base + s.batchFired && Runs(s, steps, s') && AcquireDrain !in steps
    ensures s'.fired == base + s'.batchFired
    decreases |steps|
  {
    if steps != [] {
      FirstStep(s, steps, s');
      FiredTogether(s, base, steps[0]);
      FiredIsBatchFired(Apply(s, steps[0]), base, steps[1..], s');
    }
  }

  lemma FiredTogether(s: State, base: seq<Task>, step: Step)
    requires s.fired == base + s.batchFired && Enabled(s, step) && step != AcquireDrain
    ensures Apply(s, step).fired == base + Apply(s, step).batchFired
  {
  }

  /** Whatever the callbacks and the other threads do, ProcessEvents fires what the sequential event loop
      fires: in every run from its drain to the next, what has fired and what is about to are the queue
      found under the lock, sorted and cut; all of it has fired once the callbacks are over. */
  lemma ProcessEventsFiresTheBatch(s: State, q: seq<Task>, steps: seq<Step>, s': State)
    requires Reachable(s) && Enabled(s, AcquireDrain) && multiset(q) == s.queue
    requires Runs(Apply(s, AcquireDrain), steps, s') && AcquireDrain !in steps
    ensures !s'.main.Draining? ==> s'.fired + s'.batch == s.fired + Batch(q, s.now)
    ensures s'.main.Peeking? || s'.main.Dispatching? || s'.main.Polling? ==> s'.fired == s.fired + Batch(q, s.now)
  {
    var s1 := Apply(s, AcquireDrain);
    StartOfDrain(s);
    FiredIsBatchFired(s1, s.fired, steps, s');
    TakenSinceDrain(s, q, steps, s');
    NoBatchSinceDrain(s, steps, s');
    Regroup(s.fired, s'.batchFired, s'.batch);
  }

  lemma Regroup(a: seq<Task>, b: seq<Task>, c: seq<Task>)
    ensures (a + b) + c == a + (b + c)
    ensures c == [] ==> a + b == a + (b + c)
  {
  }

  lemma TakenSinceDrain(s: State, q: seq<Task>, steps: seq<Step>, s': State)
    requires Reachable(s) && Enabled(s, AcquireDrain) && multiset(q) == s.queue
    requires Runs(Apply(s, AcquireDrain), steps, s') && AcquireDrain !in steps
    ensures !s'.main.Draining? ==> s'.batchFired + s'.batch == Batch(q, s.now)
  {
    StartOfDrain(s);
    DrainStartInv(s);
    TakenAfterDrain(Apply(s, AcquireDrain), q, steps, s');
  }

  lemma NoBatchSinceDrain(s: State, steps: seq<Step>, s': State)
    requires Reachable(s) && Enabled(s, AcquireDrain) && Runs(Apply(s, AcquireDrain), steps, s')
    ensures s'.main.Peeking? || s'.main.Dispatching? || s'.main.Polling? ==> s'.batch == []
  {
    DrainStartInv(s);
    InvRuns(Apply(s, AcquireDrain), steps, s');
    NoBatchOutside(s');
  }

  lemma DrainStartInv(s: State)
    requires Reachable(s) && Enabled(s, AcquireDrain)
    ensures Inv(Apply(s, AcquireDrain))
  {
    ReachableInv(s);
    InvStep(s, AcquireDrain);
  }

  lemma StartOfDrain(s: State)
    requires Reachable(s) && Enabled(s, AcquireDrain)
    ensures var s1 := Apply(s, AcquireDrain);
            && DistinctOrders(s.queue) && s1.main == Draining(s.now)
            && s1.queue == s.queue && s1.batch == [] && s1.fired == s.fired + s1.batchFired
  {
    ReachableInv(s);
    QueueIsDistinct(s);
    assert s.batch == [];
  }

  lemma NoBatchOutside(s: State)
    requires BatchGood(s)
    ensures s.main.Peeking? || s.main.Dispatching? || s.main.Polling? ==> s.batch == []
  {
  }

  /** An upper bound on what the main thread has still to do in ProcessEvents, past the lock. */
  function Rank(s: State): nat {
    match s.main
    case Draining(_) => 3 * |s.queue| + 2 * |s.batch| + 3
    case InCallback(_) => 2 * |s.batch| + 3
    case Firing => 2 * |s.batch| + 2
    case Peeking => 1
    case _ => 0
  }

  lemma RankStep(s: State, step: Step)
    requires MutexCorrect(s) && BatchGood(s) && Enabled(s, step) && Rank(s) > 0
    ensures IsMainStep(step) ==> Rank(Apply(s, step)) < Rank(s)
    ensures !IsMainStep(step) ==> Rank(Apply(s, step)) == Rank(s)
  {
  }

  function MainSteps(steps: seq<Step>): nat {
    if steps == [] then 0 else (if IsMainStep(steps[0]) then 1 else 0) + MainSteps(steps[1..])
  }

  /** The main thread stays in ProcessEvents all along the run. */
  ghost predicate StaysInside(s: State, steps: seq<Step>)
    decreases |steps|
  {
    Rank(s) > 0 && (steps != [] ==> Enabled(s, steps[0]) && StaysInside(Apply(s, steps[0]), steps[1..]))
  }

  /** ProcessEvents takes a number of steps bounded by the queue it found, whatever its callbacks and
      the other threads post meanwhile. */
  lemma {:induction false} ProcessEventsTerminates(s: State, steps: seq<Step>)
    requires Inv(s) && StaysInside(s, steps)
    ensures MainSteps(steps) < Rank(s)
    decreases |steps|
  {
    if steps != [] {
      RankStep(s, steps[0]);
      InvStep(s, steps[0]);
      ProcessEventsTerminates(Apply(s, steps[0]), steps[1..]);
    }
  }

  // ---------- every pass fires what is due ----------

  /** Between the poll and the drain. */
  predicate BeforeDrain(m: Main) {
    m.Polling? || m.Polled? || m.HandlingVsync? || m.ReadingEventfd? || m.WantsDrain? || m == Dispatching(false)
  }

  /** `t` was queued and due at time `now0`; a drain is to come, or one that began since has taken it. */
  ghost predicate OnItsWay(s: State, t: Task, now0: nat) {
    && t in s.pushed && t.fireTime <= now0 <= s.now
    && (BeforeDrain(s.main) || (now0 <= s.lastStart && (s.main.Draining? || t !in s.queue)))
  }

  lemma OnItsWayStep(s: State, step: Step, t: Task, now0: nat)
    requires OnItsWay(s, t, now0) && Identified(s) && BatchGood(s) && Enabled(s, step)
    ensures OnItsWay(Apply(s, step), t, now0)
  {
    if step.Push? {
      PushedIsNew(s, step.tid);
      OnItsWayPush(s, step.tid, t, now0);
    } else {
      OnItsWayElse(s, step, t, now0);
    }
  }

  lemma OnItsWayPush(s: State, tid: ThreadId, t: Task, now0: nat)
    requires OnItsWay(s, t, now0) && Enabled(s, Push(tid)) && s.posters[tid].t !in s.pushed
    ensures OnItsWay(Apply(s, Push(tid)), t, now0)
  {
  }

  lemma OnItsWayElse(s: State, step: Step, t: Task, now0: nat)
    requires OnItsWay(s, t, now0) && Enabled(s, step) && !step.Push?
    requires s.main.Draining? ==> s.main.start == s.lastStart
    ensures OnItsWay(Apply(s, step), t, now0)
  {
  }

  lemma PushedIsNew(s: State, tid: ThreadId)
    requires Identified(s) && Enabled(s, Push(tid))
    ensures s.posters[tid].t !in s.pushed
  {
    assert OwnsTask(s.posters[tid], s.h.issued, s.pushed);
  }

  lemma {:induction false} OnItsWayRun(s: State, steps: seq<Step>, s': State, t: Task, now0: nat)
    requires Runs(s, steps, s') && Inv(s) && OnItsWay(s, t, now0)
    ensures OnItsWay(s', t, now0)
    decreases |steps|
  {
    if steps != [] {
      FirstStep(s, steps, s');
      OnItsWayStep(s, steps[0], t, now0);
      InvStep(s, steps[0]);
      OnItsWayRun(Apply(s, steps[0]), steps[1..], s', t, now0);
    }
  }

  /** Every pass through ProcessEvents fires what was queued and due when the loop was last in the poll:
      in every run from there that reaches the end of the callbacks, whatever the other threads do, and
      however many vsync rounds or posts come between. */
  lemma EveryPassFiresWhatIsDue(s: State, steps: seq<Step>, s': State, t: Task)
    requires Reachable(s) && s.main.Polling? && t in s.queue && t.fireTime <= s.now
    requires Runs(s, steps, s') && s'.main.Peeking?
    ensures t in s'.fired
  {
    OnItsWayFromPoll(s, steps, s', t);
    AtPeek(s, steps, s');
    TakenIsFired(s', t);
  }

  lemma OnItsWayFromPoll(s: State, steps: seq<Step>, s': State, t: Task)
    requires Reachable(s) && s.main.Polling? && t in s.queue && t.fireTime <= s.now && Runs(s, steps, s')
    ensures OnItsWay(s', t, s.now)
  {
    ReachableInv(s);
    assert t in s.pushed;
    OnItsWayRun(s, steps, s', t, s.now);
  }

  lemma AtPeek(s: State, steps: seq<Step>, s': State)
    requires Reachable(s) && Runs(s, steps, s')
    ensures ExactlyOnce(s') && BatchGood(s')
  {
    ReachableInv(s);
    InvRuns(s, steps, s');
  }

  lemma TakenIsFired(s: State, t: Task)
    requires ExactlyOnce(s) && BatchGood(s) && s.main.Peeking? && t in s.pushed && t !in s.queue
    ensures t in s.fired
  {
    assert t in multiset(s.fired + s.batch);
  }

  // ---------- a wake-up suffices ----------

  ghost predicate OnlyMain(steps: seq<Step>) {
    forall i :: 0 <= i < |steps| ==> IsMainStep(steps[i])
  }

  /** `steps` leads from `s` to `s'` and the main thread takes them all. */
  ghost predicate MainRuns(s: State, steps: seq<Step>, s': State) {
    Runs(s, steps, s') && OnlyMain(steps)
  }

  /** The run `a` from `s0`, and one step more. */
  lemma ThenMain(s0: State, a: seq<Step>, s: State, step: Step) returns (steps: seq<Step>, s': State)
    requires MainRuns(s0, a, s) && Enabled(s, step) && IsMainStep(step)
    ensures s' == Apply(s, step) && MainRuns(s0, steps, s')
  {
    s', steps := Apply(s, step), a + [step];
    RunsAppend(s0, a, s, step);
  }

  lemma WakeToDrain(s: State) returns (steps: seq<Step>, s': State)
    requires s.main.Polling? && s.eventfd > 0 && MAIN !in s.posters && s.mutex.Free?
    ensures MainRuns(s, steps, s')
    ensures s'.main == Draining(s.now) && s'.posters == s.posters
    ensures s'.queue == s.queue && s'.batch == s.batch && s'.fired == s.fired
  {
    assert Runs(s, [], s);
    var a, s1 := ThenMain(s, [], s, PollReturn(false, false));
    var b, s2 := ThenMain(s, a, s1, GoRead);
    var c, s3 := ThenMain(s, b, s2, ReadEventfd);
    steps, s' := ThenMain(s, c, s3, AcquireDrain);
  }

  /** The main thread drains until nothing queued is due. */
  lemma {:induction false} DrainOut(s0: State, a: seq<Step>, s: State) returns (steps: seq<Step>, s': State)
    requires MainRuns(s0, a, s) && s.main.Draining? && MAIN !in s.posters
    ensures MainRuns(s0, steps, s') && Enabled(s', FinishDrain)
    ensures multiset(s'.batch) + s'.queue == multiset(s.batch) + s.queue
    ensures s'.main == s.main && s'.posters == s.posters
    decreases |s.queue|
  {
    var step := DrainProceeds(s);
    if step.FinishDrain? {
      steps, s' := a, s;
    } else {
      var b, s1 := ThenMain(s0, a, s, step);
      steps, s' := DrainOut(s0, b, s1);
    }
  }

  lemma DrainAndRelease(s0: State, a: seq<Step>, s: State) returns (steps: seq<Step>, s': State)
    requires MainRuns(s0, a, s) && s.main.Draining? && MAIN !in s.posters
    ensures MainRuns(s0, steps, s')
    ensures s'.main.Firing? && s'.posters == s.posters
    ensures forall t :: t in s.queue && t.fireTime <= s.main.start ==> t in s'.batch
  {
    var b, s1 := DrainOut(s0, a, s);
    steps, s' := ThenMain(s0, b, s1, FinishDrain);
    forall t | t in s.queue && t.fireTime <= s.main.start ensures t in s'.batch {
      assert t in multiset(s1.batch) + s1.queue;
    }
  }

  lemma FireFirst(s0: State, a: seq<Step>, s: State) returns (steps: seq<Step>, s': State)
    requires MainRuns(s0, a, s) && s.main.Firing? && MAIN !in s.posters && s.batch != []
    ensures MainRuns(s0, steps, s')
    ensures s'.main.Firing? && s'.posters == s.posters
    ensures s'.batch == s.batch[1..] && s'.fired == s.fired + [s.batch[0]]
  {
    var b, s1 := ThenMain(s0, a, s, FireNext);
    steps, s' := ThenMain(s0, b, s1, CallbackReturns);
  }

  /** The main thread fires what it has taken. */
  lemma {:induction false} FireOut(s0: State, a: seq<Step>, s: State) returns (steps: seq<Step>, s': State)
    requires MainRuns(s0, a, s) && s.main.Firing? && MAIN !in s.posters
    ensures MainRuns(s0, steps, s')
    ensures s'.main.Firing? && s'.batch == [] && s'.fired == s.fired + s.batch
    decreases |s.batch|
  {
    if s.batch == [] {
      steps, s' := a, s;
    } else {
      var b, s1 := FireFirst(s0, a, s);
      steps, s' := FireOut(s0, b, s1);
      FiringKeepsPopped(s.fired, s.batch);
    }
  }

  /** One wake-up is enough, however many posts share it: the main thread's own steps then lead to a
      state where everything that was queued and due has fired. */
  lemma WakeFiresEverythingDue(s: State) returns (steps: seq<Step>, s': State)
    requires s.main.Polling? && s.eventfd > 0 && MAIN !in s.posters && s.mutex.Free?
    ensures MainRuns(s, steps, s') && s'.main.Firing? && s'.batch == []
    ensures forall t :: t in s.queue && t.fireTime <= s.now ==> t in s'.fired
  {
    var a, s1 := WakeToDrain(s);
    var b, s2 := DrainAndRelease(s, a, s1);
    steps, s' := FireOut(s, b, s2);
  }

  // ---------- two runs ----------

  lemma InitReachable()
    ensures Reachable(Init)
  {
    assert Runs(Init, [], Init);
  }

  lemma LockAndPush(s: State, tid: ThreadId, t: Task) returns (s': State)
    requires Reachable(s) && tid in s.posters && s.posters[tid] == Ordered(t) && s.mutex.Free?
    ensures Reachable(s')
    ensures s' == s.(posters := s.posters[tid := Pushed(t)], queue := s.queue + multiset{t},
                     pushed := s.pushed + multiset{t}, mutex := HeldBy(tid), h := s'.h)
  {
    var s1 := ReachStep(s, Lock(tid));
    s' := ReachStep(s1, Push(tid));
  }

  lemma UnlockAndWrite(s: State, tid: ThreadId, t: Task) returns (s': State)
    requires Reachable(s) && tid in s.posters && s.posters[tid] == Pushed(t)
    ensures Reachable(s')
    ensures s' == s.(posters := s.posters - {tid}, eventfd := s.eventfd + 1, mutex := Free, h := s'.h)
  {
    var s1 := ReachStep(s, Unlock(tid));
    assert s1.posters - {tid} == s.posters - {tid};
    s' := ReachStep(s1, Write(tid));
  }

  /** The rest of a call of PostTask by a thread that has taken its order number. */
  lemma FinishPost(s: State, tid: ThreadId, t: Task) returns (s': State)
    requires Reachable(s) && tid in s.posters && s.posters[tid] == Ordered(t) && s.mutex.Free?
    ensures Reachable(s') && s'.queue == s.queue + multiset{t} && s'.eventfd == s.eventfd + 1
    ensures s'.posters == s.posters - {tid} && s'.mutex.Free? && s'.main == s.main
    ensures s'.now == s.now && s'.counter == s.counter && s'.batch == s.batch && s'.fired == s.fired
    ensures s'.lastStart == s.lastStart
  {
    s' := LockAndPush(s, tid, t);
    s' := UnlockAndWrite(s', tid, t);
  }

  lemma NumberPost(s: State, tid: ThreadId, target: nat, task: FlutterTask) returns (s': State)
    requires Reachable(s) && tid !in s.posters && tid != MAIN
    ensures var t := Task(s.counter + 1, target, task);
            && Reachable(s') && s'.posters == s.posters[tid := Ordered(t)]
            && s' == s.(posters := s'.posters, counter := s.counter + 1, h := s'.h)
  {
    var s1 := BeginPost(s, tid, target, task);
    s' := TakeNumber(s1, tid);
    Overwritten(s.posters, tid, s1.posters[tid], s'.posters[tid]);
  }

  lemma Overwritten(m: map<ThreadId, Poster>, tid: ThreadId, a: Poster, b: Poster)
    ensures m[tid := a][tid := b] == m[tid := b]
  {
  }

  lemma TakeNumber(s: State, tid: ThreadId) returns (s': State)
    requires Reachable(s) && tid in s.posters && s.posters[tid].Entered?
    ensures Reachable(s')
    ensures var t := Task(s.counter + 1, s.posters[tid].target, s.posters[tid].task);
            s' == s.(posters := s.posters[tid := Ordered(t)], counter := s.counter + 1, h := s'.h)
  {
    s' := ReachStep(s, TakeOrder(tid));
  }

  lemma BeginPost(s: State, tid: ThreadId, target: nat, task: FlutterTask) returns (s': State)
    requires Reachable(s) && tid !in s.posters && tid != MAIN
    ensures Reachable(s')
    ensures s' == s.(posters := s.posters[tid := Entered(target, task, s.h.tick)], h := s'.h)
  {
    s' := ReachStep(s, Begin(tid, target, task));
  }

  /** The main thread wakes up and reaches the drain. */
  lemma WakeAndDrain(s: State) returns (s': State)
    requires Reachable(s) && s.main.Polling? && s.eventfd > 0 && MAIN !in s.posters && s.mutex.Free?
    ensures Reachable(s') && s'.main == Draining(s.now) && s'.eventfd == 0
    ensures s'.queue == s.queue && s'.fired == s.fired && s'.batch == s.batch && s'.posters == s.posters
    ensures s'.now == s.now && s'.counter == s.counter && s'.lastStart == s.now
  {
    s' := ReachStep(s, PollReturn(false, false));
    s' := ReachStep(s', GoRead);
    s' := ReachStep(s', ReadEventfd);
    s' := ReachStep(s', AcquireDrain);
  }

  /** A drain that takes the only queued task. */
  lemma TakeOne(s: State, t: Task) returns (s': State)
    requires Reachable(s) && s.main.Draining? && MAIN !in s.posters
    requires s.queue == multiset{t} && s.batch == [] && t.fireTime <= s.main.start
    ensures Reachable(s')
    ensures s' == s.(main := Firing, queue := multiset{}, batch := [t], mutex := Free, h := s'.h)
  {
    assert IsTop(t, s.queue);
    var s1 := ReachStep(s, PopDue(t));
    assert s1.queue == multiset{};
    s' := ReachStep(s1, FinishDrain);
  }

  /** The main thread fires a batch of one task. */
  lemma FireOne(s: State, t: Task) returns (s': State)
    requires Reachable(s) && s.main.Firing? && MAIN !in s.posters && s.batch == [t]
    ensures Reachable(s')
    ensures s' == s.(batch := [], fired := s.fired + [t], batchFired := s.batchFired + [t], h := s'.h)
  {
    var s1 := ReachStep(s, FireNext);
    s' := ReachStep(s1, CallbackReturns);
  }

  /** The main thread leaves ProcessEvents and goes back to ppoll. */
  lemma BackToPoll(s: State, wake: nat) returns (s': State)
    requires Reachable(s) && s.main.Firing? && MAIN !in s.posters && s.batch == [] && s.mutex.Free?
    requires IsNextWake(wake, s.queue)
    ensures Reachable(s') && s' == s.(main := Polling, timestamp := 0, mutex := Free,
                                            lastWake := wake, peeked := s.queue, h := s'.h)
  {
    var s1 := ReachStep(s, AcquirePeek);
    var s2 := ReachStep(s1, Peek(wake));
    s' := ReachStep(s2, NextIteration);
  }

  /** Thread 1 has taken its order number and thread 2 has posted with the next one. */
  lemma SecondPostsFirst(first: Task, second: Task) returns (s: State)
    requires first == Task(1, 0, 7) && second == Task(2, 0, 8)
    ensures Reachable(s) && s.main.Polling? && s.queue == multiset{second} && s.eventfd == 1
    ensures 1 in s.posters && s.posters[1] == Ordered(first) && MAIN !in s.posters
    ensures s.mutex.Free? && s.batch == s.fired == []
  {
    InitReachable();
    s := NumberPost(Init, 1, 0, 7);
    s := NumberPost(s, 2, 0, 8);
    s := FinishPost(s, 2, second);
  }

  lemma WakeAndFireOne(s: State, t: Task) returns (s': State)
    requires Reachable(s) && s.main.Polling? && s.eventfd > 0 && MAIN !in s.posters && s.mutex.Free?
    requires s.queue == multiset{t} && s.batch == [] && t.fireTime <= s.now
    ensures Reachable(s') && s'.main.Polling? && s'.fired == s.fired + [t]
    ensures s'.queue == multiset{} && s'.batch == [] && s'.posters == s.posters && s'.mutex.Free?
  {
    s' := WakeAndDrain(s);
    s' := TakeOne(s', t);
    s' := FireOne(s', t);
    s' := BackToPoll(s', 0);
  }

  /** Two posts that overlap can fire against their order numbers: the thread with the smaller number
      is delayed between taking it and pushing. */
  lemma OverlappingPostsCanInvert() returns (s: State)
    ensures Reachable(s)
    ensures s.fired == [Task(2, 0, 8), Task(1, 0, 7)]
  {
    var first, second := Task(1, 0, 7), Task(2, 0, 8);
    s := SecondPostsFirst(first, second);
    s := WakeAndFireOne(s, second);
    s := FinishPost(s, 1, first);
    s := WakeAndFireOne(s, first);
  }

  /** A thread posts with target 0 while the main thread is between a batch and the peek. */
  lemma ZeroPostedMeanwhile(s: State, t: Task) returns (s': State)
    requires Reachable(s) && s.main.Firing? && s.batch == [] && s.queue == multiset{}
    requires 1 !in s.posters && MAIN !in s.posters && s.mutex.Free? && t == Task(s.counter + 1, 0, 8)
    ensures Reachable(s') && s'.main == Dispatching(true) && s'.timestamp == 0 && s'.queue == multiset{t}
  {
    var s1 := NumberPost(s, 1, 0, 8);
    var s2 := FinishPost(s1, 1, t);
    assert s2.queue == multiset{t} && MAIN !in s2.posters;
    var s3 := ReachStep(s2, AcquirePeek);
    assert t in s3.queue;
    s' := ReachStep(s3, Peek(0));
  }

  /** ProcessEvents can return 0 with a task queued. */
  lemma ZeroWithATaskQueued() returns (s: State)
    ensures Reachable(s) && s.main == Dispatching(true)
    ensures s.timestamp == 0 && s.queue == multiset{Task(2, 0, 8)}
  {
    InitReachable();
    var first := Task(1, 0, 7);
    s := NumberPost(Init, 1, 0, 7);
    s := FinishPost(s, 1, first);
    s := WakeAndDrain(s);
    assert s.queue == multiset{first};
    s := TakeOne(s, first);
    s := FireOne(s, first);
    s := ZeroPostedMeanwhile(s, Task(2, 0, 8));
  }

  /** The main thread drains a queue of one task that is not due, and goes back to the poll. */
  lemma LeaveOne(s: State, t: Task) returns (s': State)
    requires Reachable(s) && s.main.Draining? && MAIN !in s.posters
    requires s.queue == multiset{t} && s.batch == [] && t.fireTime > s.main.start
    ensures Reachable(s') && s'.main.Polling? && s'.timestamp == 0 && s'.queue == s.queue
    ensures s'.posters == s.posters && s'.eventfd == s.eventfd && s'.now == s.now
  {
    s' := ReachStep(s, FinishDrain);
    assert t in s'.queue;
    s' := BackToPoll(s', t.fireTime);
  }

  /** A quiet loop with an overdue task: it came due after the only drain that saw it, and nothing
      wakes the loop when it does. */
  lemma QuietLoopCanOversleep() returns (s: State)
    ensures Reachable(s) && Quiet(s)
    ensures s.queue == multiset{Task(1, 5, 7)} && s.now == 10 && s.timestamp == 0
  {
    InitReachable();
    var t := Task(1, 5, 7);
    s := NumberPost(Init, 1, 5, 7);
    s := FinishPost(s, 1, t);
    s := WakeAndDrain(s);
    assert s.queue == multiset{t};
    s := LeaveOne(s, t);
    s := ReachStep(s, Advance(10));
  }
}
