/** Every step of the scheduler keeps its invariants. */
module SchedulerProofs {
  import opened Tasks
  import opened Scheduler

  lemma NumberedTakeOrder(issued: map<nat, Task>, counter: nat, pushed: multiset<Task>, t: Task)
    requires Numbered(issued, counter, pushed) && t.order == counter + 1
    ensures Numbered(issued[t.order := t], counter + 1, pushed)
    ensures t !in pushed && t.order !in issued
  {
  }

  lemma ApartTakeOrder(s: State, tid: ThreadId, t: Task)
    requires Identified(s) && tid in s.posters && t.order == s.counter + 1
    ensures PostersApart(s.posters[tid := Ordered(t)], s.h.issued[t.order := t], s.pushed)
  {
  }

  lemma ApartPush(s: State, tid: ThreadId, t: Task)
    requires Identified(s) && tid in s.posters && s.posters[tid] == Locked(t)
    ensures PostersApart(s.posters[tid := Pushed(t)], s.h.issued, s.pushed + multiset{t})
    ensures Numbered(s.h.issued, s.counter, s.pushed + multiset{t})
  {
  }

  /** A poster that moves on with the same task. */
  lemma ApartMove(s: State, tid: ThreadId, p: Poster)
    requires Identified(s) && OwnsTask(p, s.h.issued, s.pushed)
    requires p.Entered? || (tid in s.posters && !s.posters[tid].Entered? && s.posters[tid].t == p.t)
    ensures PostersApart(s.posters[tid := p], s.h.issued, s.pushed)
  {
  }

  lemma IdentifiedStep(s: State, step: Step)
    requires Identified(s) && Enabled(s, step)
    ensures Identified(Apply(s, step))
  {
    match step
    case Begin(tid, target, task) => ApartMove(s, tid, Entered(target, task, s.h.tick));
    case TakeOrder(tid) =>
      var t := Task(s.counter + 1, s.posters[tid].target, s.posters[tid].task);
      NumberedTakeOrder(s.h.issued, s.counter, s.pushed, t);
      ApartTakeOrder(s, tid, t);
    case Lock(tid) =>
      assert OwnsTask(s.posters[tid], s.h.issued, s.pushed);
      ApartMove(s, tid, Locked(s.posters[tid].t));
    case Push(tid) => ApartPush(s, tid, s.posters[tid].t);
    case Unlock(tid) =>
      assert OwnsTask(s.posters[tid], s.h.issued, s.pushed);
      ApartMove(s, tid, Unlocked(s.posters[tid].t));
    case Write(tid) =>
    case _ =>
  }

  lemma FiringKeepsPopped(fired: seq<Task>, batch: seq<Task>)
    requires batch != []
    ensures (fired + [batch[0]]) + batch[1..] == fired + batch
  {
  }

  lemma ExactlyOnceStep(s: State, step: Step)
    requires ExactlyOnce(s) && Enabled(s, step)
    ensures ExactlyOnce(Apply(s, step))
  {
    match step
    case FireNext => FiringKeepsPopped(s.fired, s.batch);
    case PopDue(top) => PopMoves(s.fired, s.batch, s.queue, top);
    case _ =>
  }

  lemma PopMoves(fired: seq<Task>, batch: seq<Task>, queue: multiset<Task>, top: Task)
    requires top in queue
    ensures multiset(fired + (batch + [top])) + (queue - multiset{top}) == multiset(fired + batch) + queue
  {
  }

  lemma MutexCorrectStep(s: State, step: Step)
    requires MutexCorrect(s) && Enabled(s, step)
    ensures MutexCorrect(Apply(s, step))
  {
    if IsMainStep(step) {
      MutexMainStep(s, step);
    } else {
      MutexPosterStep(s, step);
    }
  }

  lemma MutexMainStep(s: State, step: Step)
    requires MutexCorrect(s) && Enabled(s, step) && IsMainStep(step)
    ensures MutexCorrect(Apply(s, step))
  {
    assert Apply(s, step).posters == s.posters;
  }

  lemma MutexPosterStep(s: State, step: Step)
    requires MutexCorrect(s) && Enabled(s, step) && !IsMainStep(step)
    ensures MutexCorrect(Apply(s, step))
  {
    assert Apply(s, step).main == s.main;
  }

  /** A task whose wake-up is outstanding keeps it, unless the descriptor is read. */
  lemma WakeOutstandingStep(s: State, step: Step, t: Task)
    requires Enabled(s, step) && WakeOutstanding(s, t) && step != ReadEventfd
    ensures WakeOutstanding(Apply(s, step), t)
  {
    var s' := Apply(s, step);
    if s.eventfd > 0 {
    } else {
      var tid :| WillWake(s, tid, t);
      assert WillWake(s', tid, t) || s'.eventfd > 0;
    }
  }

  lemma NoLostWakeStep(s: State, step: Step)
    requires NoLostWake(s) && BatchGood(s) && Enabled(s, step)
    ensures NoLostWake(Apply(s, step))
  {
    var s' := Apply(s, step);
    forall t | t in s'.queue && t.fireTime <= s'.lastStart && !s'.main.WantsDrain? && !s'.main.Draining?
      ensures WakeOutstanding(s', t)
    {
      if step.Push? && t !in s.queue {
        assert WillWake(s', step.tid, t);
      } else {
        WakeOutstandingStep(s, step, t);
      }
    }
  }

  lemma PollHonestStep(s: State, step: Step)
    requires PollHonest(s) && Enabled(s, step)
    ensures PollHonest(Apply(s, step))
  {
  }

  lemma PeekKnowsStep(s: State, step: Step)
    requires PeekKnows(s) && Enabled(s, step)
    ensures PeekKnows(Apply(s, step))
  {
    if !step.Peek? {
      var s' := Apply(s, step);
      PeekedStays(s, step);
      if !InProcessEvents(s'.main) {
        forall t | t in s'.queue && t !in s'.peeked ensures WakeOutstanding(s', t) {
          if step.Push? && t !in s.queue {
            assert WillWake(s', step.tid, t);
          } else {
            WakeOutstandingStep(s, step, t);
          }
        }
      }
    }
  }

  /** Only a peek leaves ProcessEvents; outside it the queue only grows. */
  lemma PeekedStays(s: State, step: Step)
    requires Enabled(s, step) && !step.Peek?
    ensures var s' := Apply(s, step);
            && s'.lastWake == s.lastWake && s'.peeked == s.peeked
            && (!InProcessEvents(s'.main) ==>
                  !InProcessEvents(s.main) && s.queue <= s'.queue && step != ReadEventfd)
            && (!step.Push? ==> s'.queue <= s.queue)
  {
  }

  lemma TimestampKeptStep(s: State, step: Step)
    requires TimestampKept(s) && Enabled(s, step)
    ensures TimestampKept(Apply(s, step))
  {
  }

  lemma BatchGoodStep(s: State, step: Step)
    requires BatchGood(s) && MutexCorrect(s) && Enabled(s, step)
    ensures BatchGood(Apply(s, step))
  {
    if !IsMainStep(step) {
      BatchGoodPoster(s, step);
    } else if step.FireNext? {
      BatchGoodFire(s);
    } else if step.PopDue? {
      BatchGoodPop(s, step.top);
    } else {
      BatchGoodMain(s, step);
    }
  }

  /** A poster that changes the queue holds the mutex, so the main thread is not draining. */
  lemma BatchGoodPoster(s: State, step: Step)
    requires BatchGood(s) && Enabled(s, step) && !IsMainStep(step) && MutexCorrect(s)
    ensures BatchGood(Apply(s, step))
  {
    var s' := Apply(s, step);
    assert step.Push? ==> !s.main.Draining?;
    assert s'.main == s.main && s'.batch == s.batch && s'.batchFired == s.batchFired && s'.fired == s.fired;
  }

  lemma BatchGoodFire(s: State)
    requires BatchGood(s) && Enabled(s, FireNext)
    ensures BatchGood(Apply(s, FireNext))
  {
    FiringKeepsPopped(s.batchFired, s.batch);
  }

  lemma BatchGoodPop(s: State, top: Task)
    requires BatchGood(s) && Enabled(s, PopDue(top))
    ensures BatchGood(Apply(s, PopDue(top)))
  {
    assert s.batchFired + s.batch == s.batch;
    TakeTop(s.batch, top, s.queue);
    assert s.batchFired + (s.batch + [top]) == s.batch + [top];
  }

  lemma BatchGoodMain(s: State, step: Step)
    requires BatchGood(s) && Enabled(s, step) && IsMainStep(step) && !step.FireNext? && !step.PopDue?
    ensures BatchGood(Apply(s, step))
  {
    var s' := Apply(s, step);
    assert s'.batch == s.batch && s'.fired == s.fired && s'.queue == s.queue && s'.now == s.now;
  }

  /** The steps that date something. */
  predicate Dates(step: Step) {
    step.TakeOrder? || step.Push? || step.Write? || step.PopDue?
  }

  lemma DatedStep(s: State, step: Step)
    requires Dated(s) && Identified(s) && ExactlyOnce(s) && Enabled(s, step)
    ensures Dated(Apply(s, step))
  {
    BegunInPastStep(s, step);
    if Dates(step) {
      DatesStep(s, step);
    } else {
      SameHistory(s, step);
      DatedTick(s.h, s.pushed);
    }
  }

  lemma SameHistory(s: State, step: Step)
    requires Enabled(s, step) && !Dates(step)
    ensures Apply(s, step).pushed == s.pushed && Apply(s, step).h == s.h.(tick := s.h.tick + 1)
  {
  }

  lemma DatesStep(s: State, step: Step)
    requires DatedHistory(s.h, s.pushed) && BegunInPast(s.posters, s.h.tick)
    requires Identified(s) && ExactlyOnce(s) && Enabled(s, step) && Dates(step)
    ensures DatedHistory(Apply(s, step).h, Apply(s, step).pushed)
  {
    if step.PopDue? {
      assert step.top in s.pushed;
      DatedPop(s.h, s.pushed, step.top.order);
    } else if step.TakeOrder? {
      DatesTakeOrder(s, step.tid);
    } else {
      DatesPoster(s, step);
    }
  }

  lemma DatesTakeOrder(s: State, tid: ThreadId)
    requires DatedHistory(s.h, s.pushed) && BegunInPast(s.posters, s.h.tick) && Identified(s)
    requires Enabled(s, TakeOrder(tid))
    ensures DatedHistory(Apply(s, TakeOrder(tid)).h, s.pushed)
  {
    var t := Task(s.counter + 1, s.posters[tid].target, s.posters[tid].task);
    TakeOrderHistory(s, tid, t);
    NumberedTakeOrder(s.h.issued, s.counter, s.pushed, t);
    DatedTakeOrder(s.h, s.pushed, t, s.posters[tid].began);
  }

  lemma TakeOrderHistory(s: State, tid: ThreadId, t: Task)
    requires Enabled(s, TakeOrder(tid))
    requires t == Task(s.counter + 1, s.posters[tid].target, s.posters[tid].task)
    ensures Apply(s, TakeOrder(tid)).h ==
            s.h.(issued := s.h.issued[t.order := t], began := s.h.began[t.order := s.posters[tid].began],
                 tick := s.h.tick + 1)
  {
  }

  lemma DatesPoster(s: State, step: Step)
    requires DatedHistory(s.h, s.pushed) && PostersApart(s.posters, s.h.issued, s.pushed)
    requires Enabled(s, step) && (step.Push? || step.Write?)
    ensures DatedHistory(Apply(s, step).h, Apply(s, step).pushed)
  {
    assert OwnsTask(s.posters[step.tid], s.h.issued, s.pushed);
    if step.Push? {
      DatedPush(s.h, s.pushed, s.posters[step.tid].t);
    } else {
      DatedReturn(s.h, s.pushed, s.posters[step.tid].t.order);
    }
  }

  lemma BegunInPastStep(s: State, step: Step)
    requires BegunInPast(s.posters, s.h.tick) && Enabled(s, step)
    ensures BegunInPast(Apply(s, step).posters, Apply(s, step).h.tick)
  {
  }

  lemma DatedTick(h: History, pushed: multiset<Task>)
    requires DatedHistory(h, pushed)
    ensures DatedHistory(h.(tick := h.tick + 1), pushed)
  {
  }

  lemma DatedTakeOrder(h: History, pushed: multiset<Task>, t: Task, began: nat)
    requires DatedHistory(h, pushed) && t.order !in h.issued && t !in pushed && began < h.tick
    ensures DatedHistory(h.(issued := h.issued[t.order := t], began := h.began[t.order := began],
                            tick := h.tick + 1), pushed)
  {
  }

  lemma DatedPush(h: History, pushed: multiset<Task>, t: Task)
    requires DatedHistory(h, pushed) && IsIssued(h.issued, t) && t !in pushed
    ensures DatedHistory(h.(pushedAt := h.pushedAt[t.order := h.tick], tick := h.tick + 1), pushed + multiset{t})
  {
    assert t.order !in h.pushedAt;
  }

  lemma DatedReturn(h: History, pushed: multiset<Task>, o: nat)
    requires DatedHistory(h, pushed) && o in h.pushedAt
    ensures DatedHistory(h.(returned := h.returned[o := h.tick], tick := h.tick + 1), pushed)
  {
  }

  lemma DatedPop(h: History, pushed: multiset<Task>, o: nat)
    requires DatedHistory(h, pushed) && o in h.pushedAt
    ensures DatedHistory(h.(poppedAt := h.poppedAt[o := h.tick], tick := h.tick + 1), pushed)
  {
  }

  lemma TakeNext(popped: seq<Task>, top: Task, s: State)
    requires TakenInSequence(popped, s.h.poppedAt, s.h.issued) && Past(s.h.poppedAt, s.h.tick)
    requires top !in popped && IsIssued(s.h.issued, top)
    requires forall t :: t in popped ==> IsIssued(s.h.issued, t)
    ensures TakenInSequence(popped + [top], s.h.poppedAt[top.order := s.h.tick], s.h.issued)
    ensures top.order !in s.h.poppedAt
  {
  }

  lemma PoppedInOrderStep(s: State, step: Step)
    requires PoppedInOrder(s) && Dated(s) && Identified(s) && ExactlyOnce(s) && Enabled(s, step)
    ensures PoppedInOrder(Apply(s, step))
  {
    if step.PopDue? {
      PoppedInOrderPop(s, step.top);
    } else if step.TakeOrder? {
      var t := Task(s.counter + 1, s.posters[step.tid].target, s.posters[step.tid].task);
      NumberedTakeOrder(s.h.issued, s.counter, s.pushed, t);
      TakenTakeOrder(s.fired + s.batch, s.h.poppedAt, s.h.issued, t);
    } else {
      SamePopped(s, step);
    }
  }

  lemma SamePopped(s: State, step: Step)
    requires Enabled(s, step) && !step.PopDue? && !step.TakeOrder?
    ensures var s' := Apply(s, step);
            && s'.fired + s'.batch == s.fired + s.batch
            && s'.h.poppedAt == s.h.poppedAt && s'.h.issued == s.h.issued
  {
    if step.FireNext? {
      FiringKeepsPopped(s.fired, s.batch);
    }
  }

  lemma PoppedInOrderPop(s: State, top: Task)
    requires PoppedInOrder(s) && Past(s.h.poppedAt, s.h.tick) && Identified(s) && ExactlyOnce(s)
    requires Enabled(s, PopDue(top))
    ensures PoppedInOrder(Apply(s, PopDue(top)))
  {
    PoppedApartFromQueue(s, top);
    TakeNext(s.fired + s.batch, top, s);
    PopExtends(s, top);
  }

  lemma PopExtends(s: State, top: Task)
    requires Enabled(s, PopDue(top))
    ensures var s' := Apply(s, PopDue(top));
            && s'.fired + s'.batch == (s.fired + s.batch) + [top]
            && s'.h.poppedAt == s.h.poppedAt[top.order := s.h.tick] && s'.h.issued == s.h.issued
  {
  }

  lemma TakenTakeOrder(popped: seq<Task>, poppedAt: map<nat, nat>, issued: map<nat, Task>, t: Task)
    requires TakenInSequence(popped, poppedAt, issued) && t.order !in issued
    ensures TakenInSequence(popped, poppedAt, issued[t.order := t])
  {
  }

  lemma PoppedApartFromQueue(s: State, top: Task)
    requires Identified(s) && ExactlyOnce(s) && top in s.queue
    ensures top !in s.fired + s.batch && IsIssued(s.h.issued, top)
    ensures forall t :: t in s.fired + s.batch ==> IsIssued(s.h.issued, t)
  {
  }

  /** The top of the queue overtakes nothing: whatever is due to fire before it has been taken. */
  lemma TopOvertakesNone(s: State, top: Task, a: nat)
    requires Identified(s) && ExactlyOnce(s) && PoppedInOrder(s) && Dated(s)
    requires IsTop(top, s.queue) && a in s.h.pushedAt && FiresAfter(top, s.h.issued[a])
    ensures a in s.h.poppedAt
  {
  }

  lemma NoOvertakingStep(s: State, step: Step)
    requires NoOvertaking(s) && PoppedInOrder(s) && Dated(s) && Identified(s) && ExactlyOnce(s) && Enabled(s, step)
    ensures NoOvertaking(Apply(s, step))
  {
    if step.PopDue? {
      NoOvertakingPop(s, step);
    } else if step.Push? {
      NoOvertakingPush(s, step);
    } else if step.TakeOrder? {
      NoOvertakingTakeOrder(s, step);
    } else {
      NoOvertakingElse(s, step);
    }
  }

  lemma NoOvertakingElse(s: State, step: Step)
    requires NoOvertaking(s) && Enabled(s, step) && !step.PopDue? && !step.Push? && !step.TakeOrder?
    ensures NoOvertaking(Apply(s, step))
  {
    var h' := Apply(s, step).h;
    assert h'.issued == s.h.issued && h'.pushedAt == s.h.pushedAt && h'.poppedAt == s.h.poppedAt;
  }

  lemma NoOvertakingPush(s: State, step: Step)
    requires NoOvertaking(s) && DatedHistory(s.h, s.pushed) && Enabled(s, step) && step.Push?
    ensures NoOvertaking(Apply(s, step))
  {
    NoneOvertakenPush(s.h.issued, s.h.pushedAt, s.h.poppedAt, s.posters[step.tid].t.order, s.h.tick);
  }

  lemma NoneOvertakenPush(issued: map<nat, Task>, pushedAt: map<nat, nat>, poppedAt: map<nat, nat>, o: nat, tick: nat)
    requires NoneOvertaken(issued, pushedAt, poppedAt) && Past(poppedAt, tick)
    ensures NoneOvertaken(issued, pushedAt[o := tick], poppedAt)
  {
  }

  lemma NoOvertakingTakeOrder(s: State, step: Step)
    requires NoOvertaking(s) && DatedHistory(s.h, s.pushed) && Numbered(s.h.issued, s.counter, s.pushed)
    requires Enabled(s, step) && step.TakeOrder?
    ensures NoOvertaking(Apply(s, step))
  {
    var t := Task(s.counter + 1, s.posters[step.tid].target, s.posters[step.tid].task);
    NumberedTakeOrder(s.h.issued, s.counter, s.pushed, t);
    TakeOrderHistory(s, step.tid, t);
    NoneOvertakenTakeOrder(s.h, s.pushed, t);
  }

  lemma NoneOvertakenTakeOrder(h: History, pushed: multiset<Task>, t: Task)
    requires NoneOvertaken(h.issued, h.pushedAt, h.poppedAt) && DatedHistory(h, pushed) && t.order !in h.issued
    ensures NoneOvertaken(h.issued[t.order := t], h.pushedAt, h.poppedAt)
  {
    assert t.order !in h.pushedAt && t.order !in h.poppedAt;
  }

  lemma NoOvertakingPop(s: State, step: Step)
    requires NoOvertaking(s) && PoppedInOrder(s) && Dated(s) && Identified(s) && ExactlyOnce(s)
    requires Enabled(s, step) && step.PopDue?
    ensures NoOvertaking(Apply(s, step))
  {
    var top := step.top;
    PoppedApartFromQueue(s, top);
    TakeNext(s.fired + s.batch, top, s);
    AllBeforeTopTaken(s, top);
    NoneOvertakenPop(s.h.issued, s.h.pushedAt, s.h.poppedAt, top, s.h.tick);
    PopExtends(s, top);
    assert Apply(s, step).h.pushedAt == s.h.pushedAt;
  }

  lemma AllBeforeTopTaken(s: State, top: Task)
    requires Identified(s) && ExactlyOnce(s) && PoppedInOrder(s) && Dated(s) && IsTop(top, s.queue)
    ensures forall a :: a in s.h.pushedAt && FiresAfter(top, s.h.issued[a]) ==> a in s.h.poppedAt
  {
    forall a | a in s.h.pushedAt && FiresAfter(top, s.h.issued[a]) ensures a in s.h.poppedAt {
      TopOvertakesNone(s, top, a);
    }
  }

  lemma NoneOvertakenPop(issued: map<nat, Task>, pushedAt: map<nat, nat>, poppedAt: map<nat, nat>, top: Task, tick: nat)
    requires NoneOvertaken(issued, pushedAt, poppedAt) && Past(poppedAt, tick)
    requires IsIssued(issued, top) && top.order !in poppedAt
    requires forall a :: a in pushedAt ==> a in issued
    requires forall a :: a in pushedAt && FiresAfter(top, issued[a]) ==> a in poppedAt
    ensures NoneOvertaken(issued, pushedAt, poppedAt[top.order := tick])
  {
  }

  lemma NumbersFollowTimeStep(s: State, step: Step)
    requires NumbersFollowTime(s) && Dated(s) && Identified(s) && Enabled(s, step)
    ensures NumbersFollowTime(Apply(s, step))
  {
    match step
    case TakeOrder(tid) =>
      ReturnedFirstTakeOrder(s.h, s.counter, s.pushed, s.posters[tid].began);
    case Write(tid) =>
      ReturnedFirstReturn(s.h, s.posters[tid].t.order);
    case _ =>
  }

  lemma ReturnedFirstTakeOrder(h: History, counter: nat, pushed: multiset<Task>, began: nat)
    requires ReturnedFirst(h.returned, h.began) && DatedHistory(h, pushed) && Numbered(h.issued, counter, pushed)
    ensures ReturnedFirst(h.returned, h.began[counter + 1 := began])
  {
  }

  lemma ReturnedFirstReturn(h: History, o: nat)
    requires ReturnedFirst(h.returned, h.began) && Past(h.began, h.tick)
    ensures ReturnedFirst(h.returned[o := h.tick], h.began)
  {
  }

  lemma InvStep(s: State, step: Step)
    requires Inv(s) && Enabled(s, step)
    ensures Inv(Apply(s, step))
  {
    IdentifiedStep(s, step);
    ExactlyOnceStep(s, step);
    MutexCorrectStep(s, step);
    NoLostWakeStep(s, step);
    PollHonestStep(s, step);
    PeekKnowsStep(s, step);
    TimestampKeptStep(s, step);
    BatchGoodStep(s, step);
    DatedStep(s, step);
    PoppedInOrderStep(s, step);
    NoOvertakingStep(s, step);
    NumbersFollowTimeStep(s, step);
  }

  lemma FirstStep(s: State, steps: seq<Step>, s': State)
    requires Runs(s, steps, s') && steps != []
    ensures Enabled(s, steps[0]) && Runs(Apply(s, steps[0]), steps[1..], s')
  {
  }

  lemma {:induction false} RunsAppend(s: State, steps: seq<Step>, s': State, step: Step)
    requires Runs(s, steps, s') && Enabled(s', step)
    ensures Runs(s, steps + [step], Apply(s', step))
    decreases |steps|
  {
    var more := steps + [step];
    if steps == [] {
      assert more[1..] == [];
    } else {
      assert more[0] == steps[0] && more[1..] == steps[1..] + [step];
      RunsAppend(Apply(s, steps[0]), steps[1..], s', step);
    }
  }

  lemma ReachStep(s: State, step: Step) returns (s': State)
    requires Reachable(s) && Enabled(s, step)
    ensures s' == Apply(s, step) && Reachable(s')
  {
    s' := Apply(s, step);
    var steps :| Runs(Init, steps, s);
    RunsAppend(Init, steps, s, step);
  }

  lemma {:induction false} InvRuns(s: State, steps: seq<Step>, s': State)
    requires Runs(s, steps, s')
    ensures Inv(s) ==> Inv(s')
    decreases |steps|
  {
    if steps != [] && Inv(s) {
      FirstStep(s, steps, s');
      InvStep(s, steps[0]);
      InvRuns(Apply(s, steps[0]), steps[1..], s');
    }
  }

  lemma InitInv()
    ensures Inv(Init)
  {
  }

  lemma ReachableInv(s: State)
    requires Reachable(s)
    ensures Inv(s)
  {
    var steps :| Runs(Init, steps, s);
    InitInv();
    InvRuns(Init, steps, s);
  }
}
