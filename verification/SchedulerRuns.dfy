/** The scheduler's history is that of its run: every date in it is the step it stands for, and every call
    of PostTask in the run is accounted for. */
module SchedulerRuns {
  import opened Tasks
  import opened Scheduler
  import opened SchedulerProofs

  // ---------- what the history says of the run ----------

  /** The call that began at step `k` was made by thread `tid`. */
  predicate CallAt(steps: seq<Step>, k: nat, tid: ThreadId) {
    k < |steps| && steps[k].Begin? && steps[k].tid == tid
  }

  /** Every numbered task is the one that the call it was numbered in was asked to post. */
  ghost predicate NumbersTrue(steps: seq<Step>, began: map<nat, nat>, issued: map<nat, Task>) {
    && began.Keys == issued.Keys
    && forall o :: o in began ==>
         && began[o] < |steps| && steps[began[o]].Begin?
         && issued[o] == Task(o, steps[began[o]].target, steps[began[o]].task)
  }

  /** A task was pushed by the thread that was asked to post it. */
  ghost predicate PushesTrue(steps: seq<Step>, began: map<nat, nat>, pushedAt: map<nat, nat>) {
    forall o :: o in pushedAt ==>
      && o in began && pushedAt[o] < |steps| && steps[pushedAt[o]].Push?
      && CallAt(steps, began[o], steps[pushedAt[o]].tid)
  }

  /** A call returned in the thread that made it. */
  ghost predicate ReturnsTrue(steps: seq<Step>, began: map<nat, nat>, returned: map<nat, nat>) {
    forall o :: o in returned ==>
      && o in began && returned[o] < |steps| && steps[returned[o]].Write?
      && CallAt(steps, began[o], steps[returned[o]].tid)
  }

  ghost predicate PopsTrue(steps: seq<Step>, issued: map<nat, Task>, poppedAt: map<nat, nat>) {
    forall o :: o in poppedAt ==>
      o in issued && poppedAt[o] < |steps| && steps[poppedAt[o]] == PopDue(issued[o])
  }

  ghost predicate HistoryTrue(steps: seq<Step>, h: History) {
    && h.tick == |steps|
    && NumbersTrue(steps, h.began, h.issued)
    && PushesTrue(steps, h.began, h.pushedAt)
    && ReturnsTrue(steps, h.began, h.returned)
    && PopsTrue(steps, h.issued, h.poppedAt)
  }

  lemma HistoryLonger(steps: seq<Step>, step: Step, h: History)
    requires HistoryTrue(steps, h)
    ensures HistoryTrue(steps + [step], h.(tick := h.tick + 1))
  {
  }

  lemma NumberAdded(steps: seq<Step>, h: History, t: Task, began: nat)
    requires NumbersTrue(steps, h.began, h.issued) && PushesTrue(steps, h.began, h.pushedAt)
    requires ReturnsTrue(steps, h.began, h.returned) && PopsTrue(steps, h.issued, h.poppedAt)
    requires t.order !in h.issued && began < |steps| && steps[began].Begin?
    requires t.fireTime == steps[began].target && t.task == steps[began].task
    ensures NumbersTrue(steps, h.began[t.order := began], h.issued[t.order := t])
    ensures PushesTrue(steps, h.began[t.order := began], h.pushedAt)
    ensures ReturnsTrue(steps, h.began[t.order := began], h.returned)
    ensures PopsTrue(steps, h.issued[t.order := t], h.poppedAt)
  {
  }

  // ---------- what a thread inside PostTask says of the run ----------

  ghost predicate PosterTrue(steps: seq<Step>, h: History, tid: ThreadId, p: Poster) {
    match p
    case Entered(target, task, began) => began < |steps| && steps[began] == Begin(tid, target, task)
    case _ => p.t.order in h.began && CallAt(steps, h.began[p.t.order], tid) && p.t.order !in h.returned
  }

  ghost predicate PostersTrue(steps: seq<Step>, h: History, posters: map<ThreadId, Poster>) {
    forall tid :: tid in posters ==> PosterTrue(steps, h, tid, posters[tid])
  }

  /** A poster stays true over a step that does not return its own call. */
  lemma PosterKept(steps: seq<Step>, step: Step, h: History, h': History, tid: ThreadId, p: Poster)
    requires PosterTrue(steps, h, tid, p)
    requires !p.Entered? ==> p.t.order in h'.began && h'.began[p.t.order] == h.began[p.t.order]
    requires !p.Entered? ==> p.t.order !in h'.returned
    ensures PosterTrue(steps + [step], h', tid, p)
  {
  }

  // ---------- nothing of the run is missing ----------

  ghost predicate HasDate(dates: map<nat, nat>, k: nat) {
    exists o :: o in dates && dates[o] == k
  }

  lemma DateAdded(dates: map<nat, nat>, o: nat, k: nat)
    requires o !in dates
    ensures HasDate(dates[o := k], k)
    ensures forall j :: HasDate(dates, j) ==> HasDate(dates[o := k], j)
  {
    var more := dates[o := k];
    assert o in more && more[o] == k;
    forall j | HasDate(dates, j) ensures HasDate(more, j) {
      var p :| p in dates && dates[p] == j;
      assert p in more && more[p] == j;
    }
  }

  /** Thread `tid` is in the call that began at step `k`, which has no number yet. */
  predicate Unnumbered(posters: map<ThreadId, Poster>, tid: ThreadId, k: nat) {
    tid in posters && posters[tid].Entered? && posters[tid].began == k
  }

  /** Step `k` of the run is dated in the history, if it is one that the history dates. */
  ghost predicate StepDated(h: History, posters: map<ThreadId, Poster>, step: Step, k: nat) {
    match step
    case Begin(tid, _, _) => HasDate(h.began, k) || Unnumbered(posters, tid, k)
    case Push(_) => HasDate(h.pushedAt, k)
    case Write(_) => HasDate(h.returned, k)
    case PopDue(_) => HasDate(h.poppedAt, k)
    case _ => true
  }

  ghost predicate StepsDated(steps: seq<Step>, h: History, posters: map<ThreadId, Poster>) {
    forall k: nat :: k < |steps| ==> StepDated(h, posters, steps[k], k)
  }

  /** A thread is about to push the task. */
  ghost predicate InHand(posters: map<ThreadId, Poster>, t: Task) {
    exists tid :: tid in posters && (posters[tid] == Ordered(t) || posters[tid] == Locked(t))
  }

  ghost predicate AllOnTheirWay(issued: map<nat, Task>, pushed: multiset<Task>, posters: map<ThreadId, Poster>) {
    forall o :: o in issued ==> issued[o] in pushed || InHand(posters, issued[o])
  }

  // ---------- counters ----------

  /** The writes to the event descriptor since it was last read. */
  function UnreadWrites(steps: seq<Step>): nat {
    if steps == [] then 0
    else
      var n := |steps| - 1;
      if steps[n].ReadEventfd? then 0
      else UnreadWrites(steps[..n]) + if steps[n].Write? then 1 else 0
  }

  function Elapsed(steps: seq<Step>): nat {
    if steps == [] then 0
    else var n := |steps| - 1; Elapsed(steps[..n]) + if steps[n].Advance? then steps[n].d else 0
  }

  /** The counters are those of the run, and a callback was given the task fired last. */
  ghost predicate CountersTrue(steps: seq<Step>, s: State) {
    && s.eventfd == UnreadWrites(steps)
    && s.now == Elapsed(steps)
    && (s.main.InCallback? ==> s.fired != [] && s.main.t == s.fired[|s.fired| - 1])
  }

  ghost predicate Recorded(steps: seq<Step>, s: State) {
    && HistoryTrue(steps, s.h)
    && PostersTrue(steps, s.h, s.posters)
    && StepsDated(steps, s.h, s.posters)
    && AllOnTheirWay(s.h.issued, s.pushed, s.posters)
    && CountersTrue(steps, s)
  }

  // ---------- every step records itself ----------

  /** The number about to be given out is new. */
  lemma FreshNumber(s: State, tid: ThreadId)
    requires Identified(s) && Enabled(s, TakeOrder(tid))
    ensures s.counter + 1 !in s.h.issued
  {
  }

  /** The task a thread is about to push, or has pushed, bears a number; its date is still open. */
  lemma PosterOwns(s: State, tid: ThreadId)
    requires Identified(s) && Dated(s) && tid in s.posters && !s.posters[tid].Entered?
    ensures var t := s.posters[tid].t;
            && IsIssued(s.h.issued, t)
            && (s.posters[tid].Ordered? || s.posters[tid].Locked? ==> t !in s.pushed && t.order !in s.h.pushedAt)
  {
    assert OwnsTask(s.posters[tid], s.h.issued, s.pushed);
  }

  lemma TopUndated(s: State, top: Task)
    requires Identified(s) && ExactlyOnce(s) && PoppedInOrder(s) && top in s.queue
    ensures IsIssued(s.h.issued, top) && top.order !in s.h.poppedAt
  {
    PoppedApartFromQueue(s, top);
  }

  lemma PushAdded(steps: seq<Step>, h: History, o: nat, tid: ThreadId)
    requires HistoryTrue(steps, h) && o in h.began && CallAt(steps, h.began[o], tid)
    ensures HistoryTrue(steps + [Push(tid)], h.(pushedAt := h.pushedAt[o := h.tick], tick := h.tick + 1))
  {
    HistoryLonger(steps, Push(tid), h);
  }

  lemma ReturnAdded(steps: seq<Step>, h: History, o: nat, tid: ThreadId)
    requires HistoryTrue(steps, h) && o in h.began && CallAt(steps, h.began[o], tid)
    ensures HistoryTrue(steps + [Write(tid)], h.(returned := h.returned[o := h.tick], tick := h.tick + 1))
  {
    HistoryLonger(steps, Write(tid), h);
  }

  lemma PopAdded(steps: seq<Step>, h: History, top: Task)
    requires HistoryTrue(steps, h) && IsIssued(h.issued, top)
    ensures HistoryTrue(steps + [PopDue(top)], h.(poppedAt := h.poppedAt[top.order := h.tick], tick := h.tick + 1))
  {
    HistoryLonger(steps, PopDue(top), h);
  }

  lemma PosterHistory(s: State, step: Step)
    requires Enabled(s, step) && (step.Push? || step.Write?)
    ensures var o := s.posters[step.tid].t.order;
            Apply(s, step).h ==
            if step.Push? then s.h.(pushedAt := s.h.pushedAt[o := s.h.tick], tick := s.h.tick + 1)
            else s.h.(returned := s.h.returned[o := s.h.tick], tick := s.h.tick + 1)
  {
  }

  lemma PopHistory(s: State, top: Task)
    requires Enabled(s, PopDue(top))
    ensures Apply(s, PopDue(top)).h == s.h.(poppedAt := s.h.poppedAt[top.order := s.h.tick], tick := s.h.tick + 1)
  {
  }

  lemma HistoryStep(steps: seq<Step>, s: State, step: Step)
    requires HistoryTrue(steps, s.h) && PostersTrue(steps, s.h, s.posters)
    requires Identified(s) && ExactlyOnce(s) && PoppedInOrder(s) && Enabled(s, step)
    ensures HistoryTrue(steps + [step], Apply(s, step).h)
  {
    if step.PopDue? {
      TopUndated(s, step.top);
      PopAdded(steps, s.h, step.top);
      PopHistory(s, step.top);
    } else if step.TakeOrder? {
      HistoryTakeOrder(steps, s, step.tid);
    } else if Dates(step) {
      HistoryPoster(steps, s, step);
    } else {
      HistoryLonger(steps, step, s.h);
      SameHistory(s, step);
    }
  }

  lemma HistoryPoster(steps: seq<Step>, s: State, step: Step)
    requires HistoryTrue(steps, s.h) && PostersTrue(steps, s.h, s.posters)
    requires Enabled(s, step) && (step.Push? || step.Write?)
    ensures HistoryTrue(steps + [step], Apply(s, step).h)
  {
    var tid, o := step.tid, s.posters[step.tid].t.order;
    assert PosterTrue(steps, s.h, tid, s.posters[tid]);
    PosterHistory(s, step);
    if step.Push? {
      PushAdded(steps, s.h, o, tid);
    } else {
      ReturnAdded(steps, s.h, o, tid);
    }
  }

  lemma HistoryTakeOrder(steps: seq<Step>, s: State, tid: ThreadId)
    requires HistoryTrue(steps, s.h) && PostersTrue(steps, s.h, s.posters)
    requires Identified(s) && Enabled(s, TakeOrder(tid))
    ensures HistoryTrue(steps + [TakeOrder(tid)], Apply(s, TakeOrder(tid)).h)
  {
    var p := s.posters[tid];
    var t := Task(s.counter + 1, p.target, p.task);
    assert PosterTrue(steps, s.h, tid, p);
    FreshNumber(s, tid);
    TakeOrderHistory(s, tid, t);
    NumberAdded(steps, s.h, t, p.began);
    var h := s.h.(issued := s.h.issued[t.order := t], began := s.h.began[t.order := p.began]);
    HistoryLonger(steps, TakeOrder(tid), h);
  }

  // ---------- the posters ----------

  /** What a step does to the dates that the posters rely on: earlier ones stay. */
  ghost predicate DatesKept(h: History, h': History, o: nat) {
    && (forall p :: p in h.began && p != o ==> p in h'.began && h'.began[p] == h.began[p])
    && (forall p :: p in h'.returned && p != o ==> p in h.returned)
  }

  lemma OthersKept(steps: seq<Step>, step: Step, s: State, h': History, tid: ThreadId, o: nat)
    requires PostersTrue(steps, s.h, s.posters) && DatesKept(s.h, h', o)
    requires forall i :: i in s.posters && i != tid && !s.posters[i].Entered? ==> s.posters[i].t.order != o
    ensures forall i :: i in s.posters && i != tid ==> PosterTrue(steps + [step], h', i, s.posters[i])
  {
    forall i | i in s.posters && i != tid ensures PosterTrue(steps + [step], h', i, s.posters[i]) {
      assert PosterTrue(steps, s.h, i, s.posters[i]);
      PosterKept(steps, step, s.h, h', i, s.posters[i]);
    }
  }

  /** The number that a step of a thread inside PostTask may date. */
  function NumberOf(s: State, tid: ThreadId): nat {
    if tid in s.posters && !s.posters[tid].Entered? then s.posters[tid].t.order else s.counter + 1
  }

  lemma NumberIsOwn(s: State, tid: ThreadId)
    requires Identified(s)
    ensures forall i :: i in s.posters && i != tid && !s.posters[i].Entered? ==>
              s.posters[i].t.order != NumberOf(s, tid)
  {
    forall i | i in s.posters && i != tid && !s.posters[i].Entered? ensures s.posters[i].t.order != NumberOf(s, tid) {
      assert OwnsTask(s.posters[i], s.h.issued, s.pushed);
      if tid in s.posters {
        assert DifferentTasks(s.posters[i], s.posters[tid]);
      }
    }
  }

  /** The thread of a step outside the main thread's own. */
  function Actor(step: Step): ThreadId {
    if IsMainStep(step) || step.Advance? then MAIN else step.tid
  }

  lemma StepKeepsDates(s: State, step: Step)
    requires Identified(s) && Enabled(s, step)
    requires s.h.began.Keys == s.h.issued.Keys
    ensures DatesKept(s.h, Apply(s, step).h, NumberOf(s, Actor(step)))
  {
    if step.TakeOrder? {
      TakeOrderHistory(s, step.tid, Task(s.counter + 1, s.posters[step.tid].target, s.posters[step.tid].task));
    } else if step.PopDue? {
      PopHistory(s, step.top);
    } else if Dates(step) {
      PosterHistory(s, step);
    } else {
      SameHistory(s, step);
    }
  }

  lemma StepKeepsOthers(s: State, step: Step)
    requires Enabled(s, step)
    ensures forall i :: i in Apply(s, step).posters && i != Actor(step) ==>
              i in s.posters && Apply(s, step).posters[i] == s.posters[i]
  {
  }

  lemma PostersStep(steps: seq<Step>, s: State, step: Step)
    requires HistoryTrue(steps, s.h) && PostersTrue(steps, s.h, s.posters)
    requires Identified(s) && Enabled(s, step)
    ensures PostersTrue(steps + [step], Apply(s, step).h, Apply(s, step).posters)
  {
    var s', actor := Apply(s, step), Actor(step);
    StepKeepsDates(s, step);
    StepKeepsOthers(s, step);
    NumberIsOwn(s, actor);
    OthersKept(steps, step, s, s'.h, actor, NumberOf(s, actor));
    if actor in s'.posters {
      ActorKept(steps, s, step);
    }
  }

  lemma ActorKept(steps: seq<Step>, s: State, step: Step)
    requires HistoryTrue(steps, s.h) && PostersTrue(steps, s.h, s.posters)
    requires Identified(s) && Enabled(s, step) && Actor(step) in Apply(s, step).posters
    ensures PosterTrue(steps + [step], Apply(s, step).h, Actor(step), Apply(s, step).posters[Actor(step)])
  {
    var tid := Actor(step);
    if tid in s.posters {
      assert PosterTrue(steps, s.h, tid, s.posters[tid]);
      if step.TakeOrder? {
        FreshNumber(s, tid);
      }
    }
  }

  // ---------- the dates ----------

  /** No date is lost. */
  ghost predicate DatesGrow(h: History, h': History) {
    forall k: nat ::
      && (HasDate(h.began, k) ==> HasDate(h'.began, k))
      && (HasDate(h.pushedAt, k) ==> HasDate(h'.pushedAt, k))
      && (HasDate(h.returned, k) ==> HasDate(h'.returned, k))
      && (HasDate(h.poppedAt, k) ==> HasDate(h'.poppedAt, k))
  }

  lemma TakeOrderDates(s: State, tid: ThreadId)
    requires Identified(s) && s.h.began.Keys == s.h.issued.Keys && Enabled(s, TakeOrder(tid))
    ensures DatesGrow(s.h, Apply(s, TakeOrder(tid)).h)
    ensures HasDate(Apply(s, TakeOrder(tid)).h.began, s.posters[tid].began)
  {
    var p := s.posters[tid];
    FreshNumber(s, tid);
    TakeOrderHistory(s, tid, Task(s.counter + 1, p.target, p.task));
    DateAdded(s.h.began, s.counter + 1, p.began);
  }

  lemma PushDates(s: State, tid: ThreadId)
    requires Identified(s) && Dated(s) && Enabled(s, Push(tid))
    ensures DatesGrow(s.h, Apply(s, Push(tid)).h) && HasDate(Apply(s, Push(tid)).h.pushedAt, s.h.tick)
  {
    PosterOwns(s, tid);
    PosterHistory(s, Push(tid));
    DateAdded(s.h.pushedAt, s.posters[tid].t.order, s.h.tick);
  }

  lemma ReturnDates(steps: seq<Step>, s: State, tid: ThreadId)
    requires PostersTrue(steps, s.h, s.posters) && Enabled(s, Write(tid))
    ensures DatesGrow(s.h, Apply(s, Write(tid)).h) && HasDate(Apply(s, Write(tid)).h.returned, s.h.tick)
  {
    assert PosterTrue(steps, s.h, tid, s.posters[tid]);
    PosterHistory(s, Write(tid));
    DateAdded(s.h.returned, s.posters[tid].t.order, s.h.tick);
  }

  lemma PopDates(s: State, top: Task)
    requires Identified(s) && ExactlyOnce(s) && PoppedInOrder(s) && Enabled(s, PopDue(top))
    ensures DatesGrow(s.h, Apply(s, PopDue(top)).h) && HasDate(Apply(s, PopDue(top)).h.poppedAt, s.h.tick)
  {
    TopUndated(s, top);
    PopHistory(s, top);
    DateAdded(s.h.poppedAt, top.order, s.h.tick);
  }

  lemma DatingStep(steps: seq<Step>, s: State, step: Step)
    requires s.h.began.Keys == s.h.issued.Keys && PostersTrue(steps, s.h, s.posters)
    requires Identified(s) && ExactlyOnce(s) && PoppedInOrder(s) && Dated(s) && Enabled(s, step) && Dates(step)
    ensures DatesGrow(s.h, Apply(s, step).h)
    ensures StepDated(Apply(s, step).h, Apply(s, step).posters, step, s.h.tick)
  {
    if step.TakeOrder? {
      TakeOrderDates(s, step.tid);
    } else if step.Push? {
      PushDates(s, step.tid);
    } else if step.Write? {
      ReturnDates(steps, s, step.tid);
    } else {
      PopDates(s, step.top);
    }
  }

  lemma UndatedStep(s: State, step: Step)
    requires Enabled(s, step) && !Dates(step)
    ensures DatesGrow(s.h, Apply(s, step).h)
    ensures StepDated(Apply(s, step).h, Apply(s, step).posters, step, s.h.tick)
  {
    SameHistory(s, step);
    if step.Begin? {
      assert Unnumbered(Apply(s, step).posters, step.tid, s.h.tick);
    }
  }

  /** A call that has no number yet keeps its date, or is given a number with it. */
  lemma UnnumberedStill(s: State, step: Step, tid: ThreadId, k: nat)
    requires Identified(s) && s.h.began.Keys == s.h.issued.Keys && Enabled(s, step)
    requires Unnumbered(s.posters, tid, k)
    ensures HasDate(Apply(s, step).h.began, k) || Unnumbered(Apply(s, step).posters, tid, k)
  {
    if step == TakeOrder(tid) {
      TakeOrderDates(s, tid);
    }
  }

  lemma StepsDatedStep(steps: seq<Step>, s: State, step: Step)
    requires HistoryTrue(steps, s.h) && PostersTrue(steps, s.h, s.posters) && StepsDated(steps, s.h, s.posters)
    requires Identified(s) && ExactlyOnce(s) && PoppedInOrder(s) && Dated(s) && Enabled(s, step)
    ensures StepsDated(steps + [step], Apply(s, step).h, Apply(s, step).posters)
  {
    var s' := Apply(s, step);
    if Dates(step) {
      DatingStep(steps, s, step);
    } else {
      UndatedStep(s, step);
    }
    forall k: nat | k < |steps| + 1 ensures StepDated(s'.h, s'.posters, (steps + [step])[k], k) {
      if k < |steps| {
        assert StepDated(s.h, s.posters, steps[k], k);
        if steps[k].Begin? && !HasDate(s.h.began, k) {
          UnnumberedStill(s, step, steps[k].tid, k);
        }
      }
    }
  }

  // ---------- the tasks on their way, and the counters ----------

  lemma OnTheirWayStep(s: State, step: Step)
    requires AllOnTheirWay(s.h.issued, s.pushed, s.posters) && Enabled(s, step)
    ensures AllOnTheirWay(Apply(s, step).h.issued, Apply(s, step).pushed, Apply(s, step).posters)
  {
    var s' := Apply(s, step);
    forall o | o in s'.h.issued ensures s'.h.issued[o] in s'.pushed || InHand(s'.posters, s'.h.issued[o]) {
      if step.TakeOrder? && o == s.counter + 1 {
        assert s'.posters[step.tid] == Ordered(s'.h.issued[o]);
      } else if s.h.issued[o] !in s.pushed {
        InHandStill(s, step, s.h.issued[o]);
      }
    }
  }

  lemma InHandStill(s: State, step: Step, t: Task)
    requires InHand(s.posters, t) && Enabled(s, step)
    ensures t in Apply(s, step).pushed || InHand(Apply(s, step).posters, t)
  {
    var tid :| tid in s.posters && (s.posters[tid] == Ordered(t) || s.posters[tid] == Locked(t));
    var s' := Apply(s, step);
    assert t in s'.pushed || (tid in s'.posters && (s'.posters[tid] == Ordered(t) || s'.posters[tid] == Locked(t)));
  }

  lemma CountersStep(steps: seq<Step>, s: State, step: Step)
    requires CountersTrue(steps, s) && Enabled(s, step)
    ensures CountersTrue(steps + [step], Apply(s, step))
  {
    assert (steps + [step])[..|steps|] == steps;
  }

  lemma RecordedStep(steps: seq<Step>, s: State, step: Step)
    requires Recorded(steps, s) && Reachable(s) && Enabled(s, step)
    ensures Recorded(steps + [step], Apply(s, step))
  {
    ReachableInv(s);
    HistoryStep(steps, s, step);
    PostersStep(steps, s, step);
    StepsDatedStep(steps, s, step);
    OnTheirWayStep(s, step);
    CountersStep(steps, s, step);
  }

  lemma OneMore(all: seq<Step>, n: nat, s: State, s': State) returns (next: State)
    requires n < |all| && Reachable(s) && Recorded(all[..n], s) && Runs(s, all[n..], s')
    ensures Reachable(next) && Recorded(all[..n + 1], next) && Runs(next, all[n + 1..], s')
  {
    FirstStep(s, all[n..], s');
    assert all[n..][0] == all[n] && all[n..][1..] == all[n + 1..] && all[..n + 1] == all[..n] + [all[n]];
    next := ReachStep(s, all[n]);
    RecordedStep(all[..n], s, all[n]);
  }

  /** The rest of a run from its step `n` on, in which the part before is recorded. */
  lemma {:induction false} RecordedRun(all: seq<Step>, n: nat, s: State, s': State)
    requires n <= |all| && Reachable(s) && Recorded(all[..n], s) && Runs(s, all[n..], s')
    ensures Recorded(all, s')
    decreases |all| - n
  {
    if n == |all| {
      assert all[..n] == all && all[n..] == [];
    } else {
      var next := OneMore(all, n, s, s');
      RecordedRun(all, n + 1, next, s');
    }
  }

  lemma RunIsRecorded(steps: seq<Step>, s: State)
    requires Runs(Init, steps, s)
    ensures Recorded(steps, s)
  {
    assert Runs(Init, [], Init) && Recorded([], Init);
    assert steps[..0] == [] && steps[0..] == steps;
    RecordedRun(steps, 0, Init, s);
  }

  // ---------- what follows for every run ----------

  /** Every date of the history is a step of the run, made by the thread of the call it is a date of. */
  lemma DatesAreSteps(steps: seq<Step>, s: State, o: nat)
    requires Runs(Init, steps, s) && o in s.h.issued
    ensures o in s.h.began && s.h.began[o] < |steps|
    ensures var call := steps[s.h.began[o]];
            && call.Begin? && s.h.issued[o] == Task(o, call.target, call.task)
            && (o in s.h.pushedAt ==> s.h.pushedAt[o] < |steps| && steps[s.h.pushedAt[o]] == Push(call.tid))
            && (o in s.h.returned ==> s.h.returned[o] < |steps| && steps[s.h.returned[o]] == Write(call.tid))
            && (o in s.h.poppedAt ==> s.h.poppedAt[o] < |steps| && steps[s.h.poppedAt[o]] == PopDue(s.h.issued[o]))
  {
    RunIsRecorded(steps, s);
  }

  /** The call that began at step `k` has come as far as the tasks of `s` show. */
  ghost predicate Accounted(s: State, k: nat, t: Task) {
    && t.order in s.h.began && s.h.began[t.order] == k
    && (InHand(s.posters, t) || t in s.queue || t in s.batch || t in s.fired)
  }

  /** Nothing posted is lost: the task of every call made in a run, as it was posted, is being posted, or
      is queued, taken or fired. */
  lemma NothingPostedIsLost(steps: seq<Step>, s: State, k: nat)
    requires Runs(Init, steps, s) && k < |steps| && steps[k].Begin?
    ensures Unnumbered(s.posters, steps[k].tid, k)
            || exists t: Task :: t.fireTime == steps[k].target && t.task == steps[k].task && Accounted(s, k, t)
    ensures s.posters == map[] ==>
              exists t: Task :: && t.fireTime == steps[k].target && t.task == steps[k].task && Accounted(s, k, t)
                                && (t in s.queue || t in s.batch || t in s.fired)
  {
    RunIsRecorded(steps, s);
    assert StepDated(s.h, s.posters, steps[k], k);
    if HasDate(s.h.began, k) {
      var o :| o in s.h.began && s.h.began[o] == k;
      CallAccounted(steps, s, o);
    }
  }

  lemma CallAccounted(steps: seq<Step>, s: State, o: nat)
    requires Recorded(steps, s) && Runs(Init, steps, s) && o in s.h.began
    ensures o in s.h.issued && Accounted(s, s.h.began[o], s.h.issued[o])
  {
    ReachableInv(s);
    var t := s.h.issued[o];
    assert t.order == o;
    if t in s.pushed {
      assert t in multiset(s.fired + s.batch) + s.queue;
    }
  }

  /** Nothing is invented: what is fired was posted, with that target and that handle, and the call
      reached its push before. */
  lemma FiredWasPosted(steps: seq<Step>, s: State, i: nat) returns (k: nat)
    requires Runs(Init, steps, s) && i < |s.fired|
    ensures k < |steps| && steps[k].Begin?
    ensures s.fired[i].fireTime == steps[k].target && s.fired[i].task == steps[k].task
    ensures s.fired[i].order in s.h.began && s.h.began[s.fired[i].order] == k
  {
    RunIsRecorded(steps, s);
    FiredIsIssued(s, s.fired[i]);
    k := s.h.began[s.fired[i].order];
  }

  lemma FiredIsIssued(s: State, t: Task)
    requires Reachable(s) && t in s.fired
    ensures IsIssued(s.h.issued, t)
  {
    ReachableInv(s);
    assert t in multiset(s.fired + s.batch) && t in s.pushed;
  }

  /** The fired tasks are those that the engine's callback was entered with: one more for each entry, and
      none otherwise. */
  lemma FiredIsHandedOver(s: State, step: Step)
    requires Enabled(s, step)
    ensures var s' := Apply(s, step);
            if s'.main.InCallback? && !s.main.InCallback? then s'.fired == s.fired + [s'.main.t]
            else s'.fired == s.fired
    ensures s.main.InCallback? ==> Apply(s, step).main == s.main || step.CallbackReturns?
  {
  }

  /** The engine's callback is given the task that was fired last. */
  lemma CallbackGetsTheTask(s: State)
    requires Reachable(s) && s.main.InCallback?
    ensures s.fired != [] && s.main.t == s.fired[|s.fired| - 1]
  {
    var steps :| Runs(Init, steps, s);
    RunIsRecorded(steps, s);
  }

  /** The event descriptor counts the writes since it was last read: one read takes them all. */
  lemma EventfdCountsWrites(steps: seq<Step>, s: State)
    requires Runs(Init, steps, s)
    ensures s.eventfd == UnreadWrites(steps) && s.now == Elapsed(steps)
  {
    RunIsRecorded(steps, s);
  }
}
