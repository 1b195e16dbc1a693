/** The poll loop of Run and its use of the Wayland read intent. */
module RunLoop {

  /** What one round of the poll finds, and how the calls it leads to turn out. */
  datatype Poll =
    | Error                                // ppoll fails other than with EINTR
    | Timeout
    | Ready(
        timer: bool, timerRead: bool,      // the repeat timer is readable; its read succeeds
        vsync: bool, vsyncRead: bool,      // the vsync socket is readable; its read succeeds
        presentation: bool,                // presentation feedback is available
        handled: bool,                     // the vsync handler returns 1
        display: bool,                     // the Wayland socket is readable
        memory: bool, memoryRead: bool,    // the memory watcher's descriptor is readable; its read succeeds
        wake: bool)                        // the event loop's descriptor is readable

  datatype Action =
    | PrepareRead(ok: bool)
    | DispatchPending
    | Flush
    | PollCall
    | ReadEvents
    | CancelRead
    | RepeatKey
    | HandleVsync
    | MemoryEvent
    | EventfdRead
    | ProcessEvents

  /** Run ends only by returning false; otherwise it is waiting in ppoll when the polls are used up. */
  datatype Outcome = InPoll | ReturnedFalse

  datatype Verdict = Fails | Continues | Completes

  /** How a round ends: with a return, with the continue of a vsync round, or with the break. */
  function VerdictOf(p: Poll): Verdict {
    match p
    case Error => Fails
    case Timeout => Completes
    case Ready(_, _, _, _, _, _, _, _, _, _) =>
      if p.timer && !p.timerRead then Fails
      else if !p.vsync then Completes
      else if !p.vsyncRead || !p.handled then Fails
      else Continues
  }

  /** What a round does once neither the timer nor the vsync socket has ended it. */
  function FinalActions(p: Poll): seq<Action> {
    match p
    case Ready(_, _, _, _, _, _, _, _, _, _) =>
      [if p.display then ReadEvents else CancelRead]
      + (if p.memory && p.memoryRead then [MemoryEvent] else [])
      + (if p.wake then [EventfdRead] + [ProcessEvents] else [])
    case _ => [CancelRead, ProcessEvents]
  }

  /** The actions of one round. */
  function Round(p: Poll): seq<Action> {
    match p
    case Error => [PollCall]
    case Timeout => [PollCall] + FinalActions(p)
    case Ready(_, _, _, _, _, _, _, _, _, _) =>
      if p.timer && !p.timerRead then [PollCall]
      else
        [PollCall] + (if p.timer then [RepeatKey] else [])
        + (if !p.vsync then FinalActions(p)
           else if !p.vsyncRead then []
           else if p.presentation then [DispatchPending, HandleVsync] else [HandleVsync])
  }

  /** The prepare_read loop that is turned away `n` times. */
  function Prepares(n: nat): seq<Action> {
    if n == 0 then [PrepareRead(true)] else [PrepareRead(false), DispatchPending] + Prepares(n - 1)
  }

  /** How often prepare_read is turned away in iteration `i`. */
  function BusyAt(busy: seq<nat>, i: nat): nat {
    if i < |busy| then busy[i] else 0
  }

  /** The actions from the start of outer iteration `i`. */
  function OuterLog(polls: seq<Poll>, busy: seq<nat>, i: nat): (seq<Action>, Outcome)
    decreases |polls|, 1
  {
    var (log, outcome) := InnerLog(polls, busy, i);
    (Prepares(BusyAt(busy, i)) + [Flush] + log, outcome)
  }

  /** The actions from a poll in outer iteration `i` on. */
  function InnerLog(polls: seq<Poll>, busy: seq<nat>, i: nat): (seq<Action>, Outcome)
    decreases |polls|, 0
  {
    if polls == [] then ([], InPoll)
    else
      var (log, outcome) := RestLog(VerdictOf(polls[0]), polls[1..], busy, i);
      (Round(polls[0]) + log, outcome)
  }

  /** The actions that follow a round of outer iteration `i` that ended as `v` says. */
  function RestLog(v: Verdict, polls: seq<Poll>, busy: seq<nat>, i: nat): (seq<Action>, Outcome)
    decreases |polls|, 2
  {
    match v
    case Fails => ([], ReturnedFalse)
    case Continues => InnerLog(polls, busy, i)
    case Completes =>
      var (log, outcome) := OuterLog(polls, busy, i + 1);
      ([DispatchPending] + log, outcome)
  }

  /** The connection to the compositor. libwayland demands that prepare_read is not called while a read
      intent is held, and that an intent is given back by read_events or cancel_read. */
  class WlDisplay {
    var intent: bool
    var log: seq<Action>

    constructor ()
      ensures !intent && log == []
    {
      intent, log := false, [];
    }

    method Record(a: Action)
      modifies this`log
      ensures log == old(log) + [a]
    {
      log := log + [a];
    }

    method Prepare(queueEmpty: bool) returns (rv: int)
      requires !intent
      modifies this
      ensures rv == 0 <==> queueEmpty
      ensures intent == queueEmpty && log == old(log) + [PrepareRead(queueEmpty)]
    {
      log := log + [PrepareRead(queueEmpty)];
      intent := queueEmpty;
      rv := if queueEmpty then 0 else -1;
    }

    method Read()
      requires intent
      modifies this
      ensures !intent && log == old(log) + [ReadEvents]
    {
      log, intent := log + [ReadEvents], false;
    }

    method Cancel()
      requires intent
      modifies this
      ensures !intent && log == old(log) + [CancelRead]
    {
      log, intent := log + [CancelRead], false;
    }

    /** The loop around prepare_read. */
    method AcquireIntent(refusals: nat)
      requires !intent
      modifies this
      ensures intent && log == old(log) + Prepares(refusals)
    {
      var left := refusals;
      var rv := Prepare(left == 0);
      while rv != 0
        invariant rv == 0 <==> intent
        invariant rv != 0 ==> left > 0 && old(log) + Prepares(refusals) == log + [DispatchPending] + Prepares(left - 1)
        invariant rv == 0 ==> log == old(log) + Prepares(refusals)
        decreases rv != 0, left
      {
        Record(DispatchPending);
        left := left - 1;
        assert left > 0 ==>
            log + Prepares(left) == (log + [PrepareRead(false)]) + [DispatchPending] + Prepares(left - 1);
        rv := Prepare(left == 0);
      }
    }

    /** The end of a round: the intent is given back, the watcher and the event loop have their turn. */
    method FinishRound(p: Poll)
      requires intent && !p.Error?
      modifies this
      ensures !intent && log == old(log) + FinalActions(p)
    {
      if p.Ready? && p.display {
        Read();
      } else {
        Cancel();
      }
      if p.Ready? && p.memory && p.memoryRead {
        Record(MemoryEvent);
      }
      var wakeup := p.Ready? && p.wake;
      if wakeup {
        Record(EventfdRead);
      }
      if wakeup || p.Timeout? {
        Record(ProcessEvents);
      }
    }

    /** The vsync part of a round: reads the byte, asks for feedback and returns the baton. */
    method VsyncRound(p: Poll) returns (v: Verdict)
      requires p.Ready? && p.vsync
      modifies this`log
      ensures v == if p.vsyncRead && p.handled then Continues else Fails
      ensures log == old(log) + if !p.vsyncRead then []
                                else if p.presentation then [DispatchPending, HandleVsync] else [HandleVsync]
    {
      if !p.vsyncRead {
        return Fails;
      }
      if p.presentation {
        Record(DispatchPending);
      }
      Record(HandleVsync);
      v := if p.handled then Continues else Fails;
    }

    /** One round of the poll, from its return to the continue, the break or the return. */
    method PollRound(p: Poll) returns (v: Verdict)
      requires intent
      modifies this
      ensures v == VerdictOf(p) && log == old(log) + Round(p)
      ensures intent <==> v != Completes
    {
      Record(PollCall);
      if p.Error? {
        return Fails;
      }
      if p.Ready? && p.timer {
        if !p.timerRead {
          return Fails;
        }
        Record(RepeatKey);
      }
      if p.Ready? && p.vsync {
        v := VsyncRound(p);
        return;
      }
      FinishRound(p);
      v := Completes;
    }

    /** The inner loop of Run: polls until a round ends other than with the continue. `next` is the
        number of polls made so far; while v is Continues the loop waits for the next poll. */
    method PollUntilDone(polls: seq<Poll>, ghost busy: seq<nat>, ghost i: nat, start: nat)
      returns (next: nat, v: Verdict)
      requires intent && start <= |polls|
      modifies this
      ensures start <= next <= |polls| && (v == Continues ==> next == |polls|) && (v == Completes ==> start < next)
      ensures intent <==> v != Completes
      ensures var rest := RestLog(Continues, polls[start..], busy, i);
              && old(log) + rest.0 == log + RestLog(v, polls[next..], busy, i).0
              && rest.1 == RestLog(v, polls[next..], busy, i).1
    {
      next, v := start, Continues;
      ghost var (todo, last) := RestLog(Continues, polls[start..], busy, i);
      ghost var all := log + todo;
      while v == Continues && next < |polls|
        invariant start <= next <= |polls| && (v == Completes ==> start < next)
        invariant intent <==> v != Completes
        invariant all == log + RestLog(v, polls[next..], busy, i).0
        invariant last == RestLog(v, polls[next..], busy, i).1
        decreases |polls| - next
      {
        Unfold(log, polls, next, busy, i);
        v := PollRound(polls[next]);
        next := next + 1;
      }
    }

    /** Run, over the polls it makes until it returns or waits for the next one. The callee's demands on
        the read intent are met throughout. Nothing in the loop makes a valid display invalid. */
    method Run(valid: bool, polls: seq<Poll>, busy: seq<nat>) returns (outcome: Outcome)
      requires !intent
      modifies this
      ensures !valid ==> !intent && log == old(log) && outcome == ReturnedFalse
      ensures valid ==>
                intent && log == old(log) + OuterLog(polls, busy, 0).0 && outcome == OuterLog(polls, busy, 0).1
    {
      if !valid {
        return ReturnedFalse;
      }
      ghost var (all, last) := OuterLog(polls, busy, 0);
      ghost var before := log;
      var next, i := 0, 0;
      assert polls[0..] == polls;
      while true
        invariant next <= |polls| && !intent
        invariant var (rest, o) := OuterLog(polls[next..], busy, i); before + all == log + rest && last == o
        decreases |polls| - next
      {
        ghost var logged := log;
        ghost var inner := InnerLog(polls[next..], busy, i).0;
        AcquireIntent(BusyAt(busy, i));
        Record(Flush);
        Regroup(logged, Prepares(BusyAt(busy, i)) + [Flush], inner);
        Regroup(logged, Prepares(BusyAt(busy, i)), [Flush]);
        var v;
        next, v := PollUntilDone(polls, busy, i, next);
        if v == Continues {
          return InPoll;
        }
        if v == Fails {
          return ReturnedFalse;
        }
        Regroup(log, [DispatchPending], OuterLog(polls[next..], busy, i + 1).0);
        Record(DispatchPending);
        i := i + 1;
      }
    }
  }

  lemma Unfold(log: seq<Action>, polls: seq<Poll>, next: nat, busy: seq<nat>, i: nat)
    requires next < |polls|
    ensures var rest := RestLog(VerdictOf(polls[next]), polls[next + 1..], busy, i);
            && log + RestLog(Continues, polls[next..], busy, i).0 == (log + Round(polls[next])) + rest.0
            && RestLog(Continues, polls[next..], busy, i).1 == rest.1
  {
  }

  lemma Regroup(a: seq<Action>, b: seq<Action>, c: seq<Action>)
    ensures a + (b + c) == (a + b) + c
  {
  }

  // ---------- the discipline of the read intent ----------

  datatype Intent = Held(held: bool) | Violation

  /** The effect of one action on the intent. */
  function IntentStep(a: Action, held: bool): Intent {
    match a
    case PrepareRead(ok) => if held then Violation else Held(ok)
    case ReadEvents => if held then Held(false) else Violation
    case CancelRead => if held then Held(false) else Violation
    case _ => Held(held)
  }

  /** Whether the intent is held after `log`, unless some call of it was not allowed. */
  function IntentAfter(log: seq<Action>, held: bool): Intent {
    if log == [] then Held(held)
    else match IntentStep(log[0], held)
      case Violation => Violation
      case Held(h) => IntentAfter(log[1..], h)
  }

  predicate GivesBack(a: Action) { a.ReadEvents? || a.CancelRead? }

  function Count(log: seq<Action>, a: Action): nat {
    if log == [] then 0 else (if log[0] == a then 1 else 0) + Count(log[1..], a)
  }

  /** Intents acquired, and intents given back, in a log. */
  function Acquired(log: seq<Action>): nat { Count(log, PrepareRead(true)) }

  function GivenBack(log: seq<Action>): nat { Count(log, ReadEvents) + Count(log, CancelRead) }

  lemma {:induction false} CountAppend(a: seq<Action>, b: seq<Action>, x: Action)
    ensures Count(a + b, x) == Count(a, x) + Count(b, x)
  {
    if a == [] {
      assert a + b == b;
    } else {
      assert (a + b)[1..] == a[1..] + b;
      CountAppend(a[1..], b, x);
    }
  }

  lemma {:induction false} IntentCounts(log: seq<Action>, held: bool)
    requires IntentAfter(log, held).Held?
    ensures (if held then 1 else 0) + Acquired(log) == GivenBack(log) + if IntentAfter(log, held).held then 1 else 0
  {
    if log != [] {
      IntentCounts(log[1..], IntentStep(log[0], held).held);
    }
  }

  lemma {:induction false} IntentAppend(a: seq<Action>, b: seq<Action>, held: bool)
    requires IntentAfter(a, held).Held?
    ensures IntentAfter(a + b, held) == IntentAfter(b, IntentAfter(a, held).held)
  {
    if a == [] {
      assert a + b == b;
    } else {
      assert (a + b)[1..] == a[1..] + b;
      IntentAppend(a[1..], b, IntentStep(a[0], held).held);
    }
  }

  /** A prefix of an allowed log is allowed. */
  lemma {:induction false} IntentPrefix(log: seq<Action>, n: nat, held: bool)
    requires n <= |log| && IntentAfter(log, held).Held?
    ensures IntentAfter(log[..n], held).Held?
  {
    if n > 0 {
      assert log[..n][1..] == log[1..][..n - 1];
      IntentPrefix(log[1..], n - 1, IntentStep(log[0], held).held);
    }
  }

  lemma {:induction false} IntentOfPrepares(n: nat)
    ensures IntentAfter(Prepares(n), false) == Held(true)
  {
    if n > 0 {
      IntentOfPrepares(n - 1);
      IntentAppend([PrepareRead(false), DispatchPending], Prepares(n - 1), false);
      var refused := [PrepareRead(false), DispatchPending];
      assert refused[1..] == [DispatchPending] && refused[1..][1..] == [];
    }
  }

  lemma IntentOfFinalActions(p: Poll)
    requires !p.Error?
    ensures IntentAfter(FinalActions(p), true) == Held(false)
  {
    var f := FinalActions(p);
    NeutralActions(f[1..], false);
  }

  predicate Neutral(a: Action) { !a.PrepareRead? && !GivesBack(a) }

  lemma {:induction false} NeutralActions(log: seq<Action>, held: bool)
    requires forall a :: a in log ==> Neutral(a)
    ensures IntentAfter(log, held) == Held(held)
  {
    if log != [] {
      assert Neutral(log[0]);
      NeutralActions(log[1..], held);
    }
  }

  /** A round keeps the intent unless it completes the iteration, and then gives it back. */
  lemma IntentOfRound(p: Poll)
    ensures IntentAfter(Round(p), true) == Held(VerdictOf(p) != Completes)
  {
    if VerdictOf(p) == Completes {
      var before := [PollCall] + if p.Ready? && p.timer then [RepeatKey] else [];
      assert Round(p) == before + FinalActions(p);
      NeutralActions(before, true);
      IntentAppend(before, FinalActions(p), true);
      IntentOfFinalActions(p);
    } else {
      NeutralActions(Round(p), true);
    }
  }

  lemma {:induction false} IntentOfInner(polls: seq<Poll>, busy: seq<nat>, i: nat)
    ensures IntentAfter(InnerLog(polls, busy, i).0, true) == Held(true)
    decreases |polls|, 0
  {
    if polls != [] {
      var v := VerdictOf(polls[0]);
      IntentOfRound(polls[0]);
      IntentOfRest(v, polls[1..], busy, i);
      IntentAppend(Round(polls[0]), RestLog(v, polls[1..], busy, i).0, true);
    }
  }

  lemma {:induction false} IntentOfRest(v: Verdict, polls: seq<Poll>, busy: seq<nat>, i: nat)
    ensures IntentAfter(RestLog(v, polls, busy, i).0, v != Completes) == Held(true)
    decreases |polls|, 2
  {
    match v
    case Fails =>
    case Continues => IntentOfInner(polls, busy, i);
    case Completes =>
      IntentOfOuter(polls, busy, i + 1);
      NeutralActions([DispatchPending], false);
      IntentAppend([DispatchPending], OuterLog(polls, busy, i + 1).0, false);
  }

  lemma {:induction false} IntentOfOuter(polls: seq<Poll>, busy: seq<nat>, i: nat)
    ensures IntentAfter(OuterLog(polls, busy, i).0, false) == Held(true)
    decreases |polls|, 1
  {
    var start := Prepares(BusyAt(busy, i));
    IntentOfPrepares(BusyAt(busy, i));
    NeutralActions([Flush], true);
    IntentAppend(start, [Flush], false);
    IntentOfInner(polls, busy, i);
    IntentAppend(start + [Flush], InnerLog(polls, busy, i).0, false);
  }

  /** At every moment of Run, for any number of vsync rounds, prepare_read was never called while an
      intent was held, and the intents acquired are given back but for at most one. */
  lemma ReadIntentDiscipline(polls: seq<Poll>, busy: seq<nat>, n: nat)
    requires n <= |OuterLog(polls, busy, 0).0|
    ensures var log := OuterLog(polls, busy, 0).0[..n];
            && IntentAfter(log, false).Held?
            && Acquired(log) == GivenBack(log) + if IntentAfter(log, false).held then 1 else 0
  {
    IntentOfOuter(polls, busy, 0);
    IntentPrefix(OuterLog(polls, busy, 0).0, n, false);
    IntentCounts(OuterLog(polls, busy, 0).0[..n], false);
  }

  // ---------- what a poll calls for ----------

  /** A round that ends Run: the poll fails, or a read or the vsync handler does. */
  predicate Broken(p: Poll) {
    p.Error? || (p.Ready? && ((p.timer && !p.timerRead) || (p.vsync && (!p.vsyncRead || !p.handled))))
  }

  /** A round that completes the iteration: neither broken nor a vsync round. */
  predicate Finished(p: Poll) {
    p.Timeout? || (p.Ready? && !p.vsync && (p.timer ==> p.timerRead))
  }

  /** The round of a poll performs the action, which is none of those outside the rounds. */
  predicate Performs(p: Poll, a: Action) {
    match a
    case PollCall => true
    case RepeatKey => p.Ready? && p.timer && p.timerRead
    case HandleVsync => p.Ready? && (p.timer ==> p.timerRead) && p.vsync && p.vsyncRead
    case ReadEvents => Finished(p) && p.Ready? && p.display
    case CancelRead => Finished(p) && (p.Timeout? || !p.display)
    case MemoryEvent => Finished(p) && p.Ready? && p.memory && p.memoryRead
    case EventfdRead => Finished(p) && p.Ready? && p.wake
    case ProcessEvents => Finished(p) && (p.Timeout? || p.wake)
    case _ => false
  }

  /** Actions that only the rounds perform. */
  predicate OfRounds(a: Action) { !a.PrepareRead? && !a.DispatchPending? && !a.Flush? }

  lemma VerdictIs(p: Poll)
    ensures VerdictOf(p) == Fails <==> Broken(p)
    ensures VerdictOf(p) == Completes <==> Finished(p)
  {
  }

  /** Run returns false exactly if it gets to a broken round, and waits in the poll otherwise. */
  lemma {:induction false} RunFailsExactlyWhen(polls: seq<Poll>, busy: seq<nat>, i: nat)
    ensures OuterLog(polls, busy, i).1 == InnerLog(polls, busy, i).1
    ensures InnerLog(polls, busy, i).1 == ReturnedFalse <==> exists r :: 0 <= r < |polls| && Broken(polls[r])
  {
    if polls != [] {
      VerdictIs(polls[0]);
      RunFailsExactlyWhen(polls[1..], busy, i);
      RunFailsExactlyWhen(polls[1..], busy, i + 1);
      if r :| 0 <= r < |polls| && Broken(polls[r]) && !Broken(polls[0]) {
        assert polls[1..][r - 1] == polls[r];
      }
      if r :| 0 <= r < |polls[1..]| && Broken(polls[1..][r]) {
        assert polls[r + 1] == polls[1..][r];
      }
    }
  }

  // ---------- the order of the actions ----------

  /** `b` may come right after `a`. */
  predicate MayFollow(a: Action, b: Action) {
    match a
    case PrepareRead(ok) => if ok then b == Flush else b == DispatchPending
    case Flush => b == PollCall
    case PollCall => b == RepeatKey || b == DispatchPending || b == HandleVsync || b == ReadEvents || b == CancelRead
    case RepeatKey => b == DispatchPending || b == HandleVsync || b == ReadEvents || b == CancelRead
    case HandleVsync => b == PollCall
    case ReadEvents => b == MemoryEvent || b == EventfdRead || b == DispatchPending
    case CancelRead => b == MemoryEvent || b == EventfdRead || b == ProcessEvents || b == DispatchPending
    case MemoryEvent => b == EventfdRead || b == DispatchPending
    case EventfdRead => b == ProcessEvents
    case ProcessEvents => b == DispatchPending
    case DispatchPending => b.PrepareRead? || b == HandleVsync
  }

  /** A log can end here. */
  predicate MayEnd(a: Action) {
    a == Flush || a == PollCall || a == RepeatKey || a == HandleVsync
  }

  /** In the round of `p`, `b` follows `a`: in the order of the loop, because the poll calls for it. A drain
      without a read of the eventfd comes of a timeout, and feedback is asked for before the vsync. */
  predicate Step(a: Action, b: Action, p: Poll) {
    && MayFollow(a, b)
    && (OfRounds(b) ==> b != PollCall && Performs(p, b))
    && (a == CancelRead && b == ProcessEvents ==> p.Timeout?)
    && (b == HandleVsync ==> (a == DispatchPending <==> p.presentation))
  }

  /** `log` goes on from the action `last` in the round of `p`, with `polls` to come. */
  predicate Traced(log: seq<Action>, last: Action, p: Poll, polls: seq<Poll>) {
    if log == [] then MayEnd(last)
    else if log[0] == PollCall then
      MayFollow(last, PollCall) && polls != [] && Traced(log[1..], PollCall, polls[0], polls[1..])
    else Step(last, log[0], p) && Traced(log[1..], log[0], p, polls)
  }

  /** The same for a part of a log that lies within a round. */
  predicate Steps(log: seq<Action>, last: Action, p: Poll) {
    log != [] ==> Step(last, log[0], p) && Steps(log[1..], log[0], p)
  }

  function Last(log: seq<Action>, before: Action): Action {
    if log == [] then before else log[|log| - 1]
  }

  lemma {:induction false} StepsAppend(a: seq<Action>, b: seq<Action>, last: Action, p: Poll)
    requires Steps(a, last, p) && Steps(b, Last(a, last), p)
    ensures Steps(a + b, last, p) && Last(a + b, last) == Last(b, Last(a, last))
  {
    if a == [] {
      assert a + b == b;
    } else {
      assert (a + b)[0] == a[0] && (a + b)[1..] == a[1..] + b;
      assert Last(a[1..], a[0]) == Last(a, last);
      StepsAppend(a[1..], b, a[0], p);
    }
  }

  lemma {:induction false} TracedAppend(a: seq<Action>, b: seq<Action>, last: Action, p: Poll, polls: seq<Poll>)
    requires Steps(a, last, p) && Traced(b, Last(a, last), p, polls)
    ensures Traced(a + b, last, p, polls)
  {
    if a == [] {
      assert a + b == b;
    } else {
      assert (a + b)[1..] == a[1..] + b;
      TracedAppend(a[1..], b, a[0], p, polls);
    }
  }

  lemma OneStep(b: Action, last: Action, p: Poll)
    requires Step(last, b, p)
    ensures Steps([b], last, p) && Last([b], last) == b
  {
  }

  lemma FinalSteps(p: Poll, last: Action)
    requires Finished(p) && (last == PollCall || last == RepeatKey)
    ensures Steps(FinalActions(p), last, p)
    ensures MayFollow(Last(FinalActions(p), last), DispatchPending)
  {
    var first := if p.Ready? && p.display then ReadEvents else CancelRead;
    OneStep(first, last, p);
    if p.Timeout? {
      assert FinalActions(p) == [first] + [ProcessEvents];
      OneStep(ProcessEvents, first, p);
      StepsAppend([first], [ProcessEvents], last, p);
    } else {
      var second := if p.memory && p.memoryRead then [MemoryEvent] else [];
      var third := if p.wake then [EventfdRead] + [ProcessEvents] else [];
      if second != [] {
        OneStep(MemoryEvent, first, p);
      }
      StepsAppend([first], second, last, p);
      if p.wake {
        OneStep(EventfdRead, Last(second, first), p);
        OneStep(ProcessEvents, EventfdRead, p);
        StepsAppend([EventfdRead], [ProcessEvents], Last(second, first), p);
      }
      StepsAppend([first] + second, third, last, p);
    }
  }

  /** The actions of a round after its poll. */
  function AfterPoll(p: Poll): seq<Action> { Round(p)[1..] }

  /** Where the round of `p` can leave the loop. */
  predicate EndsRound(last: Action, p: Poll) {
    if Broken(p) then MayEnd(last)
    else if Finished(p) then MayFollow(last, DispatchPending)
    else last == HandleVsync
  }

  /** The repetition of the key, if the timer was read. */
  function Repeats(p: Poll): seq<Action> {
    if Performs(p, RepeatKey) then [RepeatKey] else []
  }

  lemma RepeatSteps(p: Poll) returns (last: Action)
    ensures Steps(Repeats(p), PollCall, p) && last == Last(Repeats(p), PollCall)
    ensures last == PollCall || last == RepeatKey
  {
    last := PollCall;
    if Performs(p, RepeatKey) {
      OneStep(RepeatKey, PollCall, p);
      last := RepeatKey;
    }
  }

  /** What a vsync round does: with a presentation clock it asks for feedback first. */
  function VsyncActions(p: Poll): seq<Action> {
    if p.Ready? && p.presentation then [DispatchPending, HandleVsync] else [HandleVsync]
  }

  lemma VsyncSteps(p: Poll, last: Action)
    requires Performs(p, HandleVsync) && (last == PollCall || last == RepeatKey)
    ensures Steps(VsyncActions(p), last, p) && Last(VsyncActions(p), last) == HandleVsync
  {
    if p.presentation {
      assert [DispatchPending, HandleVsync] == [DispatchPending] + [HandleVsync];
      OneStep(DispatchPending, last, p);
      OneStep(HandleVsync, DispatchPending, p);
      StepsAppend([DispatchPending], [HandleVsync], last, p);
    } else {
      OneStep(HandleVsync, last, p);
    }
  }

  function RestOfRound(p: Poll): seq<Action> {
    if Finished(p) then FinalActions(p) else if Performs(p, HandleVsync) then VsyncActions(p) else []
  }

  lemma RoundIs(p: Poll)
    ensures AfterPoll(p) == Repeats(p) + RestOfRound(p)
    ensures Round(p) == [PollCall] + AfterPoll(p)
  {
  }

  lemma RoundSteps(p: Poll)
    ensures Steps(AfterPoll(p), PollCall, p)
    ensures EndsRound(Last(AfterPoll(p), PollCall), p)
  {
    RoundIs(p);
    var last := RepeatSteps(p);
    if Finished(p) {
      FinalSteps(p, last);
      StepsAppend(Repeats(p), FinalActions(p), PollCall, p);
    } else if Performs(p, HandleVsync) {
      VsyncSteps(p, last);
      StepsAppend(Repeats(p), VsyncActions(p), PollCall, p);
    } else {
      assert AfterPoll(p) == Repeats(p);
    }
  }

  lemma {:induction false} PreparesSteps(n: nat, p: Poll)
    ensures Steps(Prepares(n), DispatchPending, p) && Last(Prepares(n), DispatchPending) == PrepareRead(true)
  {
    if n == 0 {
      OneStep(PrepareRead(true), DispatchPending, p);
    } else {
      PreparesSteps(n - 1, p);
      OneStep(PrepareRead(false), DispatchPending, p);
      OneStep(DispatchPending, PrepareRead(false), p);
      StepsAppend([PrepareRead(false)], [DispatchPending], DispatchPending, p);
      assert [PrepareRead(false)] + [DispatchPending] == [PrepareRead(false), DispatchPending];
      StepsAppend([PrepareRead(false), DispatchPending], Prepares(n - 1), DispatchPending, p);
    }
  }

  lemma {:induction false} TracedInner(polls: seq<Poll>, busy: seq<nat>, i: nat, last: Action, p: Poll)
    requires last == Flush || last == HandleVsync
    ensures Traced(InnerLog(polls, busy, i).0, last, p, polls)
    decreases |polls|, 0
  {
    if polls != [] {
      var q := polls[0];
      var rest := RestLog(VerdictOf(q), polls[1..], busy, i).0;
      RoundSteps(q);
      TracedRest(q, polls[1..], busy, i, Last(AfterPoll(q), PollCall));
      RoundIs(q);
      TracedRound(q, AfterPoll(q), rest, last, p, polls);
    }
  }

  lemma TracedRound(q: Poll, round: seq<Action>, rest: seq<Action>, last: Action, p: Poll, polls: seq<Poll>)
    requires last == Flush || last == HandleVsync
    requires polls != [] && q == polls[0]
    requires Steps(round, PollCall, q) && Traced(rest, Last(round, PollCall), q, polls[1..])
    ensures Traced([PollCall] + round + rest, last, p, polls)
  {
    TracedAppend(round, rest, PollCall, q, polls[1..]);
    var log := [PollCall] + round + rest;
    assert log[0] == PollCall && log[1..] == round + rest;
  }

  lemma {:induction false} TracedRest(p: Poll, polls: seq<Poll>, busy: seq<nat>, i: nat, last: Action)
    requires EndsRound(last, p)
    ensures Traced(RestLog(VerdictOf(p), polls, busy, i).0, last, p, polls)
    decreases |polls|, 2
  {
    VerdictIs(p);
    match VerdictOf(p)
    case Fails =>
    case Continues => TracedInner(polls, busy, i, last, p);
    case Completes =>
      TracedOuter(polls, busy, i + 1, p);
      OneStep(DispatchPending, last, p);
      TracedAppend([DispatchPending], OuterLog(polls, busy, i + 1).0, last, p, polls);
  }

  lemma {:induction false} TracedOuter(polls: seq<Poll>, busy: seq<nat>, i: nat, p: Poll)
    ensures Traced(OuterLog(polls, busy, i).0, DispatchPending, p, polls)
    decreases |polls|, 1
  {
    var start, inner := Prepares(BusyAt(busy, i)), InnerLog(polls, busy, i).0;
    PreparesSteps(BusyAt(busy, i), p);
    OneStep(Flush, PrepareRead(true), p);
    StepsAppend(start, [Flush], DispatchPending, p);
    TracedInner(polls, busy, i, Flush, p);
    TracedAppend(start + [Flush], inner, DispatchPending, p, polls);
  }

  lemma {:induction false} TracedAt(log: seq<Action>, last: Action, p: Poll, polls: seq<Poll>, k: nat)
    requires Traced(log, last, p, polls) && k < |log|
    ensures var made := Count(log[..k], PollCall);
            && made <= |polls|
            && MayFollow(if k == 0 then last else log[k - 1], log[k])
            && (log[k] != PollCall ==>
                  Step(if k == 0 then last else log[k - 1], log[k], if made == 0 then p else polls[made - 1]))
    ensures MayEnd(log[|log| - 1])
  {
    if k > 0 {
      assert log[..k][0] == log[0] && log[..k][1..] == log[1..][..k - 1];
      if log[0] == PollCall {
        TracedAt(log[1..], PollCall, polls[0], polls[1..], k - 1);
      } else {
        TracedAt(log[1..], log[0], p, polls, k - 1);
      }
    } else if |log| > 1 {
      if log[0] == PollCall {
        TracedAt(log[1..], PollCall, polls[0], polls[1..], 0);
      } else {
        TracedAt(log[1..], log[0], p, polls, 0);
      }
    }
  }

  /** Every action of a run stands in the order of the loop, and an action of a round is one that the last
      poll before it calls for; with a presentation clock feedback is asked for before the vsync. */
  lemma EveryActionHasItsPoll(polls: seq<Poll>, busy: seq<nat>, k: nat)
    requires k < |OuterLog(polls, busy, 0).0|
    ensures var log := OuterLog(polls, busy, 0).0;
            var made := Count(log[..k], PollCall);
            && made <= |polls|
            && MayFollow(if k == 0 then DispatchPending else log[k - 1], log[k])
            && (k == |log| - 1 ==> MayEnd(log[k]))
            && (OfRounds(log[k]) && log[k] != PollCall ==> made > 0 && Performs(polls[made - 1], log[k]))
            && (log[k] == HandleVsync ==> k > 0 && (log[k - 1] == DispatchPending <==> polls[made - 1].presentation))
  {
    var log := OuterLog(polls, busy, 0).0;
    TracedOuter(polls, busy, 0, Error);
    TracedAt(log, DispatchPending, Error, polls, k);
  }

  /** A read of the eventfd is followed at once by a drain of the event loop; a drain without one comes
      of a timeout. */
  lemma EventfdReadThenDrain(polls: seq<Poll>, busy: seq<nat>, k: nat)
    requires k < |OuterLog(polls, busy, 0).0|
    ensures var log := OuterLog(polls, busy, 0).0;
            var made := Count(log[..k], PollCall);
            && made <= |polls|
            && (log[k] == EventfdRead ==> k + 1 < |log| && log[k + 1] == ProcessEvents)
            && (log[k] == ProcessEvents ==>
                  && k > 0 && made > 0
                  && (log[k - 1] == EventfdRead || (log[k - 1] == CancelRead && polls[made - 1].Timeout?)))
  {
    var log := OuterLog(polls, busy, 0).0;
    TracedOuter(polls, busy, 0, Error);
    TracedAt(log, DispatchPending, Error, polls, k);
    if k + 1 < |log| {
      TracedAt(log, DispatchPending, Error, polls, k + 1);
    }
  }

  // ---------- how often each action is performed ----------

  /** The rounds up to the first that is broken. */
  function Rounds(polls: seq<Poll>): seq<Poll> {
    if polls == [] then []
    else if Broken(polls[0]) then [polls[0]]
    else [polls[0]] + Rounds(polls[1..])
  }

  function CountRounds(polls: seq<Poll>, counted: Poll -> bool): nat {
    if polls == [] then 0 else (if counted(polls[0]) then 1 else 0) + CountRounds(polls[1..], counted)
  }

  lemma {:induction false} CountNone(log: seq<Action>, a: Action)
    requires a !in log
    ensures Count(log, a) == 0
  {
    if log != [] {
      CountNone(log[1..], a);
    }
  }

  lemma CountOne(x: Action, a: Action)
    ensures Count([x], a) == if x == a then 1 else 0
  {
  }

  /** An action that stands in a list of at most one. */
  lemma CountIf(c: bool, x: Action, a: Action)
    ensures Count(if c then [x] else [], a) == if c && x == a then 1 else 0
  {
  }

  lemma CountThree(x: seq<Action>, y: seq<Action>, z: seq<Action>, a: Action)
    ensures Count(x + y + z, a) == Count(x, a) + Count(y, a) + Count(z, a)
  {
    CountAppend(x + y, z, a);
    CountAppend(x, y, a);
  }

  /** What a finished round does for the event loop. */
  function Service(p: Poll): seq<Action> {
    (if Performs(p, EventfdRead) then [EventfdRead] else [])
    + (if Performs(p, ProcessEvents) then [ProcessEvents] else [])
  }

  lemma CountFinal(p: Poll, a: Action)
    requires Finished(p) && OfRounds(a) && a != PollCall && a != RepeatKey
    ensures Count(FinalActions(p), a) == if Performs(p, a) then 1 else 0
  {
    var first := if p.Ready? && p.display then ReadEvents else CancelRead;
    var second := if Performs(p, MemoryEvent) then [MemoryEvent] else [];
    assert FinalActions(p) == [first] + second + Service(p);
    CountThree([first], second, Service(p), a);
    CountOne(first, a);
    CountIf(Performs(p, MemoryEvent), MemoryEvent, a);
    CountService(p, a);
  }

  lemma CountService(p: Poll, a: Action)
    ensures Count(Service(p), a) ==
            if (a == EventfdRead || a == ProcessEvents) && Performs(p, a) then 1 else 0
  {
    CountAppend(if Performs(p, EventfdRead) then [EventfdRead] else [],
                if Performs(p, ProcessEvents) then [ProcessEvents] else [], a);
    CountIf(Performs(p, EventfdRead), EventfdRead, a);
    CountIf(Performs(p, ProcessEvents), ProcessEvents, a);
  }

  lemma CountVsync(p: Poll, a: Action)
    requires OfRounds(a)
    ensures Count(VsyncActions(p), a) == if a == HandleVsync then 1 else 0
  {
    assert [DispatchPending, HandleVsync][1..] == [HandleVsync];
  }

  lemma CountRest(p: Poll, a: Action)
    requires OfRounds(a) && a != PollCall && a != RepeatKey
    ensures Count(RestOfRound(p), a) == if Performs(p, a) then 1 else 0
  {
    if Finished(p) {
      CountFinal(p, a);
    } else if Performs(p, HandleVsync) {
      CountVsync(p, a);
    }
  }

  lemma NoneInRest(p: Poll, a: Action)
    requires a == PollCall || a == RepeatKey
    ensures Count(RestOfRound(p), a) == 0
  {
    assert a !in RestOfRound(p);
    CountNone(RestOfRound(p), a);
  }

  lemma RoundCount(p: Poll, a: Action)
    requires OfRounds(a)
    ensures Count(Round(p), a) == if Performs(p, a) then 1 else 0
  {
    RoundIs(p);
    assert Round(p) == [PollCall] + Repeats(p) + RestOfRound(p);
    CountThree([PollCall], Repeats(p), RestOfRound(p), a);
    CountOne(PollCall, a);
    CountIf(Performs(p, RepeatKey), RepeatKey, a);
    if a == PollCall || a == RepeatKey {
      NoneInRest(p, a);
    } else {
      CountRest(p, a);
    }
  }

  lemma {:induction false} NoneInPrepares(n: nat, a: Action)
    requires OfRounds(a)
    ensures Count(Prepares(n), a) == 0
  {
    if n > 0 {
      NoneInPrepares(n - 1, a);
      assert Prepares(n)[1..][1..] == Prepares(n - 1);
    }
  }

  lemma {:induction false} CountInInner(polls: seq<Poll>, busy: seq<nat>, i: nat, a: Action)
    requires OfRounds(a)
    ensures Count(InnerLog(polls, busy, i).0, a) == CountRounds(Rounds(polls), p => Performs(p, a))
    decreases |polls|, 0
  {
    if polls != [] {
      var v := VerdictOf(polls[0]);
      VerdictIs(polls[0]);
      RoundCount(polls[0], a);
      CountInRest(v, polls[1..], busy, i, a);
      CountAppend(Round(polls[0]), RestLog(v, polls[1..], busy, i).0, a);
    }
  }

  lemma {:induction false} CountInRest(v: Verdict, polls: seq<Poll>, busy: seq<nat>, i: nat, a: Action)
    requires OfRounds(a)
    ensures Count(RestLog(v, polls, busy, i).0, a) ==
            if v == Fails then 0 else CountRounds(Rounds(polls), p => Performs(p, a))
    decreases |polls|, 2
  {
    match v
    case Fails =>
    case Continues => CountInInner(polls, busy, i, a);
    case Completes =>
      CountInOuter(polls, busy, i + 1, a);
      CountAppend([DispatchPending], OuterLog(polls, busy, i + 1).0, a);
      CountOne(DispatchPending, a);
  }

  lemma {:induction false} CountInOuter(polls: seq<Poll>, busy: seq<nat>, i: nat, a: Action)
    requires OfRounds(a)
    ensures Count(OuterLog(polls, busy, i).0, a) == CountRounds(Rounds(polls), p => Performs(p, a))
    decreases |polls|, 1
  {
    var start := Prepares(BusyAt(busy, i));
    NoneInPrepares(BusyAt(busy, i), a);
    CountInInner(polls, busy, i, a);
    CountAppend(start, [Flush], a);
    CountAppend(start + [Flush], InnerLog(polls, busy, i).0, a);
  }

  lemma {:induction false} OneOrTheOther(polls: seq<Poll>)
    ensures CountRounds(polls, p => Performs(p, ReadEvents)) + CountRounds(polls, p => Performs(p, CancelRead)) ==
            CountRounds(polls, Finished)
  {
    if polls != [] {
      OneOrTheOther(polls[1..]);
    }
  }

  /** Over a whole run, each action of a round is performed exactly once for each round whose poll calls
      for it. The intent is acquired, and the socket flushed, once for the first iteration and once more
      for each that is completed. */
  lemma WhatRunDoes(polls: seq<Poll>, busy: seq<nat>, a: Action)
    requires OfRounds(a)
    ensures var log := OuterLog(polls, busy, 0).0;
            && Count(log, a) == CountRounds(Rounds(polls), p => Performs(p, a))
            && GivenBack(log) == CountRounds(Rounds(polls), Finished)
            && Acquired(log) == GivenBack(log) + 1
            && Count(log, Flush) == GivenBack(log) + 1
  {
    var log := OuterLog(polls, busy, 0).0;
    CountInOuter(polls, busy, 0, a);
    CountInOuter(polls, busy, 0, ReadEvents);
    CountInOuter(polls, busy, 0, CancelRead);
    OneOrTheOther(Rounds(polls));
    IntentOfOuter(polls, busy, 0);
    IntentCounts(log, false);
    TracedOuter(polls, busy, 0, Error);
    FlushPerIntent(log, DispatchPending, Error, polls);
  }

  /** Every intent acquired is followed by a flush, and there is no other. */
  lemma {:induction false} FlushPerIntent(log: seq<Action>, last: Action, p: Poll, polls: seq<Poll>)
    requires Traced(log, last, p, polls)
    ensures Count(log, Flush) == Acquired(log) + if last == PrepareRead(true) then 1 else 0
  {
    if log != [] {
      if log[0] == PollCall {
        FlushPerIntent(log[1..], PollCall, polls[0], polls[1..]);
      } else {
        FlushPerIntent(log[1..], log[0], p, polls);
      }
    }
  }
}
