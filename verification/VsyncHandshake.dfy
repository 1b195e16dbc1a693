/** The vsync handshake between the engine's thread and the main thread, step by step. */
module VsyncHandshake {

  /** The thread that runs the engine's vsync callback. */
  datatype Engine =
    | Idle
    | Called(baton: int)     // in the callback, before its test
    | Tested(baton: int)     // has found no baton waiting
    | Stored(baton: int)     // has stored its own, not yet sent the byte
    | Exited                 // "New baton arrived, but old was not sent"

  /** The main thread, from the poll to the call of FlutterEngineOnVsync. */
  datatype Main =
    | Polling
    | Readable               // the poll has reported the socket readable
    | GotByte                // has read the byte
    | SawBaton               // has found a baton waiting; computes the target
    | Holding(baton: int)    // has exchanged the baton for 0
    | Notified               // NotifyThenExchange only: has called the engine, before the exchange
    | NoBaton                // the handler returned 0: Run ends
    | Rejected               // the engine rejected the call: Run ends

  /** The handler exchanges the baton first. The other order is here to show why. */
  datatype Design = ExchangeThenNotify | NotifyThenExchange

  datatype State = State(
    baton: int,              // the atomic
    socket: nat,             // bytes in the socket pair
    engine: Engine,
    main: Main,
    outstanding: bool,       // the engine has a baton out
    issued: seq<int>,
    returned: seq<int>)

  const Init := State(0, 0, Idle, Polling, false, [], [])

  datatype Step =
    | Request(baton: int)
    | Test
    | Store
    | Send
    | PollReturn
    | Read
    | TestBaton
    | Exchange
    | Notify(accepts: bool)

  /** The engine hands out non-zero batons, one at a time. */
  ghost predicate Enabled(d: Design, s: State, step: Step) {
    match step
    case Request(b) => s.engine.Idle? && !s.outstanding && b != 0
    case Test => s.engine.Called?
    case Store => s.engine.Tested?
    case Send => s.engine.Stored?
    case PollReturn => s.main.Polling? && s.socket > 0
    case Read => s.main.Readable? && s.socket > 0
    case TestBaton => s.main.GotByte?
    case Exchange => if d.ExchangeThenNotify? then s.main.SawBaton? else s.main.Notified?
    case Notify(_) => if d.ExchangeThenNotify? then s.main.Holding? else s.main.SawBaton?
  }

  function Apply(d: Design, s: State, step: Step): State
    requires Enabled(d, s, step)
  {
    match step
    case Request(b) => s.(engine := Called(b), outstanding := true, issued := s.issued + [b])
    case Test => s.(engine := if s.baton != 0 then Exited else Tested(s.engine.baton))
    case Store => s.(baton := s.engine.baton, engine := Stored(s.engine.baton))
    case Send => s.(socket := s.socket + 1, engine := Idle)
    case PollReturn => s.(main := Readable)
    case Read => s.(socket := s.socket - 1, main := GotByte)
    case TestBaton => s.(main := if s.baton == 0 then NoBaton else SawBaton)
    case Exchange => s.(baton := 0, main := if d.ExchangeThenNotify? then Holding(s.baton) else Polling)
    case Notify(accepts) =>
      var b := if d.ExchangeThenNotify? then s.main.baton else s.baton;
      s.(returned := s.returned + [b],
         outstanding := false,
         main := if !accepts then Rejected else if d.ExchangeThenNotify? then Polling else Notified)
  }

  ghost predicate Runs(d: Design, s: State, steps: seq<Step>, s': State)
    decreases |steps|
  {
    if steps == [] then s' == s
    else Enabled(d, s, steps[0]) && Runs(d, Apply(d, s, steps[0]), steps[1..], s')
  }

  ghost predicate Reachable(d: Design, s: State) {
    exists steps :: Runs(d, Init, steps, s)
  }

  // ---------- the invariant: one baton travels from hand to hand ----------

  /** Main waits in the poll or has been told to leave it. */
  predicate AtRest(m: Main) { m.Polling? || m.Rejected? }

  ghost predicate Inv(s: State) {
    if !s.outstanding then
      && s.engine.Idle? && s.baton == 0 && s.socket == 0 && AtRest(s.main)
      && s.issued == s.returned
    else
      && s.issued != [] && s.issued == s.returned + [s.issued[|s.issued| - 1]]
      && var b := s.issued[|s.issued| - 1];
      && b != 0
      && match s.engine
         case Called(b') => b' == b && s.baton == 0 && s.socket == 0 && AtRest(s.main)
         case Tested(b') => b' == b && s.baton == 0 && s.socket == 0 && AtRest(s.main)
         case Stored(b') => b' == b && s.baton == b && s.socket == 0 && AtRest(s.main)
         case Exited => false
         case Idle =>
           match s.main
           case Polling => s.baton == b && s.socket == 1
           case Rejected => s.baton == b && s.socket == 1
           case Readable => s.baton == b && s.socket == 1
           case GotByte => s.baton == b && s.socket == 0
           case SawBaton => s.baton == b && s.socket == 0
           case Holding(b') => b' == b && s.baton == 0 && s.socket == 0
           case Notified => false
           case NoBaton => false
  }

  lemma InvStep(s: State, step: Step)
    requires Inv(s) && Enabled(ExchangeThenNotify, s, step)
    ensures Inv(Apply(ExchangeThenNotify, s, step))
  {
  }

  lemma {:induction false} InvRuns(s: State, steps: seq<Step>, s': State)
    requires Runs(ExchangeThenNotify, s, steps, s')
    ensures Inv(s) ==> Inv(s')
    decreases |steps|
  {
    if steps != [] && Inv(s) {
      InvStep(s, steps[0]);
      InvRuns(Apply(ExchangeThenNotify, s, steps[0]), steps[1..], s');
    }
  }

  lemma ReachableInv(s: State)
    requires Reachable(ExchangeThenNotify, s)
    ensures Inv(s)
  {
    var steps :| Runs(ExchangeThenNotify, Init, steps, s);
    InvRuns(Init, steps, s);
  }

  /** In every interleaving the socket holds at most one byte, the byte always finds a baton, the
      process never exits over a second baton, and a read never blocks. */
  lemma HandshakeIsSafe(s: State)
    requires Reachable(ExchangeThenNotify, s)
    ensures s.socket <= 1
    ensures !s.main.NoBaton? && !s.engine.Exited?
    ensures s.main.GotByte? || s.main.SawBaton? ==> s.baton != 0
    ensures s.main.Readable? ==> s.socket == 1
    ensures s.main.Holding? ==> s.main.baton != 0
  {
    ReachableInv(s);
  }

  /** Batons are returned once each and in the order they were issued; at most one is out. */
  lemma BatonsReturnInOrder(s: State)
    requires Reachable(ExchangeThenNotify, s)
    ensures s.returned <= s.issued && |s.issued| <= |s.returned| + 1
    ensures !s.outstanding ==> s.returned == s.issued
    ensures 0 !in s.returned
  {
    ReachableInv(s);
    NonZeroRuns(s);
  }

  lemma NonZeroRuns(s: State)
    requires Reachable(ExchangeThenNotify, s)
    ensures 0 !in s.issued
  {
    var steps :| Runs(ExchangeThenNotify, Init, steps, s);
    NonZeroFrom(Init, steps, s);
  }

  lemma {:induction false} NonZeroFrom(s: State, steps: seq<Step>, s': State)
    requires Runs(ExchangeThenNotify, s, steps, s') && 0 !in s.issued
    ensures 0 !in s'.issued
    decreases |steps|
  {
    if steps != [] {
      NonZeroFrom(Apply(ExchangeThenNotify, s, steps[0]), steps[1..], s');
    }
  }

  /** The batons that a run's requests hand in, and the calls that return one. */
  function Requested(steps: seq<Step>): seq<int> {
    if steps == [] then []
    else (if steps[0].Request? then [steps[0].baton] else []) + Requested(steps[1..])
  }

  function Notifications(steps: seq<Step>): nat {
    if steps == [] then 0 else (if steps[0].Notify? then 1 else 0) + Notifications(steps[1..])
  }

  lemma {:induction false} IssuedFrom(d: Design, s: State, steps: seq<Step>, s': State)
    requires Runs(d, s, steps, s')
    ensures s'.issued == s.issued + Requested(steps)
    ensures |s'.returned| == |s.returned| + Notifications(steps)
    decreases |steps|
  {
    if steps != [] {
      IssuedFrom(d, Apply(d, s, steps[0]), steps[1..], s');
    }
  }

  /** In every run the engine gets back, call by call and in their order, the batons it handed in: all but
      at most the last. */
  lemma EngineGetsItsBatons(steps: seq<Step>, s: State)
    requires Runs(ExchangeThenNotify, Init, steps, s)
    ensures s.returned <= Requested(steps) && |Requested(steps)| <= |s.returned| + 1
    ensures |s.returned| == Notifications(steps)
    ensures !s.outstanding <==> s.returned == Requested(steps)
  {
    IssuedFrom(ExchangeThenNotify, Init, steps, s);
    assert [] + Requested(steps) == Requested(steps);
    ReachableInv(s);
  }

  /** The main thread leaves the poll loop exactly when a call of the engine has been rejected. */
  lemma LeavesExactlyWhenRejected(steps: seq<Step>, s: State)
    requires Runs(ExchangeThenNotify, Init, steps, s)
    ensures s.main.Rejected? <==> Notify(false) in steps
  {
    RejectedFrom(Init, steps, s);
  }

  lemma {:induction false} RejectedFrom(s: State, steps: seq<Step>, s': State)
    requires Inv(s) && Runs(ExchangeThenNotify, s, steps, s')
    ensures s'.main.Rejected? <==> s.main.Rejected? || Notify(false) in steps
    decreases |steps|
  {
    if steps != [] {
      InvStep(s, steps[0]);
      RejectedFrom(Apply(ExchangeThenNotify, s, steps[0]), steps[1..], s');
    }
  }

  /** Otherwise, once a baton is back, both threads are where they began and the next can be handed in. */
  lemma ReadyForTheNext(s: State, baton: int)
    requires Reachable(ExchangeThenNotify, s) && !s.outstanding && !s.main.Rejected? && baton != 0
    ensures s.main.Polling? && s.engine.Idle? && s.baton == 0 && s.socket == 0
    ensures Enabled(ExchangeThenNotify, s, Request(baton))
  {
    ReachableInv(s);
  }

  // ---------- every outstanding baton is returned ----------

  /** How many steps a baton that is out has still to go. */
  function Distance(s: State): nat {
    match s.engine
    case Called(_) => 8
    case Tested(_) => 7
    case Stored(_) => 6
    case Exited => 0
    case Idle =>
      match s.main
      case Polling => 5
      case Readable => 4
      case GotByte => 3
      case SawBaton => 2
      case Holding(_) => 1
      case _ => 0
  }

  /** The engine has a baton out and no call of it has been rejected. */
  predicate OnTheWay(s: State) {
    s.outstanding && !s.main.Rejected?
  }

  /** Every step that can be taken while a baton is out brings it one step closer to its return. */
  lemma EveryStepProceeds(s: State, step: Step)
    requires Inv(s) && OnTheWay(s) && Enabled(ExchangeThenNotify, s, step)
    ensures var s' := Apply(ExchangeThenNotify, s, step);
            if Distance(s) == 1 then !s'.outstanding && s'.returned == s.issued
            else OnTheWay(s') && Distance(s') == Distance(s) - 1 && s'.issued == s.issued
  {
  }

  /** And there always is such a step. */
  lemma SomeStepIsEnabled(s: State) returns (step: Step)
    requires Inv(s) && OnTheWay(s)
    ensures Enabled(ExchangeThenNotify, s, step) && Distance(s) > 0
  {
    step := match s.engine
      case Called(_) => Test
      case Tested(_) => Store
      case Stored(_) => Send
      case _ =>
        match s.main
        case Polling => PollReturn
        case Readable => Read
        case GotByte => TestBaton
        case SawBaton => Exchange
        case _ => Notify(true);
  }

  lemma {:induction false} ReturnedAfterDistance(s: State, steps: seq<Step>, s': State)
    requires Inv(s) && OnTheWay(s) && Runs(ExchangeThenNotify, s, steps, s') && |steps| == Distance(s)
    ensures !s'.outstanding && s'.returned == s.issued
    decreases |steps|
  {
    var step := SomeStepIsEnabled(s);
    EveryStepProceeds(s, steps[0]);
    InvStep(s, steps[0]);
    if |steps| > 1 {
      ReturnedAfterDistance(Apply(ExchangeThenNotify, s, steps[0]), steps[1..], s');
    }
  }

  /** Whichever threads run, a baton that is out is back after exactly `Distance` steps, at most eight,
      and until then there is always a step to take. */
  lemma OutstandingIsReturned(s: State, steps: seq<Step>, s': State)
    requires Reachable(ExchangeThenNotify, s) && OnTheWay(s)
    requires Runs(ExchangeThenNotify, s, steps, s') && |steps| == Distance(s)
    ensures 1 <= |steps| <= 8 && !s'.outstanding && s'.returned == s.issued
  {
    ReachableInv(s);
    var step := SomeStepIsEnabled(s);
    ReturnedAfterDistance(s, steps, s');
  }

  lemma OutstandingProceeds(s: State) returns (step: Step)
    requires Reachable(ExchangeThenNotify, s) && OnTheWay(s)
    ensures Enabled(ExchangeThenNotify, s, step)
  {
    ReachableInv(s);
    step := SomeStepIsEnabled(s);
  }

  // ---------- the order of exchange and notification ----------

  lemma {:induction false} RunsAppend(d: Design, s: State, steps: seq<Step>, s': State, step: Step)
    requires Runs(d, s, steps, s') && Enabled(d, s', step)
    ensures Runs(d, s, steps + [step], Apply(d, s', step))
    decreases |steps|
  {
    var more := steps + [step];
    if steps == [] {
      assert more[1..] == [];
    } else {
      assert more[0] == steps[0] && more[1..] == steps[1..] + [step];
      RunsAppend(d, Apply(d, s, steps[0]), steps[1..], s', step);
    }
  }

  lemma ReachStep(d: Design, s: State, step: Step) returns (s': State)
    requires Reachable(d, s) && Enabled(d, s, step)
    ensures s' == Apply(d, s, step) && Reachable(d, s')
  {
    s' := Apply(d, s, step);
    var steps :| Runs(d, Init, steps, s);
    RunsAppend(d, Init, steps, s, step);
  }

  /** If the handler notified the engine before the exchange, the engine's next request could find the
      old baton still there and end the process. */
  lemma NotifyFirstCanExit() returns (s: State)
    ensures Reachable(NotifyThenExchange, s) && s.engine.Exited?
  {
    var d := NotifyThenExchange;
    assert Runs(d, Init, [], Init);
    s := ReachStep(d, Init, Request(1));
    s := ReachStep(d, s, Test);
    s := ReachStep(d, s, Store);
    s := ReachStep(d, s, Send);
    s := ReachStep(d, s, PollReturn);
    s := ReachStep(d, s, Read);
    s := ReachStep(d, s, TestBaton);
    s := ReachStep(d, s, Notify(true));
    s := ReachStep(d, s, Request(2));
    s := ReachStep(d, s, Test);
  }

  /** The exchange must come first. */
  lemma ExitUnreachableExactlyWhenExchangeFirst(d: Design)
    ensures (forall s :: Reachable(d, s) ==> !s.engine.Exited?) <==> d == ExchangeThenNotify
  {
    if d == ExchangeThenNotify {
      forall s | Reachable(d, s) ensures !s.engine.Exited? {
        HandshakeIsSafe(s);
      }
    } else {
      var s := NotifyFirstCanExit();
    }
  }
}
