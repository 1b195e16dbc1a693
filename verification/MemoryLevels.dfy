/** The low-memory watcher as a function of its events, and what holds over any history of them. */
module MemoryLevels {
  import opened Options
  import opened TimeEncoding

  /** The least time between two warnings: 20 seconds. */
  const COOLDOWN := 20_000_000_000

  datatype Watcher = Watcher(levels: seq<int>, currentLevel: nat, lastWarning: UInt64)

  /** One readiness of the cgroup's event descriptor: the clock, the memory usage if the file could be
      read, and whether the engine accepts a warning. */
  datatype Event = Event(now: UInt64, reading: Option<int>, accepts: bool)

  datatype Outcome =
    | Cooling                   // within the cooldown: nothing is read
    | Unreadable
    | NoUsage                   // the number read is not positive
    | Recorded(level: nat)      // level recorded without a warning
    | Warned(level: nat)        // level recorded with a warning
    | Rejected(level: nat)      // the engine did not accept the warning

  /** The number of leading watermarks that do not exceed `mem`. */
  function LevelOf(levels: seq<int>, mem: int): nat {
    if levels == [] || levels[0] > mem then 0 else 1 + LevelOf(levels[1..], mem)
  }

  /** HandleMemoryWatcherEvent. */
  function Handle(w: Watcher, e: Event): (Watcher, Outcome) {
    if e.now < ToUInt64(w.lastWarning + COOLDOWN) then (w, Cooling)
    else if e.reading.None? then (w, Unreadable)
    else if e.reading.value <= 0 then (w, NoUsage)
    else
      var level := LevelOf(w.levels, e.reading.value);
      if level <= w.currentLevel then (w.(currentLevel := level), Recorded(level))
      else if !e.accepts then (w, Rejected(level))
      else (w.(currentLevel := level, lastWarning := e.now), Warned(level))
  }

  // ---------- levels ----------

  /** `n` is the length of the longest prefix of watermarks that do not exceed `mem`. */
  predicate IsLevel(n: nat, levels: seq<int>, mem: int) {
    && n <= |levels|
    && (forall i :: 0 <= i < n ==> levels[i] <= mem)
    && (n < |levels| ==> levels[n] > mem)
  }

  lemma {:induction false} LevelIsLongestPrefix(levels: seq<int>, mem: int)
    ensures IsLevel(LevelOf(levels, mem), levels, mem)
  {
    if levels != [] && levels[0] <= mem {
      LevelIsLongestPrefix(levels[1..], mem);
      assert forall i :: 0 < i < |levels| ==> levels[i] == levels[1..][i - 1];
    }
  }

  lemma LevelIsMonotone(levels: seq<int>, low: int, high: int)
    requires low <= high
    ensures LevelOf(levels, low) <= LevelOf(levels, high)
  {
  }

  /** The number of watermarks that do not exceed `mem`, wherever they stand. */
  function CountUpTo(levels: seq<int>, mem: int): nat {
    if levels == [] then 0 else (if levels[0] <= mem then 1 else 0) + CountUpTo(levels[1..], mem)
  }

  /** In the order that readings, which are positive, can tell. */
  ghost predicate Ascending(levels: seq<int>) {
    forall i, j :: 0 <= i < j < |levels| ==> levels[i] <= levels[j] || levels[i] <= 1
  }

  lemma {:induction false} CountIsAtLeastLevel(levels: seq<int>, mem: int)
    ensures LevelOf(levels, mem) <= CountUpTo(levels, mem)
  {
    if levels != [] && levels[0] <= mem {
      CountIsAtLeastLevel(levels[1..], mem);
    }
  }

  lemma {:induction false} CountOfNone(levels: seq<int>, mem: int)
    ensures CountUpTo(levels, mem) == 0 <==> forall i :: 0 <= i < |levels| ==> levels[i] > mem
  {
    if levels != [] {
      CountOfNone(levels[1..], mem);
      assert forall i :: 0 < i < |levels| ==> levels[i] == levels[1..][i - 1];
    }
  }

  lemma {:induction false} LevelIsCountWhenAscending(levels: seq<int>, mem: int)
    requires Ascending(levels) && mem > 0
    ensures LevelOf(levels, mem) == CountUpTo(levels, mem)
  {
    if levels != [] {
      if levels[0] <= mem {
        LevelIsCountWhenAscending(levels[1..], mem);
      } else {
        CountOfNone(levels, mem);
      }
    }
  }

  lemma {:induction false} LevelMissesDescent(levels: seq<int>, i: nat, j: nat, mem: int)
    requires i < j < |levels| && levels[j] <= mem < levels[i]
    ensures LevelOf(levels, mem) < CountUpTo(levels, mem)
  {
    if i == 0 {
      CountOfNone(levels, mem);
    } else if levels[0] <= mem {
      LevelMissesDescent(levels[1..], i - 1, j - 1, mem);
    } else {
      CountOfNone(levels, mem);
    }
  }

  /** The code never sorts the watermarks. Its level counts those that do not exceed the usage, for
      every usage, exactly when they were configured in ascending order. */
  lemma LevelIsCountExactlyWhenAscending(levels: seq<int>)
    ensures (forall mem :: mem > 0 ==> LevelOf(levels, mem) == CountUpTo(levels, mem)) <==> Ascending(levels)
  {
    if Ascending(levels) {
      forall mem | mem > 0 ensures LevelOf(levels, mem) == CountUpTo(levels, mem) {
        LevelIsCountWhenAscending(levels, mem);
      }
    } else {
      var i, j :| 0 <= i < j < |levels| && levels[i] > levels[j] && levels[i] > 1;
      var mem := if levels[j] > 0 then levels[j] else 1;
      LevelMissesDescent(levels, i, j, mem);
    }
  }

  // ---------- one event ----------

  /** What an event leads to. Within the cooldown, or without a positive reading, to nothing; otherwise
      the level of the reading is recorded, with a warning if it has risen. A warning that the engine does
      not accept records nothing. */
  ghost predicate Answers(w: Watcher, e: Event, w': Watcher, o: Outcome) {
    && w'.levels == w.levels
    && if e.now < ToUInt64(w.lastWarning + COOLDOWN) then o == Cooling && w' == w
       else if e.reading == None then o == Unreadable && w' == w
       else if e.reading.value <= 0 then o == NoUsage && w' == w
       else
         && (o.Recorded? || o.Warned? || o.Rejected?)
         && IsLevel(o.level, w.levels, e.reading.value)
         && (o.Recorded? <==> o.level <= w.currentLevel)
         && (o.Rejected? <==> o.level > w.currentLevel && !e.accepts)
         && w'.currentLevel == (if o.Rejected? then w.currentLevel else o.level)
         && w'.lastWarning == (if o.Warned? then e.now else w.lastWarning)
  }

  lemma EventIsAnswered(w: Watcher, e: Event)
    ensures Answers(w, e, Handle(w, e).0, Handle(w, e).1)
  {
    if e.reading.Some? {
      LevelIsLongestPrefix(w.levels, e.reading.value);
    }
  }

  lemma AnswerIsUnique(w: Watcher, e: Event, a: Watcher, b: Watcher, oa: Outcome, ob: Outcome)
    requires Answers(w, e, a, oa) && Answers(w, e, b, ob)
    ensures a == b && oa == ob
  {
    if oa.Recorded? || oa.Warned? || oa.Rejected? {
      OneLevel(oa.level, ob.level, w.levels, e.reading.value);
    }
  }

  lemma OneLevel(m: nat, n: nat, levels: seq<int>, mem: int)
    requires IsLevel(m, levels, mem) && IsLevel(n, levels, mem)
    ensures m == n
  {
  }

  // ---------- histories ----------

  /** The state before the event at position `i`, starting from `w`. */
  function Before(w: Watcher, events: seq<Event>, i: nat): Watcher
    requires i <= |events|
  {
    if i == 0 then w else Handle(Before(w, events, i - 1), events[i - 1]).0
  }

  function OutcomeAt(w: Watcher, events: seq<Event>, i: nat): Outcome
    requires i < |events|
  {
    Handle(Before(w, events, i), events[i]).1
  }

  /** The watermarks stay, and the level stays within their number. */
  lemma {:induction false} LevelStaysInRange(w: Watcher, events: seq<Event>, i: nat)
    requires i <= |events| && w.currentLevel <= |w.levels|
    ensures Before(w, events, i).currentLevel <= |w.levels| && Before(w, events, i).levels == w.levels
  {
    if i > 0 {
      LevelStaysInRange(w, events, i - 1);
      var e := events[i - 1];
      if e.reading.Some? {
        LevelIsLongestPrefix(w.levels, e.reading.value);
      }
    }
  }

  /** A level below `bound` is reached from one that is not only by recording it. */
  lemma {:induction false} DropIsRecorded(w: Watcher, events: seq<Event>, i: nat, j: nat, bound: nat) returns (k: nat)
    requires i <= j <= |events|
    requires Before(w, events, i).currentLevel >= bound > Before(w, events, j).currentLevel
    ensures i <= k < j && OutcomeAt(w, events, k).Recorded? && OutcomeAt(w, events, k).level < bound
  {
    if Before(w, events, j - 1).currentLevel >= bound {
      k := j - 1;
    } else {
      k := DropIsRecorded(w, events, i, j - 1, bound);
    }
  }

  /** Warnings are edge-triggered: between two warnings of which the second is at no higher a level,
      some reading lay below a watermark that the readings of both warnings had reached. */
  lemma WarningsAreEdgeTriggered(w: Watcher, events: seq<Event>, i: nat, j: nat) returns (k: nat, m: nat)
    requires i < j < |events|
    requires OutcomeAt(w, events, i).Warned? && OutcomeAt(w, events, j).Warned?
    requires OutcomeAt(w, events, j).level <= OutcomeAt(w, events, i).level
    ensures i < k < j && OutcomeAt(w, events, k).Recorded? && m < OutcomeAt(w, events, j).level <= |w.levels|
    ensures events[i].reading.Some? && events[j].reading.Some? && events[k].reading.Some?
    ensures events[k].reading.value < w.levels[m] <= events[i].reading.value
    ensures w.levels[m] <= events[j].reading.value
  {
    assert Before(w, events, i + 1).currentLevel == OutcomeAt(w, events, i).level;
    k := DropIsRecorded(w, events, i + 1, j, OutcomeAt(w, events, j).level);
    LevelsStay(w, events, i);
    LevelsStay(w, events, j);
    LevelsStay(w, events, k);
    EventIsAnswered(Before(w, events, i), events[i]);
    EventIsAnswered(Before(w, events, j), events[j]);
    EventIsAnswered(Before(w, events, k), events[k]);
    m := OutcomeAt(w, events, k).level;
  }

  lemma {:induction false} LevelsStay(w: Watcher, events: seq<Event>, i: nat)
    requires i <= |events|
    ensures Before(w, events, i).levels == w.levels
  {
    if i > 0 {
      LevelsStay(w, events, i - 1);
    }
  }

  /** Nothing but a recorded level or a warning changes the watcher. */
  lemma OnlyRecordsChange(w: Watcher, e: Event)
    ensures !Handle(w, e).1.Recorded? && !Handle(w, e).1.Warned? ==> Handle(w, e).0 == w
    ensures Handle(w, e).1.Recorded? ==> Handle(w, e).0 == w.(currentLevel := Handle(w, e).1.level)
    ensures Handle(w, e).1.Warned? ==>
              Handle(w, e).0 == w.(currentLevel := Handle(w, e).1.level, lastWarning := e.now)
    ensures Handle(w, e).1.Warned? <==>
              && e.now >= ToUInt64(w.lastWarning + COOLDOWN)
              && e.reading.Some? && e.reading.value > 0 && e.accepts
              && LevelOf(w.levels, e.reading.value) > w.currentLevel
  {
  }

  /** The clock stays a cooldown below its 64 bits. */
  ghost predicate ClockFits(w: Watcher, events: seq<Event>) {
    && w.lastWarning + COOLDOWN < TWO_64
    && forall i :: 0 <= i < |events| ==> events[i].now + COOLDOWN < TWO_64
  }

  /** The number of warnings among the events from position `i` up to `j`. */
  function Warnings(w: Watcher, events: seq<Event>, i: nat, j: nat): nat
    requires i <= j <= |events|
  {
    if i == j then 0
    else Warnings(w, events, i, j - 1) + if OutcomeAt(w, events, j - 1).Warned? then 1 else 0
  }

  lemma OneEventAddsUp(w: Watcher, e: Event)
    requires w.lastWarning + COOLDOWN < TWO_64 && e.now + COOLDOWN < TWO_64
    ensures var (w', outcome) := Handle(w, e);
            && w'.lastWarning + COOLDOWN < TWO_64
            && w'.lastWarning >= w.lastWarning + if outcome.Warned? then COOLDOWN else 0
  {
  }

  lemma {:induction false} TimesFit(w: Watcher, events: seq<Event>, i: nat)
    requires i <= |events| && ClockFits(w, events)
    ensures Before(w, events, i).lastWarning + COOLDOWN < TWO_64
  {
    if i > 0 {
      TimesFit(w, events, i - 1);
      OneEventAddsUp(Before(w, events, i - 1), events[i - 1]);
    }
  }

  lemma LastEventAddsUp(w: Watcher, events: seq<Event>, i: nat, j: nat)
    requires i < j <= |events| && ClockFits(w, events)
    ensures var more := Warnings(w, events, i, j) - Warnings(w, events, i, j - 1);
            && 0 <= more <= 1
            && Before(w, events, j).lastWarning >=
               Before(w, events, j - 1).lastWarning + if more == 1 then COOLDOWN else 0
  {
    TimesFit(w, events, j - 1);
    OneEventAddsUp(Before(w, events, j - 1), events[j - 1]);
  }

  /** The time of the last warning grows by at least a cooldown with each warning. */
  lemma {:induction false} CooldownsAddUp(w: Watcher, events: seq<Event>, i: nat, j: nat)
    requires i <= j <= |events| && ClockFits(w, events)
    ensures Before(w, events, j).lastWarning >=
            Before(w, events, i).lastWarning + COOLDOWN * Warnings(w, events, i, j)
  {
    if i < j {
      CooldownsAddUp(w, events, i, j - 1);
      LastEventAddsUp(w, events, i, j);
    }
  }

  /** Successive warnings are at least 20 seconds apart. */
  lemma WarningsAreApart(w: Watcher, events: seq<Event>, i: nat, j: nat)
    requires i < j < |events| && ClockFits(w, events)
    requires OutcomeAt(w, events, i).Warned? && OutcomeAt(w, events, j).Warned?
    ensures events[j].now >= events[i].now + COOLDOWN
  {
    LastWarningSince(w, events, i, j);
    TimesFit(w, events, j);
    OnlyRecordsChange(Before(w, events, j), events[j]);
  }

  lemma LastWarningSince(w: Watcher, events: seq<Event>, i: nat, j: nat)
    requires i < j <= |events| && ClockFits(w, events) && OutcomeAt(w, events, i).Warned?
    ensures Before(w, events, j).lastWarning >= events[i].now
  {
    CooldownsAddUp(w, events, i + 1, j);
    OnlyRecordsChange(Before(w, events, i), events[i]);
    var since: nat := Warnings(w, events, i + 1, j);
    assert COOLDOWN * since >= 0;
  }

  /** The time of the last warning is that of an event, if there was one at all. */
  lemma {:induction false} LastWarningIsDated(w: Watcher, events: seq<Event>, i: nat, j: nat, end: UInt64)
    requires i <= j <= |events| && Warnings(w, events, i, j) > 0
    requires forall k :: i <= k < j ==> events[k].now <= end
    ensures Before(w, events, j).lastWarning <= end
  {
    if !OutcomeAt(w, events, j - 1).Warned? {
      LastWarningIsDated(w, events, i, j - 1, end);
    }
  }

  /** The first warning of a stretch is dated by its event. */
  lemma {:induction false} FirstWarning(w: Watcher, events: seq<Event>, i: nat, j: nat) returns (k: nat)
    requires i <= j <= |events| && Warnings(w, events, i, j) > 0
    ensures i <= k < j && OutcomeAt(w, events, k).Warned? && Warnings(w, events, i, k + 1) == 1
    ensures Warnings(w, events, i, j) == 1 + Warnings(w, events, k + 1, j)
  {
    if Warnings(w, events, i, j - 1) > 0 {
      k := FirstWarning(w, events, i, j - 1);
    } else {
      k := j - 1;
    }
  }

  /** The rate bound: a stretch of events over a time T holds at most 1 + T / 20 s warnings, for every
      sequence of events, readings and rejected notifications. */
  lemma WarningRateIsBounded(w: Watcher, events: seq<Event>, i: nat, j: nat, start: UInt64, end: UInt64)
    requires i <= j <= |events| && ClockFits(w, events) && start <= end
    requires forall k :: i <= k < j ==> start <= events[k].now <= end
    ensures Warnings(w, events, i, j) <= 1 + (end - start) / COOLDOWN
  {
    if Warnings(w, events, i, j) > 0 {
      var k := FirstWarning(w, events, i, j);
      CooldownsAddUp(w, events, k + 1, j);
      LastWarningIsDated(w, events, i, j, end);
      assert Before(w, events, k + 1).lastWarning == events[k].now;
      var n := Warnings(w, events, k + 1, j);
      assert COOLDOWN * n <= end - start;
      assert (COOLDOWN * n) / COOLDOWN == n;
    }
  }
}
