/** The low-memory watcher of the display: set-up with roll-back, and the handling of an event. */
module MemoryWatchers {
  import opened Options
  import opened TimeEncoding
  import opened CText
  import opened MemoryLevels

  /** The size of the buffer that the usage file is read into. */
  const READ_SIZE := 32

  /** How the kernel answers one call of read: with up to `n` bytes, with EINTR, or with an error. */
  datatype ReadAnswer = Gives(n: nat) | Interrupted | Fails

  /** A line written to cgroup.event_control. */
  datatype Registration = Registration(eventFd: int, memoryFd: int, level: int)

  function Least(a: int, b: int): int { if a <= b then a else b }

  /** What fits the buffer, with its terminating NUL. */
  function Readable(file: string): string {
    file[..Least(READ_SIZE - 1, |file|)]
  }

  /** The bytes a read gives at most: where there are any it does not give none. */
  function Given(a: ReadAnswer): nat {
    if a.Gives? then (if a.n == 0 then 1 else a.n) else 0
  }

  /** Whether an error ends the reads before the kernel has nothing more to give, with `left` bytes
      still to read. */
  predicate ReadFails(left: nat, answers: seq<ReadAnswer>) {
    answers != [] &&
    match answers[0]
    case Fails => true
    case Interrupted => ReadFails(left, answers[1..])
    case Gives(_) => left > 0 && ReadFails(left - Least(Given(answers[0]), left), answers[1..])
  }

  /** The number in the usage file, if it can be read. */
  function UsageOf(file: string, answers: seq<ReadAnswer>): Option<int> {
    if ReadFails(|Readable(file)|, answers) then None else Some(Atol(Readable(file)))
  }

  /** Without errors the reading depends neither on how the file is cut into reads nor on how often they
      are interrupted. */
  lemma {:induction false} ReadsWithoutErrors(left: nat, answers: seq<ReadAnswer>)
    requires Fails !in answers
    ensures !ReadFails(left, answers)
  {
    if answers != [] {
      match answers[0]
      case Interrupted => ReadsWithoutErrors(left, answers[1..]);
      case Gives(_) =>
        if left > 0 {
          ReadsWithoutErrors(left - Least(Given(answers[0]), left), answers[1..]);
        }
      case _ => assert false;
    }
  }

  function GivenBy(answers: seq<ReadAnswer>): nat {
    if answers == [] then 0 else Given(answers[0]) + GivenBy(answers[1..])
  }

  /** The answer at `k` is an error, and no read before it came to the end of the file. */
  ghost predicate FailsAt(left: nat, answers: seq<ReadAnswer>, k: nat) {
    && k < |answers| && answers[k].Fails?
    && forall m: nat :: m < k && answers[m].Gives? ==> GivenBy(answers[..m]) < left
  }

  lemma FailsLater(left: nat, answers: seq<ReadAnswer>, k: nat)
    requires answers != [] && !answers[0].Fails? && (answers[0].Gives? ==> left > 0)
    ensures FailsAt(left, answers, k + 1) <==> FailsAt(left - Least(Given(answers[0]), left), answers[1..], k)
  {
    var rest: nat := left - Least(Given(answers[0]), left);
    if FailsAt(left, answers, k + 1) {
      forall m: nat | m < k && answers[1..][m].Gives? ensures GivenBy(answers[1..][..m]) < rest {
        assert answers[m + 1].Gives? && answers[..m + 1][1..] == answers[1..][..m];
      }
    }
    if FailsAt(rest, answers[1..], k) {
      forall m: nat | m < k + 1 && answers[m].Gives? ensures GivenBy(answers[..m]) < left {
        if m > 0 {
          assert answers[1..][m - 1].Gives? && answers[..m][1..] == answers[1..][..m - 1];
        }
      }
    }
  }

  /** The usage goes unread exactly when an error comes before the end of the file. */
  lemma {:induction false} ReadFailsExactlyWhen(left: nat, answers: seq<ReadAnswer>)
    ensures ReadFails(left, answers) <==> exists k: nat :: FailsAt(left, answers, k)
  {
    if answers != [] {
      if answers[0].Fails? {
        assert FailsAt(left, answers, 0);
      } else if answers[0].Gives? && left == 0 {
        forall k: nat ensures !FailsAt(left, answers, k) {
          assert k > 0 ==> GivenBy(answers[..0]) == 0;
        }
      } else {
        var rest: nat := left - Least(Given(answers[0]), left);
        ReadFailsExactlyWhen(rest, answers[1..]);
        if k: nat :| FailsAt(left, answers, k) {
          FailsLater(left, answers, k - 1);
        }
        if k: nat :| FailsAt(rest, answers[1..], k) {
          FailsLater(left, answers, k);
        }
      }
    }
  }

  /** The size of what is read: the file, but for what the buffer cannot hold. */
  lemma UsageUnreadExactlyWhen(file: string, answers: seq<ReadAnswer>)
    ensures var size := if |file| < READ_SIZE then |file| else READ_SIZE - 1;
            && (UsageOf(file, answers) == None <==> exists k: nat :: FailsAt(size, answers, k))
            && (UsageOf(file, answers).Some? ==> UsageOf(file, answers).value == Atol(file[..size]))
  {
    ReadFailsExactlyWhen(|Readable(file)|, answers);
  }

  /** The usage the kernel reports, as digits and a newline, is what is read. */
  lemma UsageIsRead(usage: Int64, answers: seq<ReadAnswer>)
    requires Fails !in answers
    ensures UsageOf(Render(usage) + "\n", answers) == Some(usage)
  {
    var file := Render(usage) + "\n";
    LongRenderingLength(usage);
    assert Readable(file) == file;
    ReadsWithoutErrors(|file|, answers);
    AtolOfRendering("", usage, "\n");
    assert "" + file == file;
  }

  /** The watermarks before the first token that is not a non-zero number. */
  function Watermarks(tokens: seq<string>): seq<int> {
    if tokens == [] || Atol(tokens[0]) == 0 then [] else [Atol(tokens[0])] + Watermarks(tokens[1..])
  }

  /** Every token names a number other than 0. */
  ghost predicate AllNumbers(tokens: seq<string>) {
    forall t :: t in tokens ==> NamesNumber(t)
  }

  function RegistrationsFor(levels: seq<int>, eventFd: int, memoryFd: int): seq<Registration> {
    seq(|levels|, i requires 0 <= i < |levels| => Registration(eventFd, memoryFd, levels[i]))
  }

  lemma {:induction false} WatermarksOfNumbers(tokens: seq<string>)
    ensures AllNumbers(tokens) <==> |Watermarks(tokens)| == |tokens|
    ensures |Watermarks(tokens)| <= |tokens|
    ensures forall i :: 0 <= i < |Watermarks(tokens)| ==> Watermarks(tokens)[i] == Atol(tokens[i]) != 0
    ensures |Watermarks(tokens)| < |tokens| ==> Atol(tokens[|Watermarks(tokens)|]) == 0
  {
    if tokens != [] {
      NamesNumberExactly(tokens[0]);
      WatermarksOfNumbers(tokens[1..]);
      assert tokens == [tokens[0]] + tokens[1..];
    }
  }

  lemma FirstToken(token: string, tail: seq<string>)
    ensures AllNumbers([token] + tail) <==> Atol(token) != 0 && AllNumbers(tail)
    ensures Watermarks([token] + tail) == if Atol(token) == 0 then [] else [Atol(token)] + Watermarks(tail)
  {
    NamesNumberExactly(token);
  }

  lemma PushLevel(all: seq<int>, done: seq<int>, l: int, rest: seq<int>)
    requires all == done + ([l] + rest)
    ensures all == (done + [l]) + rest
  {
  }

  function Renderings(levels: seq<Int64>): seq<string> {
    seq(|levels|, i requires 0 <= i < |levels| => Render(levels[i]))
  }

  lemma RenderingIsToken(n: int)
    ensures ',' !in Render(n) && Render(n) != ""
  {
  }

  /** A list of non-zero longs, rendered and joined by commas, is read back as it was. */
  lemma WatermarksRoundTrip(levels: seq<Int64>)
    requires levels != [] && forall i :: 0 <= i < |levels| ==> levels[i] != 0
    ensures var text := Join(Renderings(levels));
            && text != "" && AllNumbers(Tokens(text)) && Watermarks(Tokens(text)) == levels
  {
    var ts := Renderings(levels);
    forall t | t in ts ensures ',' !in t && t != "" {
      var i :| 0 <= i < |ts| && ts[i] == t;
      RenderingIsToken(levels[i]);
    }
    TokensOfJoin(ts);
    forall i | 0 <= i < |ts| ensures Atol(ts[i]) == levels[i] {
      AtolOfRendering("", levels[i], "");
      assert "" + (ts[i] + "") == ts[i];
    }
    WatermarksOfNumbers(ts);
    assert AllNumbers(ts);
  }

  lemma TokenFrom(s: string, pos: nat, end: nat)
    requires pos <= end <= |s| && pos < |s|
    requires forall j :: pos <= j < end ==> s[j] != ','
    requires end < |s| ==> s[end] == ','
    ensures Tokens(s[pos..]) == [s[pos..end]] + if end < |s| then Tokens(s[end + 1..]) else []
  {
    var rest, n := s[pos..], end - pos;
    assert rest[..n] == s[pos..end];
    assert end < |s| ==> rest[n] == s[end] && rest[n + 1..] == s[end + 1..];
    FirstTokenAt(rest, n);
  }

  /** std::getline on the rest of `s` from `pos`: a token and where the rest begins. */
  method GetLine(s: string, pos: nat) returns (found: bool, token: string, next: nat)
    requires pos <= |s|
    ensures found <==> pos < |s|
    ensures found ==> pos < next <= |s| && Tokens(s[pos..]) == [token] + Tokens(s[next..])
    ensures !found ==> next == pos
  {
    if pos == |s| {
      return false, "", pos;
    }
    var end := pos;
    while end < |s| && s[end] != ','
      invariant pos <= end <= |s|
      invariant forall j :: pos <= j < end ==> s[j] != ','
    {
      end := end + 1;
    }
    found, token, next := true, s[pos..end], if end < |s| then end + 1 else end;
    TokenFrom(s, pos, end);
  }

  class MemoryWatcher {
    var levels: seq<int>
    var currentLevel: nat
    var lastWarning: UInt64
    var memoryFileFd: int                  // -1 when closed
    var eventFd: int                       // -1 when closed
    var open: set<int>                     // the process's open descriptors
    var registered: seq<Registration>      // lines accepted by cgroup.event_control

    constructor (openFds: set<int>)
      ensures levels == [] && currentLevel == 0 && lastWarning == 0
      ensures memoryFileFd == -1 && eventFd == -1 && open == openFds && registered == []
    {
      levels, currentLevel, lastWarning := [], 0, 0;
      memoryFileFd, eventFd, open, registered := -1, -1, openFds, [];
    }

    ghost function State(): Watcher
      reads this
    {
      Watcher(levels, currentLevel, lastWarning)
    }

    // ---------- events ----------

    /** Reads the usage file from its start until the kernel gives no more. */
    method ReadUsage(file: string, answers: seq<ReadAnswer>) returns (reading: Option<int>)
      ensures reading == UsageOf(file, answers)
      ensures var size := if |file| < READ_SIZE then |file| else READ_SIZE - 1;
              && (reading == None <==> exists k: nat :: FailsAt(size, answers, k))
              && (reading.Some? ==> reading.value == Atol(file[..size]))
    {
      UsageUnreadExactlyWhen(file, answers);
      var memstr := new char[READ_SIZE];
      ghost var size := |Readable(file)|;
      var pos, next, more := 0, 0, true;
      while more
        invariant 0 <= pos <= size && 0 <= next <= |answers|
        invariant forall j :: 0 <= j < pos ==> memstr[j] == file[j]
        invariant if more then ReadFails(size, answers) <==> ReadFails(size - pos, answers[next..])
                  else !ReadFails(size, answers) && pos == size
        decreases more, |answers| - next, size - pos
      {
        var available := Least(READ_SIZE - 1 - pos, |file| - pos);
        var answer := if next < |answers| then answers[next] else Gives(available);
        if next < |answers| {
          assert answers[next..][1..] == answers[next + 1..];
          next := next + 1;
        }
        match answer {
          case Fails => return None;
          case Interrupted =>
          case Gives(_) =>
            var rv := Least(Given(answer), available);
            forall i | 0 <= i < rv {
              memstr[pos + i] := file[pos + i];
            }
            pos := pos + rv;
            more := rv > 0;
        }
      }
      memstr[pos] := '\0';
      assert memstr[..] == Readable(file) + "\0" + memstr[pos + 1..];
      AtolStopsAtNul(Readable(file), memstr[pos + 1..]);
      reading := Some(Atol(memstr[..]));
    }

    /** The loop over the watermarks. */
    method ComputeLevel(mem: int) returns (level: nat)
      ensures level == LevelOf(levels, mem)
    {
      level := 0;
      while level < |levels| && levels[level] <= mem
        invariant level <= |levels|
        invariant LevelOf(levels, mem) == level + LevelOf(levels[level..], mem)
      {
        assert levels[level..][1..] == levels[level + 1..];
        level := level + 1;
      }
    }

    method HandleMemoryWatcherEvent(now: UInt64, file: string, answers: seq<ReadAnswer>, accepts: bool)
      returns (outcome: Outcome)
      modifies this`currentLevel, this`lastWarning
      ensures (State(), outcome) == Handle(old(State()), Event(now, UsageOf(file, answers), accepts))
      ensures Answers(old(State()), Event(now, UsageOf(file, answers), accepts), State(), outcome)
    {
      EventIsAnswered(State(), Event(now, UsageOf(file, answers), accepts));
      if now < ToUInt64(lastWarning + COOLDOWN) {
        return Cooling;
      }
      var usage := ReadUsage(file, answers);
      if usage.None? {
        return Unreadable;
      }
      if usage.value <= 0 {
        return NoUsage;
      }
      var level := ComputeLevel(usage.value);
      outcome := Recorded(level);
      if level > currentLevel {
        if !accepts {
          return Rejected(level);
        }
        lastWarning := now;
        outcome := Warned(level);
      }
      currentLevel := level;
    }

    // ---------- set-up ----------

    /** Both descriptors are open or -1, and differ. */
    ghost predicate Tidy()
      reads this
    {
      && -1 !in open
      && (memoryFileFd != -1 ==> memoryFileFd in open)
      && (eventFd != -1 ==> eventFd in open && eventFd != memoryFileFd)
    }

    /** Closes what is open. */
    method CleanupMemoryWatcher()
      requires Tidy()
      modifies this`memoryFileFd, this`eventFd, this`open
      ensures Tidy() && memoryFileFd == -1 && eventFd == -1
      ensures open == old(open) - {old(memoryFileFd), old(eventFd)}
    {
      if memoryFileFd != -1 {
        open := open - {memoryFileFd};
        memoryFileFd := -1;
      }
      if eventFd != -1 {
        open := open - {eventFd};
        eventFd := -1;
      }
    }

    /** Reads the watermarks, up to the first token that is no non-zero number. */
    method ParseWatermarks(watermarks: string) returns (ok: bool)
      requires levels == []
      modifies this`levels
      ensures levels == Watermarks(Tokens(watermarks))
      ensures ok <==> AllNumbers(Tokens(watermarks))
    {
      var pos := 0;
      ghost var all := Tokens(watermarks);
      ghost var rest := all;
      assert watermarks[0..] == watermarks;
      while true
        invariant pos <= |watermarks| && rest == Tokens(watermarks[pos..])
        invariant Watermarks(all) == levels + Watermarks(rest)
        invariant AllNumbers(all) <==> AllNumbers(rest)
        decreases |watermarks| - pos
      {
        var found, token, next := GetLine(watermarks, pos);
        if !found {
          return true;
        }
        var l := Atol(token);
        ghost var tail := Tokens(watermarks[next..]);
        FirstToken(token, tail);
        if l == 0 {
          return false;
        }
        PushLevel(Watermarks(all), levels, l, Watermarks(tail));
        levels := levels + [l];
        pos, rest := next, tail;
      }
    }

    /** Registers a line per watermark with the kernel, which refuses the line at `refused`. */
    method RegisterLevels(refused: nat) returns (ok: bool)
      modifies this`registered
      ensures ok <==> |levels| <= refused
      ensures registered == old(registered) +
              RegistrationsFor(levels, eventFd, memoryFileFd)[..Least(refused, |levels|)]
      ensures |registered| == |old(registered)| + Least(refused, |levels|) && old(registered) <= registered
      ensures forall k :: 0 <= k < Least(refused, |levels|) ==>
                registered[|old(registered)| + k] == Registration(eventFd, memoryFileFd, levels[k])
    {
      ghost var lines := RegistrationsFor(levels, eventFd, memoryFileFd);
      var i := 0;
      while i < |levels|
        invariant i <= |levels| && i <= refused
        invariant registered == old(registered) + lines[..i]
      {
        if i == refused {
          return false;
        }
        registered := registered + [Registration(eventFd, memoryFileFd, levels[i])];
        i := i + 1;
      }
      ok := true;
    }

    /** What the kernel hands out: -1, or a descriptor that is not in use. */
    ghost predicate Offers(usageFd: int, controlFd: int, newEventFd: int)
      reads this
    {
      && (usageFd != -1 ==> usageFd !in open)
      && (controlFd != -1 ==> controlFd !in open + {usageFd})
      && (newEventFd != -1 ==> newEventFd !in open + {usageFd, controlFd})
    }

    /** Opens the descriptors and registers the watermarks, or leaves every descriptor closed. */
    method AcquireDescriptors(usageFd: int, controlFd: int, newEventFd: int, refused: nat) returns (started: bool)
      requires Tidy() && memoryFileFd == -1 && eventFd == -1
      requires Offers(usageFd, controlFd, newEventFd)
      modifies this`memoryFileFd, this`eventFd, this`open, this`registered
      ensures Tidy()
      ensures started <==> usageFd != -1 && controlFd != -1 && newEventFd != -1 && |levels| <= refused
      ensures started ==>
                && memoryFileFd == usageFd && eventFd == newEventFd && open == old(open) + {usageFd, newEventFd}
                && registered == old(registered) + RegistrationsFor(levels, newEventFd, usageFd)
      ensures !started ==> memoryFileFd == -1 && eventFd == -1 && open == old(open)
      ensures old(registered) <= registered <= old(registered) + RegistrationsFor(levels, newEventFd, usageFd)
    {
      memoryFileFd := usageFd;
      if usageFd == -1 {
        return false;
      }
      open := open + {usageFd};
      if controlFd == -1 {
        CleanupMemoryWatcher();
        return false;
      }
      open := open + {controlFd};
      eventFd := newEventFd;
      started := false;
      if newEventFd != -1 {
        open := open + {newEventFd};
        started := RegisterLevels(refused);
      }
      if !started {
        CleanupMemoryWatcher();
      }
      open := open - {controlFd};
    }

    /** Starts the watcher if it is configured and every step succeeds; otherwise no descriptor is
        left open. */
    method SetupMemoryWatcher(cgroupPath: string, watermarks: string,
                              usageFd: int, controlFd: int, newEventFd: int, refused: nat)
      returns (started: bool)
      requires Tidy() && memoryFileFd == -1 && eventFd == -1 && levels == [] && registered == []
      requires Offers(usageFd, controlFd, newEventFd)
      modifies this
      ensures Tidy() && currentLevel == old(currentLevel) && lastWarning == old(lastWarning)
      ensures started <==>
                && cgroupPath != "" && watermarks != "" && AllNumbers(Tokens(watermarks))
                && usageFd != -1 && controlFd != -1 && newEventFd != -1 && |Tokens(watermarks)| <= refused
      ensures started ==>
                && levels == Watermarks(Tokens(watermarks)) && |levels| == |Tokens(watermarks)| > 0
                && memoryFileFd == usageFd && eventFd == newEventFd && open == old(open) + {usageFd, newEventFd}
                && |registered| == |levels|
                && forall k :: 0 <= k < |levels| ==> registered[k] == Registration(newEventFd, usageFd, levels[k])
      ensures !started ==> memoryFileFd == -1 && eventFd == -1 && open == old(open)
      ensures levels == if cgroupPath == "" || watermarks == "" then [] else Watermarks(Tokens(watermarks))
      ensures registered <= RegistrationsFor(levels, newEventFd, usageFd)
    {
      if cgroupPath == "" || watermarks == "" {
        return false;
      }
      JoinOfTokens(watermarks);
      WatermarksOfNumbers(Tokens(watermarks));
      var ok := ParseWatermarks(watermarks);
      if !ok || |levels| < 1 {
        return false;
      }
      started := AcquireDescriptors(usageFd, controlFd, newEventFd, refused);
    }
  }

  /** A watcher configured from rendered levels watches exactly those levels. */
  lemma ConfiguredLevelsAreWatched(levels: seq<Int64>, mem: int)
    requires levels != [] && forall i :: 0 <= i < |levels| ==> levels[i] != 0
    ensures LevelOf(Watermarks(Tokens(Join(Renderings(levels)))), mem) == LevelOf(levels, mem)
    ensures mem > 0 && Ascending(levels) ==>
              LevelOf(Watermarks(Tokens(Join(Renderings(levels)))), mem) == CountUpTo(levels, mem)
  {
    WatermarksRoundTrip(levels);
    if mem > 0 && Ascending(levels) {
      LevelIsCountWhenAscending(levels, mem);
    }
  }
}
