/** Keys, key repetition and lock keys: the handling of keyboard events, the kernel's repeat timer and
    the tick in the poll loop. */
module KeyRepeat {
  import opened TimeEncoding

  const RELEASED: UInt32 := 0
  const PRESSED: UInt32 := 1
  const NO_KEYMAP: UInt32 := 0
  const NO_SYMBOL: UInt32 := 0
  const NUM_LOCK: UInt32 := 0xff7f
  const CAPS_LOCK: UInt32 := 0xffe5
  const SHIFT_LOCK: UInt32 := 0xffe6

  datatype Modifier = Lock | Mod2 | Other(bit: nat)

  /** What the keyboard library says about a key code: its symbol, the effective modifiers, and
      whether the key repeats. */
  datatype Lookup = Lookup(keysym: UInt32, mods: set<Modifier>, repeats: bool)

  /** A key message sent to the engine. */
  datatype Message = Message(down: bool, scanCode: UInt32, keysym: UInt32, modifiers: set<Modifier>, isRepeat: bool)

  /** The kernel's timer: the value and the interval it was set to, whether it will expire, and whether it
      has expired since it was last set or read. */
  datatype Timer = Timer(value: Timespec, interval: Timespec, armed: bool, expired: bool) {
    predicate Periodic() { interval != Timespec(0, 0) }
  }

  const NeverSet := Timer(Timespec(0, 0), Timespec(0, 0), false, false)

  datatype Keyboard = Keyboard(
    format: UInt32,               // the keymap format; NO_KEYMAP before the first keymap
    repeatDelayMs: Int32,
    repeatIntervalMs: Int32,
    last: UInt32,
    state: UInt32,
    numLock: bool,
    capsLock: bool,
    shiftLock: bool,
    timer: Timer,
    polled: bool,                 // the poll has reported the timer readable
    messages: seq<Message>)

  const Init := Keyboard(NO_KEYMAP, 400, 40, 0, RELEASED, false, false, false, NeverSet, false, [])

  /** timerfd_settime, which also forgets an expiry that was not read. */
  function SetTimer(delayMs: Int32, intervalMs: Int32): Timer {
    Timer(FromMsec(delayMs), FromMsec(intervalMs), FromMsec(delayMs) != Timespec(0, 0), false)
  }

  /** The timer is started for a key that is to be repeated, and stopped otherwise. */
  function RepeatTimer(k: Keyboard, repeats: bool): Timer {
    if repeats then SetTimer(k.repeatDelayMs, k.repeatIntervalMs) else SetTimer(0, 0)
  }

  function ScanCode(key: UInt32, format: UInt32): UInt32 {
    (key + format * 8) % TWO_32
  }

  function WithLocks(k: Keyboard, mods: set<Modifier>): set<Modifier> {
    mods - {Lock, Mod2}
    + (if k.shiftLock || k.capsLock then {Lock} else {})
    + (if k.numLock then {Mod2} else {})
  }

  function TrackLocks(k: Keyboard, keysym: UInt32, down: bool): Keyboard {
    if keysym == NUM_LOCK then k.(numLock := down)
    else if keysym == CAPS_LOCK then k.(capsLock := down)
    else if keysym == SHIFT_LOCK then k.(shiftLock := down)
    else k
  }

  /** key_handler: sends a message unless there is no keymap or no symbol; the result says whether the
      key is to be repeated. */
  function HandleKey(k: Keyboard, key: UInt32, state: UInt32, lookup: Lookup, isRepeat: bool): (Keyboard, bool) {
    if k.format == NO_KEYMAP || lookup.keysym == NO_SYMBOL then (k, false)
    else
      var down := state == PRESSED;
      var k' := TrackLocks(k, lookup.keysym, down);
      var m := Message(down, ScanCode(key, k.format), lookup.keysym, WithLocks(k', lookup.mods), isRepeat);
      (k'.(messages := k.messages + [m]), lookup.repeats && down)
  }

  datatype Event =
    | Key(key: UInt32, state: UInt32, lookup: Lookup)
    | RepeatInfo(rate: Int32, delay: Int32)
    | KeymapChanged(format: UInt32)
    | Expire                          // the kernel's timer runs out
    | Poll                            // the poll reports the timer readable
    | Tick(lookup: Lookup)            // the main thread reads the timer and repeats the key

  /** After a poll that reported the timer, the main thread reads it before it dispatches anything. */
  predicate Enabled(k: Keyboard, e: Event) {
    match e
    case Key(_, _, _) => !k.polled
    case RepeatInfo(_, _) => !k.polled
    case KeymapChanged(_) => !k.polled
    case Expire => k.timer.armed
    case Poll => !k.polled && k.timer.expired
    case Tick(_) => k.polled
  }

  function OnKey(k: Keyboard, key: UInt32, state: UInt32, lookup: Lookup): Keyboard {
    var (k', accepted) := HandleKey(k.(last := key, state := state), key, state, lookup, false);
    k'.(timer := RepeatTimer(k', accepted))
  }

  function OnRepeatInfo(k: Keyboard, rate: Int32, delay: Int32): Keyboard {
    k.(repeatIntervalMs := if rate > 0 then 1_000 / rate else k.repeatIntervalMs,
       repeatDelayMs := if delay > 0 then delay else k.repeatDelayMs)
  }

  function OnTick(k: Keyboard, lookup: Lookup): Keyboard {
    HandleKey(k.(polled := false, timer := k.timer.(expired := false)), k.last, k.state, lookup, true).0
  }

  function Apply(k: Keyboard, e: Event): Keyboard
    requires Enabled(k, e)
  {
    match e
    case Key(key, state, lookup) => OnKey(k, key, state, lookup)
    case RepeatInfo(rate, delay) => OnRepeatInfo(k, rate, delay)
    case KeymapChanged(format) => k.(format := format)
    case Expire => k.(timer := k.timer.(expired := true, armed := k.timer.Periodic()))
    case Poll => k.(polled := true)
    case Tick(lookup) => OnTick(k, lookup)
  }

  /** Every event of the history can happen where it stands. */
  predicate Possible(events: seq<Event>)
    decreases |events|, 0
  {
    events != [] ==>
      var n := |events| - 1;
      Possible(events[..n]) && Enabled(After(events[..n]), events[n])
  }

  /** The keyboard after a history. */
  function After(events: seq<Event>): Keyboard
    requires Possible(events)
    decreases |events|, 1
  {
    if events == [] then Init
    else var n := |events| - 1; Apply(After(events[..n]), events[n])
  }

  // ---------- what holds after every history ----------

  /** `j` is the position of the last key event. */
  predicate IsLastKey(events: seq<Event>, j: nat) {
    j < |events| && events[j].Key? && forall i :: j < i < |events| ==> !events[i].Key?
  }

  /** The key event at `j` was a press that the handler accepted for repetition. */
  predicate AcceptedAt(events: seq<Event>, j: nat)
    requires j < |events| && Possible(events[..j]) && events[j].Key?
  {
    Accepts(After(events[..j]), events[j].state, events[j].lookup)
  }

  predicate Live(t: Timer) { t.armed || t.expired }

  /** The delay is positive, and a timer that was reported readable has not been read. */
  predicate Sound(k: Keyboard) {
    k.repeatDelayMs > 0 && k.repeatIntervalMs >= 0 && (k.polled ==> k.timer.expired)
  }

  lemma IntervalOfRate(rate: Int32)
    requires rate > 0
    ensures 0 <= 1_000 / rate <= 1_000
    ensures 1_000 / rate == 0 <==> rate > 1_000
  {
  }

  /** Handling a key leaves the repeat settings and the timer alone. */
  lemma HandleKeyFrame(k: Keyboard, key: UInt32, state: UInt32, lookup: Lookup, isRepeat: bool)
    ensures var (k', accepted) := HandleKey(k, key, state, lookup, isRepeat);
            && k'.format == k.format && k'.repeatDelayMs == k.repeatDelayMs
            && k'.repeatIntervalMs == k.repeatIntervalMs
            && k'.last == k.last && k'.state == k.state && k'.timer == k.timer && k'.polled == k.polled
            && (accepted <==> Accepts(k, state, lookup))
  {
  }

  /** A press that the handler accepts for repetition. */
  predicate Accepts(k: Keyboard, state: UInt32, lookup: Lookup) {
    state == PRESSED && lookup.repeats && lookup.keysym != NO_SYMBOL && k.format != NO_KEYMAP
  }

  lemma SoundStep(k: Keyboard, e: Event)
    requires Sound(k) && Enabled(k, e)
    ensures Sound(Apply(k, e))
  {
    match e
    case Key(key, state, lookup) =>
      HandleKeyFrame(k.(last := key, state := state), key, state, lookup, false);
    case RepeatInfo(rate, delay) =>
      if rate > 0 {
        IntervalOfRate(rate);
      }
    case Tick(lookup) =>
      HandleKeyFrame(k.(polled := false, timer := k.timer.(expired := false)), k.last, k.state, lookup, true);
    case _ =>
  }

  lemma {:induction false} AlwaysSound(events: seq<Event>)
    requires Possible(events)
    ensures Sound(After(events))
  {
    if events != [] {
      var n := |events| - 1;
      AlwaysSound(events[..n]);
      SoundStep(After(events[..n]), events[n]);
    }
  }

  /** The timer was last set to a delay and an interval in milliseconds. */
  predicate SetTo(t: Timer, delayMs: int, intervalMs: int) {
    && t.value.Nanos() == delayMs * 1_000_000 && t.interval.Nanos() == intervalMs * 1_000_000
    && (t.Periodic() <==> intervalMs != 0)
  }

  /** It has not run since. */
  predicate JustSet(t: Timer, delayMs: int, intervalMs: int) {
    SetTo(t, delayMs, intervalMs) && (t.armed <==> delayMs != 0) && !t.expired
  }

  lemma SettingTheTimer(delayMs: Int32, intervalMs: Int32)
    ensures JustSet(SetTimer(delayMs, intervalMs), delayMs, intervalMs)
  {
    MsecZero(delayMs);
    MsecZero(intervalMs);
  }

  lemma KeySetsTimer(k: Keyboard, key: UInt32, state: UInt32, lookup: Lookup)
    requires Sound(k)
    ensures var k' := OnKey(k, key, state, lookup);
            && k'.last == key && k'.state == state
            && if Accepts(k, state, lookup) then JustSet(k'.timer, k.repeatDelayMs, k.repeatIntervalMs)
               else JustSet(k'.timer, 0, 0)
  {
    HandleKeyFrame(k.(last := key, state := state), key, state, lookup, false);
    SettingTheTimer(k.repeatDelayMs, k.repeatIntervalMs);
    SettingTheTimer(0, 0);
  }

  /** Only a key event brings the timer to life or changes the key it repeats. */
  lemma OnlyKeysEnliven(k: Keyboard, e: Event)
    requires Enabled(k, e) && !e.Key?
    ensures Live(Apply(k, e).timer) ==> Live(k.timer)
    ensures Apply(k, e).last == k.last && Apply(k, e).state == k.state
  {
  }

  /** A timer that is armed, or has expired unread, belongs to the last key event, and that was a
      press accepted for repetition. */
  lemma {:induction false} LiveTimerFollowsPress(events: seq<Event>) returns (j: nat)
    requires Possible(events) && Live(After(events).timer)
    ensures IsLastKey(events, j) && Possible(events[..j]) && AcceptedAt(events, j)
    ensures After(events).last == events[j].key && After(events).state == PRESSED
  {
    var n := |events| - 1;
    var init := events[..n];
    if events[n].Key? {
      KeyAtEndIsAccepted(events);
      j := n;
    } else {
      NoKeyAtEnd(events);
      j := LiveTimerFollowsPress(init);
      LastKeyOfPrefix(events, j);
    }
  }

  lemma NoKeyAtEnd(events: seq<Event>)
    requires Possible(events) && events != [] && !events[|events| - 1].Key?
    requires Live(After(events).timer)
    ensures var init := events[..|events| - 1];
            && Possible(init) && Live(After(init).timer)
            && After(init).last == After(events).last && After(init).state == After(events).state
  {
    OnlyKeysEnliven(After(events[..|events| - 1]), events[|events| - 1]);
  }

  lemma LastKeyOfPrefix(events: seq<Event>, j: nat)
    requires events != [] && !events[|events| - 1].Key? && IsLastKey(events[..|events| - 1], j)
    ensures IsLastKey(events, j) && events[..|events| - 1][..j] == events[..j]
  {
  }

  lemma KeyAtEndIsAccepted(events: seq<Event>)
    requires Possible(events) && events != [] && events[|events| - 1].Key?
    requires Live(After(events).timer)
    ensures AcceptedAt(events, |events| - 1)
    ensures After(events).last == events[|events| - 1].key && After(events).state == PRESSED
  {
    var n := |events| - 1;
    var e := events[n];
    AlwaysSound(events[..n]);
    KeySetsTimer(After(events[..n]), e.key, e.state, e.lookup);
  }

  /** A tick repeats the last key event, which was an accepted press: it sends a keydown for that key or
      nothing, and the read of the timer does not block. */
  lemma TickRepeatsLastPress(events: seq<Event>, lookup: Lookup) returns (j: nat)
    requires Possible(events) && Enabled(After(events), Tick(lookup))
    ensures After(events).timer.expired
    ensures IsLastKey(events, j) && Possible(events[..j]) && AcceptedAt(events, j)
    ensures var k, k' := After(events), Apply(After(events), Tick(lookup));
            if k.format == NO_KEYMAP || lookup.keysym == NO_SYMBOL then k'.messages == k.messages
            else && |k'.messages| == |k.messages| + 1 && k.messages <= k'.messages
                 && Tells(k'.messages[|k.messages|], k.format, events[j].key, PRESSED, lookup, true)
  {
    AlwaysSound(events);
    j := LiveTimerFollowsPress(events);
    var k := After(events);
    HandleKeyHandles(k.(polled := false, timer := k.timer.(expired := false)), k.last, k.state, lookup, true);
  }

  /** After a release, or a press that is not to be repeated, no tick comes before the next key event,
      whatever expired before it. */
  lemma NoTickAfterRelease(events: seq<Event>, j: nat, lookup: Lookup)
    requires Possible(events) && IsLastKey(events, j) && Possible(events[..j]) && !AcceptedAt(events, j)
    ensures !Enabled(After(events), Tick(lookup)) && !Enabled(After(events), Expire)
  {
    AlwaysSound(events);
    NotLiveAfterRelease(events, j);
    DeadTimer(After(events), lookup);
  }

  lemma DeadTimer(k: Keyboard, lookup: Lookup)
    requires Sound(k) && !Live(k.timer)
    ensures !Enabled(k, Tick(lookup)) && !Enabled(k, Expire)
  {
  }

  lemma NotLiveAfterRelease(events: seq<Event>, j: nat)
    requires Possible(events) && IsLastKey(events, j) && Possible(events[..j]) && !AcceptedAt(events, j)
    ensures !Live(After(events).timer)
  {
    if Live(After(events).timer) {
      LiveTimerWasAccepted(events, j);
    }
  }

  lemma LiveTimerWasAccepted(events: seq<Event>, j: nat)
    requires Possible(events) && IsLastKey(events, j) && Live(After(events).timer)
    ensures Possible(events[..j]) && AcceptedAt(events, j)
  {
    var i := LiveTimerFollowsPress(events);
    OneLastKey(events, i, j);
  }

  lemma OneLastKey(events: seq<Event>, i: nat, j: nat)
    requires IsLastKey(events, i) && IsLastKey(events, j)
    ensures i == j
  {
  }

  lemma Extend(events: seq<Event>, e: Event)
    requires Possible(events) && Enabled(After(events), e)
    ensures Possible(events + [e]) && After(events + [e]) == Apply(After(events), e)
  {
    assert (events + [e])[..|events|] == events;
  }

  /** A key that is held does repeat: after an accepted press the timer runs out, is polled, and its tick
      sends a keydown. */
  lemma HeldKeyRepeats(events: seq<Event>, key: UInt32, lookup: Lookup) returns (later: seq<Event>)
    requires Possible(events) && !After(events).polled && Accepts(After(events), PRESSED, lookup)
    ensures later == events + [Key(key, PRESSED, lookup)] + [Expire] + [Poll]
    ensures Possible(later) && Enabled(After(later), Tick(lookup))
    ensures var ms := Apply(After(later), Tick(lookup)).messages;
            && |ms| == |After(events).messages| + 2
            && ms[|ms| - 1].isRepeat && ms[|ms| - 1].down
  {
    var press := Key(key, PRESSED, lookup);
    AlwaysSound(events);
    Extend(events, press);
    PressIsRepeated(After(events), key, lookup, After(events + [press]));
    Extend(events + [press], Expire);
    Extend(events + [press] + [Expire], Poll);
    later := events + [press] + [Expire] + [Poll];
  }

  lemma PressIsRepeated(k: Keyboard, key: UInt32, lookup: Lookup, held: Keyboard)
    requires Sound(k) && !k.polled && Accepts(k, PRESSED, lookup)
    requires held == Apply(k, Key(key, PRESSED, lookup))
    ensures Enabled(held, Expire) && Enabled(Apply(held, Expire), Poll)
    ensures var polled := Apply(Apply(held, Expire), Poll);
            && Enabled(polled, Tick(lookup))
            && var ms := Apply(polled, Tick(lookup)).messages;
            && |ms| == |k.messages| + 2 && ms[|ms| - 1].isRepeat && ms[|ms| - 1].down
  {
    KeySetsTimer(k, key, PRESSED, lookup);
    PressIsSent(k, key, lookup);
    var polled := Apply(Apply(held, Expire), Poll);
    assert polled.messages == held.messages && polled.state == PRESSED && polled.format == k.format;
    TickIsSent(polled, lookup);
  }

  lemma PressIsSent(k: Keyboard, key: UInt32, lookup: Lookup)
    requires Accepts(k, PRESSED, lookup)
    ensures var held := OnKey(k, key, PRESSED, lookup);
            |held.messages| == |k.messages| + 1 && held.format == k.format && held.polled == k.polled
  {
    HandleKeyFrame(k.(last := key, state := PRESSED), key, PRESSED, lookup, false);
  }

  lemma TickIsSent(k: Keyboard, lookup: Lookup)
    requires Accepts(k, k.state, lookup)
    ensures var ms := OnTick(k, lookup).messages;
            |ms| == |k.messages| + 1 && ms[|ms| - 1].isRepeat && ms[|ms| - 1].down
  {
  }

  // ---------- the rate of repetition ----------

  /** The last positive rate that repeat_info announced, and 25 per second before the first. */
  function RateInForce(events: seq<Event>): (rate: Int32)
    ensures rate > 0
  {
    if events == [] then 25
    else
      var n := |events| - 1;
      if events[n].RepeatInfo? && events[n].rate > 0 then events[n].rate else RateInForce(events[..n])
  }

  /** The last positive delay that it announced, and 400 ms before the first. */
  function DelayInForce(events: seq<Event>): (delay: Int32)
    ensures delay > 0
  {
    if events == [] then 400
    else
      var n := |events| - 1;
      if events[n].RepeatInfo? && events[n].delay > 0 then events[n].delay else DelayInForce(events[..n])
  }

  /** The format of the last keymap. */
  function FormatInForce(events: seq<Event>): UInt32 {
    if events == [] then NO_KEYMAP
    else
      var n := |events| - 1;
      if events[n].KeymapChanged? then events[n].format else FormatInForce(events[..n])
  }

  /** After any history the settings are the last ones announced. */
  lemma {:induction false} SettingsAreTheLastAnnounced(events: seq<Event>)
    requires Possible(events)
    ensures After(events).repeatDelayMs == DelayInForce(events)
    ensures After(events).repeatIntervalMs == 1_000 / RateInForce(events)
    ensures After(events).format == FormatInForce(events)
  {
    if events != [] {
      var n := |events| - 1;
      SettingsAreTheLastAnnounced(events[..n]);
      SettingsStep(After(events[..n]), events[n]);
    }
  }

  lemma SettingsStep(k: Keyboard, e: Event)
    requires Enabled(k, e)
    ensures Apply(k, e).repeatIntervalMs ==
            if e.RepeatInfo? && e.rate > 0 then 1_000 / e.rate else k.repeatIntervalMs
    ensures Apply(k, e).repeatDelayMs == if e.RepeatInfo? && e.delay > 0 then e.delay else k.repeatDelayMs
    ensures Apply(k, e).format == if e.KeymapChanged? then e.format else k.format
  {
    match e
    case Key(key, state, lookup) =>
      HandleKeyFrame(k.(last := key, state := state), key, state, lookup, false);
    case Tick(lookup) =>
      HandleKeyFrame(k.(polled := false, timer := k.timer.(expired := false)), k.last, k.state, lookup, true);
    case _ =>
  }

  /** A tick has been delivered after position `j`. */
  predicate TickedSince(events: seq<Event>, j: nat) {
    exists i :: j < i < |events| && events[i].Tick?
  }

  /** The state of the timer while a key is held. A periodic timer stays armed; another runs out once,
      and is spent when its expiry has been read. */
  predicate HeldTimer(t: Timer, delayMs: int, intervalMs: int, ticked: bool) {
    && SetTo(t, delayMs, intervalMs)
    && (if t.Periodic() then t.armed else !(t.armed && t.expired) && (ticked ==> !t.armed && !t.expired))
  }

  lemma HeldTimerStep(k: Keyboard, e: Event, delayMs: int, intervalMs: int, ticked: bool)
    requires Sound(k) && Enabled(k, e) && !e.Key? && HeldTimer(k.timer, delayMs, intervalMs, ticked)
    ensures HeldTimer(Apply(k, e).timer, delayMs, intervalMs, ticked || e.Tick?)
  {
    if e.Tick? {
      HandleKeyFrame(k.(polled := false, timer := k.timer.(expired := false)), k.last, k.state, e.lookup, true);
    }
  }

  /** `k` is the keyboard that the key event at `j` finds, and accepts it for repetition. */
  predicate AcceptedBy(events: seq<Event>, j: nat, k: Keyboard) {
    && IsLastKey(events, j) && Possible(events[..j]) && After(events[..j]) == k
    && Accepts(k, events[j].state, events[j].lookup)
  }

  lemma {:induction false} TimerWhileHeld(events: seq<Event>, j: nat, k: Keyboard)
    requires Possible(events) && AcceptedBy(events, j, k)
    ensures HeldTimer(After(events).timer, k.repeatDelayMs, k.repeatIntervalMs, TickedSince(events, j))
  {
    var n := |events| - 1;
    if j == n {
      AlwaysSound(events[..n]);
      KeySetsTimer(k, events[n].key, events[n].state, events[n].lookup);
    } else {
      AcceptedInPrefix(events, j, k);
      TimerWhileHeld(events[..n], j, k);
      AlwaysSound(events[..n]);
      HeldTimerStep(After(events[..n]), events[n], k.repeatDelayMs, k.repeatIntervalMs, TickedSince(events[..n], j));
      TickedByOneMore(events, j);
    }
  }

  lemma AcceptedInPrefix(events: seq<Event>, j: nat, k: Keyboard)
    requires AcceptedBy(events, j, k) && j < |events| - 1
    ensures AcceptedBy(events[..|events| - 1], j, k) && !events[|events| - 1].Key?
  {
    assert events[..|events| - 1][..j] == events[..j];
  }

  lemma TickedByOneMore(events: seq<Event>, j: nat)
    requires j < |events| - 1
    ensures var n := |events| - 1;
            TickedSince(events, j) <==> TickedSince(events[..n], j) || events[n].Tick?
  {
    var n := |events| - 1;
    assert forall i :: 0 <= i < n ==> events[..n][i] == events[i];
  }

  /** A key that is held repeats once only exactly when the rate in force at its press exceeded 1000 per
      second, for the interval is then zero: after the first tick neither an expiry nor a tick comes
      before the next key event; at any other rate the timer keeps running. */
  lemma FastRateRepeatsOnce(events: seq<Event>, j: nat, lookup: Lookup)
    requires Possible(events) && IsLastKey(events, j) && Possible(events[..j]) && AcceptedAt(events, j)
    requires TickedSince(events, j)
    ensures !Enabled(After(events), Expire) && !Enabled(After(events), Tick(lookup)) <==>
            RateInForce(events[..j]) > 1_000
    ensures Enabled(After(events), Expire) <==> RateInForce(events[..j]) <= 1_000
  {
    AlwaysSound(events);
    TimerWhileHeld(events, j, After(events[..j]));
    SettingsAreTheLastAnnounced(events[..j]);
    IntervalOfRate(RateInForce(events[..j]));
  }

  /** While a key is held the timer stays set to the delay and the interval last announced before its
      press. */
  lemma HeldKeyRunsAtAnnouncedPace(events: seq<Event>, j: nat)
    requires Possible(events) && IsLastKey(events, j) && Possible(events[..j]) && AcceptedAt(events, j)
    ensures var timer := After(events).timer;
            && timer.value.Nanos() == DelayInForce(events[..j]) * 1_000_000
            && timer.interval.Nanos() == (1_000 / RateInForce(events[..j])) * 1_000_000
  {
    TimerWhileHeld(events, j, After(events[..j]));
    SettingsAreTheLastAnnounced(events[..j]);
  }

  // ---------- the messages of a history ----------

  /** What a message says of the key event it was sent for, its lock modifiers aside. */
  ghost predicate Tells(m: Message, format: UInt32, key: UInt32, state: UInt32, lookup: Lookup, isRepeat: bool) {
    && (m.down <==> state == PRESSED)
    && m.scanCode == (key + 8 * format) % TWO_32
    && m.keysym == lookup.keysym && m.isRepeat == isRepeat
    && forall x: Modifier :: x != Lock && x != Mod2 ==> (x in m.modifiers <==> x in lookup.mods)
  }

  /** A key event or a tick that has a keymap and a symbol. */
  predicate Speaks(events: seq<Event>, i: nat)
    requires i < |events|
  {
    && (events[i].Key? || events[i].Tick?)
    && events[i].lookup.keysym != NO_SYMBOL && FormatInForce(events[..i]) != NO_KEYMAP
  }

  function Spoken(events: seq<Event>): nat {
    if events == [] then 0
    else var n := |events| - 1; Spoken(events[..n]) + if Speaks(events, n) then 1 else 0
  }

  /** With a keymap and a symbol one message is added, pressed or released, and otherwise none. */
  ghost predicate Sent(before: seq<Message>, messages: seq<Message>, format: UInt32,
                       key: UInt32, state: UInt32, lookup: Lookup, isRepeat: bool) {
    if format == NO_KEYMAP || lookup.keysym == NO_SYMBOL then messages == before
    else |messages| == |before| + 1 && before <= messages
         && Tells(messages[|before|], format, key, state, lookup, isRepeat)
  }

  /** What handling a key does besides: it tracks the lock keys, reports them in the message and accepts
      a press for repetition. */
  ghost predicate Handled(k: Keyboard, k': Keyboard, repeats: bool,
                          key: UInt32, state: UInt32, lookup: Lookup, isRepeat: bool) {
    && Sent(k.messages, k'.messages, k.format, key, state, lookup, isRepeat)
    && if k.format == NO_KEYMAP || lookup.keysym == NO_SYMBOL then k' == k && !repeats
       else
         && (repeats <==> state == PRESSED && lookup.repeats)
         && k' == k.(numLock := k'.numLock, capsLock := k'.capsLock, shiftLock := k'.shiftLock, messages := k'.messages)
         && k'.numLock == (if lookup.keysym == NUM_LOCK then state == PRESSED else k.numLock)
         && k'.capsLock == (if lookup.keysym == CAPS_LOCK then state == PRESSED else k.capsLock)
         && k'.shiftLock == (if lookup.keysym == SHIFT_LOCK then state == PRESSED else k.shiftLock)
         && var m := k'.messages[|k.messages|];
         && (Lock in m.modifiers <==> k'.shiftLock || k'.capsLock)
         && (Mod2 in m.modifiers <==> k'.numLock)
  }

  lemma HandleKeyHandles(k: Keyboard, key: UInt32, state: UInt32, lookup: Lookup, isRepeat: bool)
    ensures var (k', repeats) := HandleKey(k, key, state, lookup, isRepeat);
            Handled(k, k', repeats, key, state, lookup, isRepeat)
  {
  }

  /** It does nothing else: there is one way to handle a key. */
  lemma HandledIsUnique(k: Keyboard, a: Keyboard, b: Keyboard, repeatsA: bool, repeatsB: bool,
                        key: UInt32, state: UInt32, lookup: Lookup, isRepeat: bool)
    requires Handled(k, a, repeatsA, key, state, lookup, isRepeat)
    requires Handled(k, b, repeatsB, key, state, lookup, isRepeat)
    ensures a == b && repeatsA == repeatsB
  {
    if k.format != NO_KEYMAP && lookup.keysym != NO_SYMBOL {
      var n := |k.messages|;
      SameModifiers(a.messages[n].modifiers, b.messages[n].modifiers, lookup.mods);
      assert a.messages == k.messages + [a.messages[n]] && b.messages == k.messages + [b.messages[n]];
    }
  }

  lemma SameModifiers(a: set<Modifier>, b: set<Modifier>, mods: set<Modifier>)
    requires forall x :: x != Lock && x != Mod2 ==> (x in a <==> x in mods) && (x in b <==> x in mods)
    requires (Lock in a <==> Lock in b) && (Mod2 in a <==> Mod2 in b)
    ensures a == b
  {
  }

  /** `m` tells of the event at `n`: of a key event itself, of a tick as a repeated press of the last key. */
  ghost predicate TellsOf(m: Message, events: seq<Event>, n: nat)
    requires n < |events|
  {
    match events[n]
    case Key(key, state, lookup) => Tells(m, FormatInForce(events[..n]), key, state, lookup, false)
    case Tick(lookup) =>
      exists j: nat :: && IsLastKey(events[..n], j)
                  && Tells(m, FormatInForce(events[..n]), events[j].key, PRESSED, lookup, true)
    case _ => false
  }

  lemma LastEventSends(events: seq<Event>)
    requires Possible(events) && events != []
    ensures var n := |events| - 1;
            var before, ms := After(events[..n]).messages, After(events).messages;
            if Speaks(events, n) then
              |ms| == |before| + 1 && before <= ms && TellsOf(ms[|before|], events, n)
            else ms == before
  {
    var n := |events| - 1;
    var k := After(events[..n]);
    SettingsAreTheLastAnnounced(events[..n]);
    match events[n]
    case Key(key, state, lookup) =>
      HandleKeyHandles(k.(last := key, state := state), key, state, lookup, false);
    case Tick(lookup) =>
      AlwaysSound(events[..n]);
      var j := LiveTimerFollowsPress(events[..n]);
      assert k.last == events[j].key && k.state == PRESSED;
      HandleKeyHandles(k.(polled := false, timer := k.timer.(expired := false)), k.last, k.state, lookup, true);
    case _ =>
  }

  lemma {:induction false} MessagesAreSpoken(events: seq<Event>)
    requires Possible(events)
    ensures |After(events).messages| == Spoken(events)
  {
    if events != [] {
      MessagesAreSpoken(events[..|events| - 1]);
      LastEventSends(events);
    }
  }

  /** The event at `n`, if it speaks, has its message among `messages`, after those of the earlier ones. */
  ghost predicate Told(messages: seq<Message>, events: seq<Event>, n: nat)
    requires n < |events|
  {
    Speaks(events, n) ==>
      var i := Spoken(events[..n]);
      i < |messages| && TellsOf(messages[i], events, n)
  }

  /** What is said of an event depends on nothing after it. */
  lemma ToldLater(messages: seq<Message>, more: seq<Message>, events: seq<Event>, m: nat, n: nat)
    requires n < m < |events| && Told(messages, events[..m], n) && messages <= more
    ensures Told(more, events, n)
  {
    assert events[..m][..n] == events[..n];
  }

  lemma LastIsTold(events: seq<Event>)
    requires Possible(events) && events != []
    ensures Told(After(events).messages, events, |events| - 1)
    ensures After(events[..|events| - 1]).messages <= After(events).messages
  {
    LastEventSends(events);
    MessagesAreSpoken(events[..|events| - 1]);
  }

  lemma {:induction false} MessagesGrow(events: seq<Event>, m: nat)
    requires Possible(events) && m <= |events|
    ensures Possible(events[..m]) && After(events[..m]).messages <= After(events).messages
  {
    var last := |events| - 1;
    if m == |events| {
      assert events[..m] == events;
    } else {
      assert events[..last][..m] == events[..m];
      MessagesGrow(events[..last], m);
      LastIsTold(events);
    }
  }

  lemma EachIsTold(events: seq<Event>, n: nat)
    requires Possible(events) && n < |events|
    ensures Told(After(events).messages, events, n)
  {
    var messages := After(events).messages;
    MessagesGrow(events, n + 1);
    LastIsTold(events[..n + 1]);
    if n + 1 < |events| {
      ToldLater(After(events[..n + 1]).messages, messages, events, n + 1, n);
    } else {
      assert events[..n + 1] == events;
    }
  }

  /** Over any history the engine gets one message for each key event and each tick that has a keymap
      and a symbol, releases included, in their order, and no other. */
  lemma OneMessageEach(events: seq<Event>)
    requires Possible(events)
    ensures |After(events).messages| == Spoken(events)
    ensures forall n: nat :: n < |events| ==> Told(After(events).messages, events, n)
  {
    MessagesAreSpoken(events);
    forall n: nat | n < |events| ensures Told(After(events).messages, events, n) {
      EachIsTold(events, n);
    }
  }

  // ---------- lock keys ----------

  /** Whether the last message for a symbol was a keydown. */
  predicate LastDown(messages: seq<Message>, keysym: UInt32) {
    messages != [] &&
    var n := |messages| - 1;
    if messages[n].keysym == keysym then messages[n].down else LastDown(messages[..n], keysym)
  }

  /** The lock flags are those of the message history. */
  predicate LocksFollowMessages(k: Keyboard) {
    && k.numLock == LastDown(k.messages, NUM_LOCK)
    && k.capsLock == LastDown(k.messages, CAPS_LOCK)
    && k.shiftLock == LastDown(k.messages, SHIFT_LOCK)
  }

  /** A message bears a lock modifier exactly if the lock key was last seen going down, its own event
      included. */
  predicate ReportedAt(messages: seq<Message>, i: nat)
    requires i < |messages|
  {
    var seen := messages[..i + 1];
    && (Lock in messages[i].modifiers <==> LastDown(seen, SHIFT_LOCK) || LastDown(seen, CAPS_LOCK))
    && (Mod2 in messages[i].modifiers <==> LastDown(seen, NUM_LOCK))
  }

  ghost predicate LocksReported(messages: seq<Message>) {
    forall i :: 0 <= i < |messages| ==> ReportedAt(messages, i)
  }

  lemma HandleKeyKeepsLocks(k: Keyboard, key: UInt32, state: UInt32, lookup: Lookup, isRepeat: bool)
    requires LocksFollowMessages(k) && LocksReported(k.messages)
    ensures var k' := HandleKey(k, key, state, lookup, isRepeat).0;
            LocksFollowMessages(k') && LocksReported(k'.messages)
  {
    if k.format != NO_KEYMAP && lookup.keysym != NO_SYMBOL {
      var down := state == PRESSED;
      var t := TrackLocks(k, lookup.keysym, down);
      var m := Message(down, ScanCode(key, k.format), lookup.keysym, WithLocks(t, lookup.mods), isRepeat);
      LocksAfterMessage(k, m);
      ReportedAppend(k.messages, m);
    }
  }

  /** Tracking the lock keys keeps up with a new message, which then bears the tracked modifiers. */
  lemma LocksAfterMessage(k: Keyboard, m: Message)
    requires LocksFollowMessages(k)
    ensures var k' := TrackLocks(k, m.keysym, m.down).(messages := k.messages + [m]);
            && LocksFollowMessages(k')
            && (Lock in WithLocks(k', {}) <==>
                  LastDown(k'.messages, SHIFT_LOCK) || LastDown(k'.messages, CAPS_LOCK))
            && (Mod2 in WithLocks(k', {}) <==> LastDown(k'.messages, NUM_LOCK))
  {
    LastDownAppend(k.messages, m, NUM_LOCK);
    LastDownAppend(k.messages, m, CAPS_LOCK);
    LastDownAppend(k.messages, m, SHIFT_LOCK);
  }

  lemma LastDownAppend(messages: seq<Message>, m: Message, keysym: UInt32)
    ensures LastDown(messages + [m], keysym) ==
            if m.keysym == keysym then m.down else LastDown(messages, keysym)
  {
    assert (messages + [m])[..|messages|] == messages;
  }

  lemma ReportedAppend(messages: seq<Message>, m: Message)
    requires LocksReported(messages)
    requires var all := messages + [m];
             && (Lock in m.modifiers <==> LastDown(all, SHIFT_LOCK) || LastDown(all, CAPS_LOCK))
             && (Mod2 in m.modifiers <==> LastDown(all, NUM_LOCK))
    ensures LocksReported(messages + [m])
  {
    var all, n := messages + [m], |messages|;
    forall i | 0 <= i < |all| ensures ReportedAt(all, i) {
      if i < n {
        assert ReportedAt(messages, i) && all[..i + 1] == messages[..i + 1];
      } else {
        assert all[..i + 1] == all;
      }
    }
  }

  lemma {:induction false} LockKeysAreTracked(events: seq<Event>)
    requires Possible(events)
    ensures LocksFollowMessages(After(events)) && LocksReported(After(events).messages)
  {
    if events != [] {
      var n := |events| - 1;
      LockKeysAreTracked(events[..n]);
      var k := After(events[..n]);
      match events[n]
      case Key(key, state, lookup) =>
        HandleKeyKeepsLocks(k.(last := key, state := state), key, state, lookup, false);
      case Tick(lookup) =>
        HandleKeyKeepsLocks(k.(polled := false, timer := k.timer.(expired := false)), k.last, k.state, lookup, true);
      case _ =>
    }
  }
}
