/** The keyboard fields of the display and the methods that update them in place. */
module Keyboards {
  import opened TimeEncoding
  import opened KeyRepeat

  class KeyboardFields {
    var format: UInt32
    var repeatDelayMs: Int32
    var repeatIntervalMs: Int32
    var last: UInt32
    var state: UInt32
    var numLock: bool
    var capsLock: bool
    var shiftLock: bool
    var timer: Timer
    var polled: bool
    var messages: seq<Message>

    ghost function Value(): Keyboard
      reads this
    {
      Keyboard(format, repeatDelayMs, repeatIntervalMs, last, state, numLock, capsLock, shiftLock,
               timer, polled, messages)
    }

    constructor ()
      ensures Value() == Init
    {
      format, repeatDelayMs, repeatIntervalMs, last, state := NO_KEYMAP, 400, 40, 0, RELEASED;
      numLock, capsLock, shiftLock := false, false, false;
      timer, polled, messages := NeverSet, false, [];
    }

    /** The state of the three lock keys. */
    method TrackLockKey(keysym: UInt32, down: bool)
      modifies this`numLock, this`capsLock, this`shiftLock
      ensures Value() == TrackLocks(old(Value()), keysym, down)
    {
      if keysym == NUM_LOCK {
        numLock := down;
      } else if keysym == CAPS_LOCK {
        capsLock := down;
      } else if keysym == SHIFT_LOCK {
        shiftLock := down;
      }
    }

    /** The modifiers sent: the lock bits are those of the lock keys, not the lock states. */
    method ReportedModifiers(mods: set<Modifier>) returns (modifiers: set<Modifier>)
      ensures modifiers == WithLocks(Value(), mods)
    {
      modifiers := mods - {Lock, Mod2};
      if shiftLock || capsLock {
        modifiers := modifiers + {Lock};
      }
      if numLock {
        modifiers := modifiers + {Mod2};
      }
    }

    /** key_handler. */
    method KeyHandler(key: UInt32, stateW: UInt32, lookup: Lookup, isRepeat: bool) returns (repeats: bool)
      modifies this`numLock, this`capsLock, this`shiftLock, this`messages
      ensures (Value(), repeats) == HandleKey(old(Value()), key, stateW, lookup, isRepeat)
      ensures repeats <==> format != NO_KEYMAP && lookup.keysym != NO_SYMBOL && stateW == PRESSED && lookup.repeats
      ensures Sent(old(messages), messages, format, key, stateW, lookup, isRepeat)
      ensures messages != old(messages) ==>
                var m := messages[|old(messages)|];
                (Lock in m.modifiers <==> shiftLock || capsLock) && (Mod2 in m.modifiers <==> numLock)
    {
      HandleKeyHandles(Value(), key, stateW, lookup, isRepeat);
      if format == NO_KEYMAP {
        return false;
      }
      var hardwareKeycode := (key + format * 8) % TWO_32;
      if lookup.keysym == NO_SYMBOL {
        return false;
      }
      var down := stateW == PRESSED;
      TrackLockKey(lookup.keysym, down);
      var modifiers := ReportedModifiers(lookup.mods);
      messages := messages + [Message(down, hardwareKeycode, lookup.keysym, modifiers, isRepeat)];
      repeats := lookup.repeats && down;
    }

    /** Starts the timer of a key that is to be repeated, and stops it otherwise. */
    method ArmTimer(repeats: bool)
      modifies this`timer
      ensures timer == RepeatTimer(Value(), repeats)
    {
      var delay, interval := 0, 0;
      if repeats {
        delay, interval := repeatDelayMs, repeatIntervalMs;
      }
      timer := SetTimer(delay, interval);
    }

    /** The key event of the keyboard listener. */
    method Key(key: UInt32, stateW: UInt32, lookup: Lookup)
      modifies this
      ensures Value() == OnKey(old(Value()), key, stateW, lookup)
      ensures Sent(old(messages), messages, format, key, stateW, lookup, false)
    {
      last, state := key, stateW;
      assert Value() == old(Value()).(last := key, state := stateW);
      var accepted := KeyHandler(key, stateW, lookup, false);
      ghost var k := Value();
      ArmTimer(accepted);
      assert Value() == k.(timer := RepeatTimer(k, accepted));
    }

    /** The repeat_info event: values that are not positive are ignored. */
    method RepeatInfo(rate: Int32, delay: Int32)
      modifies this`repeatIntervalMs, this`repeatDelayMs
      ensures Value() == OnRepeatInfo(old(Value()), rate, delay)
      ensures Sound(old(Value())) ==> Sound(Value())
    {
      if rate > 0 {
        IntervalOfRate(rate);
        repeatIntervalMs := 1_000 / rate;
      }
      if delay > 0 {
        repeatDelayMs := delay;
      }
    }

    /** The part of the poll loop that reads the timer and repeats the last key. */
    method Tick(lookup: Lookup)
      modifies this
      ensures Value() == OnTick(old(Value()), lookup)
      ensures Sent(old(messages), messages, format, last, state, lookup, true)
    {
      polled := false;
      timer := timer.(expired := false);
      var repeats := KeyHandler(last, state, lookup, true);
    }
  }
}
