/** The vsync state of the display: the baton, the last frame and the refresh period. */
module Vsync {
  import opened TimeEncoding
  import opened VsyncTime

  /** A call of FlutterEngineOnVsync. */
  datatype Reply = Reply(baton: int, target: Target)

  class FrameSync {
    var baton: int              // 0 when none is waiting
    var lastFrame: UInt64
    var period: UInt64
    var presentation: bool      // a presentation clock has been announced
    var socket: nat             // notification bytes not yet read
    var replies: seq<Reply>     // calls of FlutterEngineOnVsync, in order

    ghost predicate Valid()
      reads this
    {
      period > 0
    }

    constructor ()
      ensures Valid() && baton == 0 && lastFrame == 0 && socket == 0 && !presentation && replies == []
      ensures period == Period(60_000)
    {
      baton, lastFrame, period := 0, 0, MILLIHERTZ_NSEC / 60_000;
      presentation, socket, replies := false, 0, [];
    }

    /** output.mode, for the refresh rate in millihertz. */
    method OutputMode(refresh: Int32)
      requires refresh != 0
      modifies this`period
      ensures Valid() && period == Period(refresh)
      ensures refresh > 0 ==> period * refresh <= MILLIHERTZ_NSEC < (period + 1) * refresh
    {
      PeriodIsPositive(refresh);
      if refresh > 0 {
        PeriodOfRefresh(refresh);
      }
      period := ToUInt64(CDiv(MILLIHERTZ_NSEC, refresh));
    }

    /** A presented event; the refresh it carries is only compared for a warning. */
    method Presented(stamp: Stamp)
      modifies this`lastFrame
      ensures lastFrame == FrameTime(stamp)
      ensures stamp.Fits() ==> lastFrame == stamp.Seconds() * NSEC_PER_SEC + stamp.nsec
      ensures lastFrame == (stamp.Seconds() * NSEC_PER_SEC + stamp.nsec) % TWO_64
    {
      FrameTimeWraps(stamp);
      var seconds: UInt64 := stamp.hi * TWO_32 + stamp.lo;
      if stamp.Fits() {
        FrameTimeExact(stamp);
      }
      lastFrame := ToUInt64(ToUInt64(seconds * NSEC_PER_SEC) + stamp.nsec);
    }

    /** The frame callback, the fallback where no presentation clock was announced. */
    method FrameDone(now: UInt64)
      modifies this`lastFrame
      ensures lastFrame == if presentation then old(lastFrame) else now
    {
      if presentation {
        return;
      }
      lastFrame := now;
    }

    /** The engine asks for a vsync. A second baton before the first was returned ends the process:
        the method then returns true. */
    method VsyncCallback(newBaton: int) returns (exits: bool)
      modifies this`baton, this`socket
      ensures exits <==> old(baton) != 0
      ensures if exits then baton == old(baton) && socket == old(socket)
              else baton == newBaton && socket == old(socket) + 1
    {
      if baton != 0 {
        return true;
      }
      baton := newBaton;
      socket := socket + 1;
      exits := false;
    }

    /** Returns the waiting baton to the engine with the target of the next frame. The result is 0 if
        no baton waits, and -1 if the engine rejects the call. */
    method VSyncHandler(now: UInt64, accepts: bool) returns (rv: int)
      requires Valid()
      modifies this`baton, this`replies
      ensures rv == 0 <==> old(baton) == 0
      ensures rv != 0 ==> (rv == 1 <==> accepts) && (rv == -1 <==> !accepts)
      ensures rv == 0 ==> baton == 0 && replies == old(replies)
      ensures rv != 0 ==> baton == 0 && |replies| == |old(replies)| + 1 && replies[..|old(replies)|] == old(replies)
      ensures rv != 0 ==> replies[|old(replies)|] == Reply(old(baton), TargetOf(now, lastFrame, period))
      ensures rv != 0 && lastFrame <= now && InRange(now, period) ==>
                var t := replies[|old(replies)|].target;
                && now < t.current && OnGrid(t.current, lastFrame, period) && t.finish == t.current + period
                && forall x :: now < x && OnGrid(x, lastFrame, period) ==> t.current <= x
    {
      if baton == 0 {
        return 0;
      }
      var afterVsync := ToUInt64(now - lastFrame) % period;
      var beforeNextVsync := period - afterVsync;
      var current := ToUInt64(now + beforeNextVsync);
      var finish := ToUInt64(current + period);
      var taken := baton;
      baton := 0;
      ghost var t := TargetOf(now, lastFrame, period);
      assert Target(current, finish) == t;
      if lastFrame <= now && InRange(now, period) {
        TargetIsNextGridPoint(now, lastFrame, period);
      }
      replies := replies + [Reply(taken, Target(current, finish))];
      rv := if accepts then 1 else -1;
    }
  }
}
