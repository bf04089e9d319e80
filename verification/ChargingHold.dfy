/**
 The debounced charging state. The power board's flag can toggle from frame to frame at
 the end of a charge, so a change on input power counts only after 30 frames in a row;
 on battery, on the first frame of a session, and around a missing flag the state follows
 at once.
 */
module ChargingHold {
  import opened Prelude

  const HOLD_FRAMES: nat := 30

  /**
   What a telemetry frame says: the charging flag, missing if the frame is cut off, and whether
   the UPS runs on battery.
   */
  datatype Frame = Frame(flag: Option<bool>, onBattery: bool)

  /** `hold` is `None` until the first frame of a session. */
  datatype Held = Held(charging: Option<bool>, hold: Option<nat>)

  class ChargingState {
    var charging: Option<bool>
    var hold: Option<nat>

    function State(): Held
      reads this
    {
      Held(charging, hold)
    }

    constructor ()
      ensures State() == Held(None, None)
    {
      charging, hold := None, None;
    }

    /** A session was authenticated. */
    method Restart()
      modifies this`hold
      ensures State() == old(State()).(hold := None)
    {
      hold := None;
    }

    /** `_hold_charging` with the assignment of its result. */
    method OnFrame(frame: Frame)
      modifies this
      ensures State() == After(old(State()), frame)
    {
      if charging.Some? && frame.flag.Some? && charging != frame.flag && hold.Some? && !frame.onBattery {
        hold := Some(hold.value + 1);
        if hold.value < HOLD_FRAMES {
          return;
        }
      }
      hold := Some(0);
      charging := frame.flag;
    }
  }

  /** The frames of a session, the first of which counts at once. */
  method Session(state: ChargingState, frames: seq<Frame>)
    requires frames != []
    modifies state
    ensures state.State() == Replay(old(state.State()).(hold := None), frames)
    ensures frames[0].flag.Some? && AllOnMains(frames[1..]) ==>
              Tracks(frames[0].flag.value, frames[1..], state.State())
  {
    state.Restart();
    ghost var start := state.State();
    for i := 0 to |frames|
      invariant state.State() == Replay(start, frames[..i])
    {
      state.OnFrame(frames[i]);
      assert frames[..i + 1][..i] == frames[..i];
    }
    assert frames[..|frames|] == frames;
    ReplayFirst(start, frames);
    if frames[0].flag.Some? && AllOnMains(frames[1..]) {
      ChargingFollowsFrames(start, frames[0], frames[1..]);
    }
  }

  lemma {:induction false} ReplayFirst(s: Held, frames: seq<Frame>)
    requires frames != []
    ensures Replay(s, frames) == Replay(After(s, frames[0]), frames[1..])
  {
    if |frames| == 1 {
      assert frames[..0] == [];
    } else {
      var last := |frames| - 1;
      ReplayFirst(s, frames[..last]);
      assert frames[..last][1..] == frames[1..][..last - 1];
    }
  }

  /** The state after one frame. */
  function After(s: Held, frame: Frame): Held {
    if Differs(s, frame) && s.hold.value + 1 < HOLD_FRAMES then s.(hold := Some(s.hold.value + 1))
    else Held(frame.flag, Some(0))
  }

  /** The frame argues for a change that has to last. */
  predicate Differs(s: Held, frame: Frame) {
    s.charging.Some? && frame.flag.Some? && s.charging != frame.flag && s.hold.Some? && !frame.onBattery
  }

  function Replay(s: Held, frames: seq<Frame>): Held {
    if frames == [] then s else After(Replay(s, frames[..|frames| - 1]), frames[|frames| - 1])
  }

  // ----- the specification in terms of the frames alone

  predicate OnMains(frame: Frame) {
    frame.flag.Some? && !frame.onBattery
  }

  ghost predicate AllOnMains(frames: seq<Frame>) {
    forall i :: 0 <= i < |frames| ==> OnMains(frames[i])
  }

  /** The 30 frames before position `end` all carry the flag `value`. */
  ghost predicate Lasted(frames: seq<Frame>, end: int, value: bool) {
    30 <= end <= |frames| && forall i :: end - 30 <= i < end ==> frames[i].flag == Some(value)
  }

  /**
   The state that frames on mains, starting from `initial`, argue for: the flag of the last
   30 frames in a row that agreed, or the initial state if no 30 did.
   */
  ghost function Settled(initial: bool, frames: seq<Frame>): bool {
    if frames == [] then initial
    else if Lasted(frames, |frames|, true) then true
    else if Lasted(frames, |frames|, false) then false
    else Settled(initial, frames[..|frames| - 1])
  }

  /** The length of the run of frames at the end whose flag is not `value`. */
  function TrailingDiffering(frames: seq<Frame>, value: bool): (n: nat)
    ensures n <= |frames|
    ensures forall i :: |frames| - n <= i < |frames| ==> frames[i].flag != Some(value)
    ensures n < |frames| ==> frames[|frames| - n - 1].flag == Some(value)
  {
    if frames == [] || frames[|frames| - 1].flag == Some(value) then 0
    else 1 + TrailingDiffering(frames[..|frames| - 1], value)
  }

  /** The state agrees with the frames since the last one that counted at once. */
  ghost predicate Tracks(initial: bool, frames: seq<Frame>, s: Held) {
    && s.charging == Some(Settled(initial, frames)) && s.hold.Some?
    && s.hold.value == TrailingDiffering(frames, s.charging.value)
    && s.hold.value < 30
  }

  /** The frame counts at once: the first of a session, on battery, or around a missing flag. */
  predicate AtOnce(s: Held, frame: Frame) {
    s.hold.None? || frame.onBattery || frame.flag.None? || s.charging.None?
  }

  lemma OtherFlag(flag: Option<bool>, value: bool)
    requires flag.Some? && flag != Some(value)
    ensures flag == Some(!value)
  {
    assert flag.value == !value;
  }

  lemma KeepsTracking(initial: bool, frames: seq<Frame>, frame: Frame, s: Held)
    requires Tracks(initial, frames, s) && AllOnMains(frames) && OnMains(frame)
    ensures Tracks(initial, frames + [frame], After(s, frame))
  {
    var longer := frames + [frame];
    assert longer[..|frames|] == frames;
    var value, n := s.charging.value, s.hold.value;
    assert longer[|frames|] == frame;
    if Differs(s, frame) {
      var ahead := |frames| - n - 1;
      if n + 1 == HOLD_FRAMES {
        forall i | |longer| - HOLD_FRAMES <= i < |longer|
          ensures longer[i].flag == Some(!value)
        {
          if i < |frames| {
            assert longer[i] == frames[i] && OnMains(frames[i]);
          }
          OtherFlag(longer[i].flag, value);
        }
      } else if 0 <= ahead {
        assert longer[ahead] == frames[ahead];
      }
    }
  }

  /**
   The debounce refines its specification. After any frame that counts at once and any
   frames on mains, the state is the one the frames settled, and the counter is the length
   of the run of differing frames at the end, always below 30.
   */
  lemma {:induction false} ChargingFollowsFrames(s: Held, first: Frame, frames: seq<Frame>)
    requires AtOnce(s, first) && first.flag.Some? && AllOnMains(frames)
    ensures Tracks(first.flag.value, frames, Replay(After(s, first), frames))
  {
    if frames == [] {
      FollowsAtOnce(s, first);
    } else {
      var last := |frames| - 1;
      ChargingFollowsFrames(s, first, frames[..last]);
      KeepsTracking(first.flag.value, frames[..last], frames[last], Replay(After(s, first), frames[..last]));
      assert frames[..last] + [frames[last]] == frames;
    }
  }

  /** A frame that counts at once decides the state alone, whatever came before. */
  lemma FollowsAtOnce(s: Held, frame: Frame)
    requires AtOnce(s, frame)
    ensures After(s, frame) == Held(frame.flag, Some(0))
  {
  }

  function Changes(s: Held, frames: seq<Frame>): nat {
    if frames == [] then 0
    else
      var before := Replay(s, frames[..|frames| - 1]);
      var after := After(before, frames[|frames| - 1]);
      Changes(s, frames[..|frames| - 1]) + if after.charging != before.charging then 1 else 0
  }

  /** Frames on mains after the first frame of a session change the state at most once in 30. */
  lemma {:induction false} ChangesAreRare(s: Held, frames: seq<Frame>)
    requires s.charging.Some? && s.hold == Some(0) && AllOnMains(frames)
    ensures Replay(s, frames).charging.Some? && Replay(s, frames).hold.Some?
    ensures 30 * Changes(s, frames) + Replay(s, frames).hold.value <= |frames|
    ensures Changes(s, frames) <= |frames| / 30
  {
    if frames == [] {
    } else {
      ChangesAreRare(s, frames[..|frames| - 1]);
    }
  }
}
