/** The LED indicator: an output pin armed by the GUI, switched on by a
    detection and switched off again once `onDuration` has passed. Time is an
    integer input; the pin is abstract, and every attempted write is told
    whether it succeeds. */
module LedController {
  import opened Wrappers

  datatype PinLevel = Low | High

  /** The four fields the controller updates. */
  datatype Led = Led(enabled: bool, isOn: bool, lastDetectionTime: int, simulationMode: bool)

  /** What the controller is built with: whether the GPIO library imported and
      the on period from the configuration. */
  datatype Hardware = Hardware(gpioAvailable: bool, onDuration: int)

  /** The outcome of one operation: the new fields, the pin write it attempted
      (if any), and whether an exception escaped to the caller. */
  datatype Effect = Effect(next: Led, attempted: Option<PinLevel>, raised: bool)

  /** The invariant every public operation keeps: the LED is never on while
      disarmed, and real pin writes happen only where the library exists. */
  predicate Valid(s: Led, hw: Hardware) {
    (s.isOn ==> s.enabled) && (!s.simulationMode ==> hw.gpioAvailable)
  }

  /** The constructor: disarmed and off; simulation when requested or when the
      library is missing; otherwise the pin set-up, whose failure switches to
      simulation and re-raises (no controller is then produced). */
  function Init(simulationRequested: bool, hw: Hardware, setupOk: bool): (r: Option<Led>)
    ensures r.Some? ==> Valid(r.value, hw) && !r.value.enabled && !r.value.isOn && r.value.lastDetectionTime == 0
    ensures r.Some? ==> (r.value.simulationMode <==> simulationRequested || !hw.gpioAvailable)
    ensures r.None? <==> !simulationRequested && hw.gpioAvailable && !setupOk
  {
    var sim := simulationRequested || !hw.gpioAvailable;
    if !sim && !setupOk then None
    else Some(Led(false, false, 0, sim))
  }

  /** `turn_on`. Disarmed: the LED is forced off and, on real hardware, LOW is
      written outside any handler, so a failing write escapes. Armed and off:
      on, with HIGH written unless simulating; a failing write is caught and
      switches to simulation. Armed and on: nothing. */
  function TurnOn(s: Led, hw: Hardware, pinOk: bool): (r: Effect)
    ensures Valid(s, hw) ==> Valid(r.next, hw)
    ensures r.next.enabled == s.enabled && r.next.lastDetectionTime == s.lastDetectionTime
    ensures r.next.isOn == s.enabled
    ensures r.attempted == Some(High) <==> s.enabled && !s.isOn && !s.simulationMode
    ensures r.raised <==> !s.enabled && !s.simulationMode && hw.gpioAvailable && !pinOk
    ensures r.next.simulationMode <==> s.simulationMode || (r.attempted == Some(High) && !pinOk)
  {
    if !s.enabled then
      var write := !s.simulationMode && hw.gpioAvailable;
      Effect(s.(isOn := false), if write then Some(Low) else None, write && !pinOk)
    else if !s.isOn then
      if s.simulationMode then Effect(s.(isOn := true), None, false)
      else Effect(s.(isOn := true, simulationMode := !pinOk), Some(High), false)
    else Effect(s, None, false)
  }

  /** `turn_off`. When on or disarmed: off, with LOW written unless
      simulating; a failing write is caught and switches to simulation.
      Otherwise nothing. It never raises. */
  function TurnOff(s: Led, pinOk: bool): (r: Effect)
    ensures !r.raised
    ensures r.next.enabled == s.enabled && r.next.lastDetectionTime == s.lastDetectionTime
    ensures !r.next.isOn
    ensures r.attempted.Some? <==> (s.isOn || !s.enabled) && !s.simulationMode
    ensures r.attempted.Some? ==> r.attempted.value == Low
    ensures r.next.simulationMode <==> s.simulationMode || (r.attempted.Some? && !pinOk)
  {
    if s.isOn || !s.enabled then
      if s.simulationMode then Effect(s.(isOn := false), None, false)
      else Effect(s.(isOn := false, simulationMode := !pinOk), Some(Low), false)
    else Effect(s, None, false)
  }

  /** `set_enabled`: store the flag; disarming always turns the LED off. */
  function SetEnabled(s: Led, enabled: bool, pinOk: bool): (r: Effect)
    ensures !r.raised && r.next.enabled == enabled && r.next.lastDetectionTime == s.lastDetectionTime
    ensures !enabled ==> !r.next.isOn
    ensures enabled ==> r.next == s.(enabled := true) && r.attempted.None?
    ensures r.next.isOn ==> r.next.enabled
    ensures s.simulationMode ==> r.next.simulationMode
  {
    var armed := s.(enabled := enabled);
    if !enabled then TurnOff(armed, pinOk) else Effect(armed, None, false)
  }

  /** `handle_detection`: ignored while disarmed; otherwise `turn_on` and then
      the detection time is set to now, so a repeated detection restarts the
      on period. */
  function HandleDetection(s: Led, hw: Hardware, now: int, pinOk: bool): (r: Effect)
    ensures !r.raised
    ensures !s.enabled ==> r == Effect(s, None, false)
    ensures s.enabled ==> r.next.isOn && r.next.enabled && r.next.lastDetectionTime == now
    ensures Valid(s, hw) ==> Valid(r.next, hw)
  {
    if !s.enabled then Effect(s, None, false)
    else
      var on := TurnOn(s, hw, pinOk);
      on.(next := on.next.(lastDetectionTime := now))
  }

  /** `check_and_turn_off`: disarmed forces off; armed, on and with at least
      `onDuration` elapsed turns off; otherwise nothing changes. */
  function CheckAndTurnOff(s: Led, hw: Hardware, now: int, pinOk: bool): (r: Effect)
    ensures !r.raised && r.next.enabled == s.enabled && r.next.lastDetectionTime == s.lastDetectionTime
    ensures Valid(s, hw) ==> Valid(r.next, hw)
    ensures r.next.isOn ==> now - s.lastDetectionTime < hw.onDuration
    ensures s.enabled && (!s.isOn || now - s.lastDetectionTime < hw.onDuration) ==> r == Effect(s, None, false)
  {
    if !s.enabled then TurnOff(s, pinOk)
    else if s.isOn && now - s.lastDetectionTime >= hw.onDuration then TurnOff(s, pinOk)
    else Effect(s, None, false)
  }

  /** `cleanup`: the library's own clean-up (whose errors are caught) on real
      hardware, then off and disarmed. */
  function Cleanup(s: Led): (r: Led)
    ensures !r.isOn && !r.enabled
    ensures r.lastDetectionTime == s.lastDetectionTime && r.simulationMode == s.simulationMode
  {
    s.(isOn := false, enabled := false)
  }

  /** `get_status`. */
  predicate Status(s: Led) {
    s.isOn && s.enabled
  }

  // ---------------------------------------------------------------------------
  // Properties across operations.
  // ---------------------------------------------------------------------------

  /** One of the public operations, with its inputs. */
  datatype Op =
    | SetEnabledOp(enabled: bool)
    | HandleDetectionOp(now: int)
    | CheckAndTurnOffOp(now: int)
    | TurnOnOp
    | TurnOffOp
    | CleanupOp

  function Apply(s: Led, hw: Hardware, op: Op, pinOk: bool): (r: Effect)
  {
    match op
    case SetEnabledOp(e) => SetEnabled(s, e, pinOk)
    case HandleDetectionOp(now) => HandleDetection(s, hw, now, pinOk)
    case CheckAndTurnOffOp(now) => CheckAndTurnOff(s, hw, now, pinOk)
    case TurnOnOp => TurnOn(s, hw, pinOk)
    case TurnOffOp => TurnOff(s, pinOk)
    case CleanupOp => Effect(Cleanup(s), None, false)
  }

  /** Every operation keeps the invariant and never leaves simulation. */
  lemma ApplyKeepsValid(s: Led, hw: Hardware, op: Op, pinOk: bool)
    requires Valid(s, hw)
    ensures Valid(Apply(s, hw, op, pinOk).next, hw)
    ensures s.simulationMode ==> Apply(s, hw, op, pinOk).next.simulationMode
  {
  }

  /** The state after a sequence of operations, each told whether its pin
      write succeeds. */
  function Run(s: Led, hw: Hardware, ops: seq<Op>, pinOk: seq<bool>): (r: Led)
    requires |pinOk| == |ops|
  {
    if ops == [] then s
    else
      var n := |ops| - 1;
      Apply(Run(s, hw, ops[..n], pinOk[..n]), hw, ops[n], pinOk[n]).next
  }

  /** Along any run from a valid state the invariant holds and simulation, once
      entered, stays. */
  lemma {:induction false} RunKeepsValid(s: Led, hw: Hardware, ops: seq<Op>, pinOk: seq<bool>)
    requires |pinOk| == |ops| && Valid(s, hw)
    ensures Valid(Run(s, hw, ops, pinOk), hw)
    ensures s.simulationMode ==> Run(s, hw, ops, pinOk).simulationMode
  {
    if ops != [] {
      var n := |ops| - 1;
      RunKeepsValid(s, hw, ops[..n], pinOk[..n]);
      ApplyKeepsValid(Run(s, hw, ops[..n], pinOk[..n]), hw, ops[n], pinOk[n]);
    }
  }

  /** Only HIGH writes drive the LED on, and only armed, off and not
      simulating; a write that fails is caught only on the armed paths. */
  lemma HighOnlyWhenArmedOffReal(s: Led, hw: Hardware, op: Op, pinOk: bool)
    ensures Apply(s, hw, op, pinOk).attempted == Some(High)
            ==> s.enabled && !s.isOn && !s.simulationMode
    ensures Apply(s, hw, op, pinOk).attempted == Some(High) && !pinOk
            ==> Apply(s, hw, op, pinOk).next.simulationMode
  {
  }

  /** `cleanup` twice is `cleanup` once. */
  lemma CleanupIdempotent(s: Led)
    ensures Cleanup(Cleanup(s)) == Cleanup(s)
  {
  }

  /** Arming does not switch the LED on, and status reports it only when armed. */
  lemma ArmingKeepsLedState(s: Led, pinOk: bool)
    ensures SetEnabled(s, true, pinOk).next.isOn == s.isOn
    ensures !Status(SetEnabled(s, false, pinOk).next)
  {
  }

  /** A detection followed by a check before `onDuration` has passed leaves the
      LED on; a check at or after it turns it off. */
  lemma DetectionThenCheck(s: Led, hw: Hardware, t: int, now: int, pinOk: bool, pinOk': bool)
    requires s.enabled
    ensures var on := HandleDetection(s, hw, t, pinOk).next;
            var later := CheckAndTurnOff(on, hw, now, pinOk').next;
            (now - t < hw.onDuration ==> Status(later)) && (now - t >= hw.onDuration ==> !later.isOn)
  {
  }

  // ---------------------------------------------------------------------------
  // The controller object.
  // ---------------------------------------------------------------------------

  class LEDController {
    var enabled: bool
    var isOn: bool
    var lastDetectionTime: int
    var simulationMode: bool
    const hw: Hardware
    /** The levels successfully driven onto the pin, in order. */
    ghost var pinWrites: seq<PinLevel>

    function State(): Led
      reads this
    {
      Led(enabled, isOn, lastDetectionTime, simulationMode)
    }

    ghost predicate Inv()
      reads this
    {
      Valid(State(), hw)
    }

    /** Records a write that went through. */
    ghost method Drive(e: Effect, pinOk: bool)
      modifies this`pinWrites
      ensures pinWrites == old(pinWrites) + (if e.attempted.Some? && pinOk then [e.attempted.value] else [])
    {
      if e.attempted.Some? && pinOk {
        pinWrites := pinWrites + [e.attempted.value];
      }
    }

    /** Only constructed when the set-up did not raise. */
    constructor (simulationRequested: bool, hw: Hardware, setupOk: bool)
      requires Init(simulationRequested, hw, setupOk).Some?
      ensures Inv() && State() == Init(simulationRequested, hw, setupOk).value
      ensures this.hw == hw && pinWrites == []
    {
      this.hw := hw;
      enabled := false;
      isOn := false;
      lastDetectionTime := 0;
      simulationMode := simulationRequested || !hw.gpioAvailable;
      pinWrites := [];
    }

    method TurnOnNow(pinOk: bool) returns (raised: bool)
      requires Inv()
      modifies this
      ensures Inv()
      ensures var e := TurnOn(old(State()), hw, pinOk);
              State() == e.next && raised == e.raised
              && pinWrites == old(pinWrites) + (if e.attempted.Some? && pinOk then [e.attempted.value] else [])
    {
      ghost var e := TurnOn(State(), hw, pinOk);
      raised := false;
      if !enabled {
        isOn := false;
        if !simulationMode && hw.gpioAvailable {
          raised := !pinOk;
        }
      } else if !isOn {
        isOn := true;
        if !simulationMode && !pinOk {
          simulationMode := true;
        }
      }
      Drive(e, pinOk);
    }

    /** Needs only the pin half of the invariant: `set_enabled` calls it
        right after disarming, while the LED may still be on. */
    method TurnOffNow(pinOk: bool)
      requires !simulationMode ==> hw.gpioAvailable
      modifies this
      ensures Inv()
      ensures var e := TurnOff(old(State()), pinOk);
              State() == e.next
              && pinWrites == old(pinWrites) + (if e.attempted.Some? && pinOk then [e.attempted.value] else [])
    {
      ghost var e := TurnOff(State(), pinOk);
      if isOn || !enabled {
        isOn := false;
        if !simulationMode && !pinOk {
          simulationMode := true;
        }
      }
      Drive(e, pinOk);
    }

    method SetEnabledNow(enabled: bool, pinOk: bool)
      requires Inv()
      modifies this
      ensures Inv()
      ensures var e := SetEnabled(old(State()), enabled, pinOk);
              State() == e.next
              && pinWrites == old(pinWrites) + (if e.attempted.Some? && pinOk then [e.attempted.value] else [])
    {
      this.enabled := enabled;
      if !enabled {
        TurnOffNow(pinOk);
      }
    }

    method HandleDetectionNow(now: int, pinOk: bool)
      requires Inv()
      modifies this
      ensures Inv()
      ensures var e := HandleDetection(old(State()), hw, now, pinOk);
              State() == e.next
              && pinWrites == old(pinWrites) + (if e.attempted.Some? && pinOk then [e.attempted.value] else [])
    {
      if !enabled {
        return;
      }
      var _ := TurnOnNow(pinOk);
      lastDetectionTime := now;
    }

    method CheckAndTurnOffNow(now: int, pinOk: bool)
      requires Inv()
      modifies this
      ensures Inv()
      ensures var e := CheckAndTurnOff(old(State()), hw, now, pinOk);
              State() == e.next
              && pinWrites == old(pinWrites) + (if e.attempted.Some? && pinOk then [e.attempted.value] else [])
    {
      if !enabled {
        TurnOffNow(pinOk);
        return;
      }
      if isOn && now - lastDetectionTime >= hw.onDuration {
        TurnOffNow(pinOk);
      }
    }

    method CleanupNow()
      requires Inv()
      modifies this
      ensures Inv()
      ensures State() == Cleanup(old(State())) && pinWrites == old(pinWrites)
    {
      isOn := false;
      enabled := false;
    }

    method GetStatus() returns (status: bool)
      ensures status == Status(State())
    {
      status := isOn && enabled;
    }
  }
}
