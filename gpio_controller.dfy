/** The GPIO indicator: the alternative output controller. Unlike the LED
    controller it writes the pin before changing its own fields, so a write
    that raises leaves them as they were; its status checks the elapsed time
    itself, and its automatic switch-off does not look at the armed flag. */
module GpioController {
  import opened Wrappers

  datatype PinLevel = Low | High

  /** `enabled`, `_is_on` and `_last_on_time`. */
  datatype Gpio = Gpio(enabled: bool, isOn: bool, lastOnTime: int)

  /** Whether the GPIO library imported, and the on period from the configuration. */
  datatype Hardware = Hardware(gpioAvailable: bool, onDuration: int)

  /** The new fields and the pin write attempted, if any. Every write sits
      inside a handler, so no operation lets an exception escape. */
  datatype Effect = Effect(next: Gpio, attempted: Option<PinLevel>)

  /** The write `level` is attempted exactly when the library is available;
      it fails only then. */
  function Write(hw: Hardware, level: PinLevel): (w: Option<PinLevel>)
    ensures w.Some? <==> hw.gpioAvailable
  {
    if hw.gpioAvailable then Some(level) else None
  }

  predicate WriteFails(hw: Hardware, pinOk: bool) {
    hw.gpioAvailable && !pinOk
  }

  /** The constructor: disarmed, off, time 0; the pin set-up, when the library
      is there, re-raises its failure (no controller is then produced). */
  function Init(hw: Hardware, setupOk: bool): (r: Option<Gpio>)
    ensures r.None? <==> hw.gpioAvailable && !setupOk
    ensures r.Some? ==> r.value == Gpio(false, false, 0)
  {
    if hw.gpioAvailable && !setupOk then None else Some(Gpio(false, false, 0))
  }

  /** `turn_on`: nothing while disarmed; otherwise write HIGH and, if that did
      not raise, record now as the on time and mark the output on. */
  function TurnOn(s: Gpio, hw: Hardware, now: int, pinOk: bool): (r: Effect)
    ensures !s.enabled ==> r == Effect(s, None)
    ensures s.enabled ==> r.attempted == Write(hw, High)
    ensures s.enabled && !WriteFails(hw, pinOk) ==> r.next == s.(isOn := true, lastOnTime := now)
    ensures WriteFails(hw, pinOk) ==> r.next == s
  {
    if !s.enabled then Effect(s, None)
    else if WriteFails(hw, pinOk) then Effect(s, Write(hw, High))
    else Effect(s.(isOn := true, lastOnTime := now), Write(hw, High))
  }

  /** `turn_off`: write LOW and, if that did not raise, mark the output off,
      whatever the armed flag says. */
  function TurnOff(s: Gpio, hw: Hardware, pinOk: bool): (r: Effect)
    ensures r.attempted == Write(hw, Low)
    ensures !WriteFails(hw, pinOk) ==> r.next == s.(isOn := false)
    ensures WriteFails(hw, pinOk) ==> r.next == s
  {
    if WriteFails(hw, pinOk) then Effect(s, Write(hw, Low))
    else Effect(s.(isOn := false), Write(hw, Low))
  }

  /** `set_enabled`: store the flag; disarming turns the output off. */
  function SetEnabled(s: Gpio, hw: Hardware, enabled: bool, pinOk: bool): (r: Effect)
    ensures r.next.enabled == enabled && r.next.lastOnTime == s.lastOnTime
    ensures enabled ==> r == Effect(s.(enabled := true), None)
    ensures !enabled && !WriteFails(hw, pinOk) ==> !r.next.isOn
    ensures !enabled && WriteFails(hw, pinOk) ==> r.next.isOn == s.isOn
  {
    var armed := s.(enabled := enabled);
    if !enabled then TurnOff(armed, hw, pinOk) else Effect(armed, None)
  }

  /** `get_status`: armed, on, and the on period not yet over. */
  predicate Status(s: Gpio, hw: Hardware, now: int) {
    s.enabled && s.isOn && now - s.lastOnTime < hw.onDuration
  }

  /** `check_and_turn_off`: when on and the period is over, `turn_off`;
      the armed flag is not consulted. */
  function CheckAndTurnOff(s: Gpio, hw: Hardware, now: int, pinOk: bool): (r: Effect)
    ensures r.next.enabled == s.enabled && r.next.lastOnTime == s.lastOnTime
    ensures s.isOn && now - s.lastOnTime >= hw.onDuration && !WriteFails(hw, pinOk) ==> !r.next.isOn
    ensures !(s.isOn && now - s.lastOnTime >= hw.onDuration) ==> r == Effect(s, None)
    ensures r.next.isOn ==> s.isOn
    ensures s.isOn && now - s.lastOnTime >= hw.onDuration ==> r.attempted == Write(hw, Low)
    ensures WriteFails(hw, pinOk) ==> r.next == s
  {
    if s.isOn && now - s.lastOnTime >= hw.onDuration then TurnOff(s, hw, pinOk)
    else Effect(s, None)
  }

  /** `handle_detection`: `turn_on` when armed. */
  function HandleDetection(s: Gpio, hw: Hardware, now: int, pinOk: bool): (r: Effect)
    ensures !s.enabled ==> r == Effect(s, None)
    ensures s.enabled ==> r == TurnOn(s, hw, now, pinOk)
    ensures s.enabled && !WriteFails(hw, pinOk) ==> (Status(r.next, hw, now) <==> hw.onDuration > 0)
    ensures r.next.enabled == s.enabled
  {
    if s.enabled then TurnOn(s, hw, now, pinOk) else Effect(s, None)
  }

  /** `cleanup`: with the library, `turn_off` (whose failure it swallows) and
      the pin's release; without it, nothing. The armed flag is never touched. */
  function Cleanup(s: Gpio, hw: Hardware, pinOk: bool): (r: Effect)
    ensures r.next.enabled == s.enabled && r.next.lastOnTime == s.lastOnTime
    ensures !hw.gpioAvailable ==> r == Effect(s, None)
    ensures hw.gpioAvailable && pinOk ==> !r.next.isOn && r.attempted == Some(Low)
    ensures hw.gpioAvailable ==> r.attempted == Some(Low)
    ensures WriteFails(hw, pinOk) ==> r.next == s
  {
    if hw.gpioAvailable then TurnOff(s, hw, pinOk) else Effect(s, None)
  }

  // ---------------------------------------------------------------------------
  // Properties across operations.
  // ---------------------------------------------------------------------------

  /** The automatic switch-off never changes what the status reports. */
  lemma CheckKeepsStatus(s: Gpio, hw: Hardware, now: int, pinOk: bool)
    ensures Status(CheckAndTurnOff(s, hw, now, pinOk).next, hw, now) == Status(s, hw, now)
  {
  }

  /** The status already reads off once the period is over, before any
      switch-off has run. */
  lemma StatusExpiresByItself(s: Gpio, hw: Hardware, now: int)
    requires s.enabled && s.isOn && now - s.lastOnTime >= hw.onDuration
    ensures !Status(s, hw, now)
  {
  }

  /** A re-trigger while on restarts the period from the new time. */
  lemma RetriggerRefreshes(s: Gpio, hw: Hardware, t1: int, t2: int)
    requires s.enabled
    ensures var a := HandleDetection(s, hw, t1, true).next;
            var b := HandleDetection(a, hw, t2, true).next;
            b.isOn && b.lastOnTime == t2
  {
  }

  /** Unlike the LED controller, the output can stay on while disarmed: a
      disarm whose LOW write raises leaves it on. The next automatic switch-off
      after the period still turns it off, since that ignores the flag. */
  lemma DisarmedYetOn(hw: Hardware, t: int, later: int)
    requires hw.gpioAvailable && hw.onDuration > 0 && later - t >= hw.onDuration
    ensures var on := HandleDetection(SetEnabled(Gpio(false, false, 0), hw, true, true).next, hw, t, true).next;
            var off := SetEnabled(on, hw, false, false).next;
            && on.isOn && off.isOn && !off.enabled
            && !Status(off, hw, t)
            && !CheckAndTurnOff(off, hw, later, true).next.isOn
  {
  }

  // ---------------------------------------------------------------------------
  // The controller object.
  // ---------------------------------------------------------------------------

  class GPIOController {
    var enabled: bool
    var isOn: bool
    var lastOnTime: int
    const hw: Hardware
    /** The levels successfully driven onto the pin, in order. */
    ghost var pinWrites: seq<PinLevel>

    function State(): Gpio
      reads this
    {
      Gpio(enabled, isOn, lastOnTime)
    }

    /** Records a write that went through. */
    ghost method Drive(e: Effect, pinOk: bool)
      modifies this`pinWrites
      ensures pinWrites == old(pinWrites) + (if e.attempted.Some? && pinOk then [e.attempted.value] else [])
    {
      if e.attempted.Some? && pinOk {
        pinWrites := pinWrites + [e.attempted.value];
      }
    }

    /** Only constructed when the set-up did not raise. */
    constructor (hw: Hardware, setupOk: bool)
      requires Init(hw, setupOk).Some?
      ensures State() == Init(hw, setupOk).value && this.hw == hw && pinWrites == []
    {
      this.hw := hw;
      enabled := false;
      isOn := false;
      lastOnTime := 0;
      pinWrites := [];
    }

    method TurnOnNow(now: int, pinOk: bool)
      modifies this
      ensures var e := TurnOn(old(State()), hw, now, pinOk);
              State() == e.next
              && pinWrites == old(pinWrites) + (if e.attempted.Some? && pinOk then [e.attempted.value] else [])
    {
      ghost var e := TurnOn(State(), hw, now, pinOk);
      if !enabled {
        return;
      }
      if !(hw.gpioAvailable && !pinOk) {
        lastOnTime := now;
        isOn := true;
      }
      Drive(e, pinOk);
    }

    method TurnOffNow(pinOk: bool)
      modifies this
      ensures var e := TurnOff(old(State()), hw, pinOk);
              State() == e.next
              && pinWrites == old(pinWrites) + (if e.attempted.Some? && pinOk then [e.attempted.value] else [])
    {
      ghost var e := TurnOff(State(), hw, pinOk);
      if !(hw.gpioAvailable && !pinOk) {
        isOn := false;
      }
      Drive(e, pinOk);
    }

    method SetEnabledNow(enabled: bool, pinOk: bool)
      modifies this
      ensures var e := SetEnabled(old(State()), hw, enabled, pinOk);
              State() == e.next
              && pinWrites == old(pinWrites) + (if e.attempted.Some? && pinOk then [e.attempted.value] else [])
    {
      this.enabled := enabled;
      if !enabled {
        TurnOffNow(pinOk);
      }
    }

    method GetStatus(now: int) returns (status: bool)
      ensures status == Status(State(), hw, now)
    {
      if !enabled || !isOn {
        return false;
      }
      status := now - lastOnTime < hw.onDuration;
    }

    method CheckAndTurnOffNow(now: int, pinOk: bool)
      modifies this
      ensures var e := CheckAndTurnOff(old(State()), hw, now, pinOk);
              State() == e.next
              && pinWrites == old(pinWrites) + (if e.attempted.Some? && pinOk then [e.attempted.value] else [])
    {
      if isOn && now - lastOnTime >= hw.onDuration {
        TurnOffNow(pinOk);
      }
    }

    method HandleDetectionNow(now: int, pinOk: bool)
      modifies this
      ensures var e := HandleDetection(old(State()), hw, now, pinOk);
              State() == e.next
              && pinWrites == old(pinWrites) + (if e.attempted.Some? && pinOk then [e.attempted.value] else [])
    {
      if enabled {
        TurnOnNow(now, pinOk);
      }
    }

    method CleanupNow(pinOk: bool)
      modifies this
      ensures var e := Cleanup(old(State()), hw, pinOk);
              State() == e.next
              && pinWrites == old(pinWrites) + (if e.attempted.Some? && pinOk then [e.attempted.value] else [])
    {
      if hw.gpioAvailable {
        TurnOffNow(pinOk);
        // the pin is then released; its failure is caught
      }
    }
  }
}
