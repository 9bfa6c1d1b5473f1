/** What the user wants the charger to do, and what that puts on the wire. */
module Intents {
  import opened Prelude
  import opened Evidence

  const REG_WORK_MODE: nat := 0x3000
  const REG_MAX_CHARGING_CURRENT: nat := 0x3001
  const REG_MAX_CHARGING_POWER: nat := 0x3002
  const REG_ALLOWED_CHARGE_TIME: nat := 0x3003
  const REG_ALLOWED_CHARGE_ENERGY: nat := 0x3004
  const REG_TIME_VALIDITY: nat := 0x3005
  const REG_DEFAULT_CURRENT: nat := 0x3006
  const REG_AUTO_PHASE_SWITCH: nat := 0x300A
  const REG_MIN_SWITCH_INTERVAL: nat := 0x300B
  const REG_LOCK_CONTROL: nat := 0x4000
  const REG_CHARGING_CONTROL: nat := 0x4001
  const REG_PHASE_SWITCHING: nat := 0x4002
  const REG_MAX_POWER: nat := 0x1011
  const REG_LOCK_STATUS: nat := 0x100F
  const REG_PHASE_SEQUENCE: nat := 0x1010

  const MIN_ENABLE_POWER_RAW: nat := 14
  const MIN_CURRENT_RAW: nat := 60
  const MAX_CURRENT_RAW: nat := 320
  const STOP_COMMAND: nat := 2

  datatype Intent = Intent(
    enabled: bool,
    power: Option<nat>,
    current: Option<nat>,
    revision: nat,
    latched: bool,
    stop: bool,
    comms: bool)
  {
    /** The intent itself asks for no charging. */
    predicate ExplicitZero() {
      !enabled || latched || (power.Some? && power.value < MIN_ENABLE_POWER_RAW)
    }

    /** A fault latch with a cause other than lost communications. */
    predicate PermanentLatch() {
      latched && !comms
    }

    predicate CommsLatch() {
      latched && comms
    }

    /** Limits within the controller's sanity bounds; a comms cause needs a latch. */
    predicate WellFormed() {
      && (power.Some? ==> power.value <= MAX_POWER_RAW)
      && (current.Some? ==> MIN_CURRENT_RAW <= current.value <= MAX_CURRENT_RAW)
      && (comms ==> latched)
    }

    /** The output this intent permits, protective reasons aside. */
    function Allowed(): nat {
      if !enabled || latched || stop || power.None? || power.value < MIN_ENABLE_POWER_RAW then 0
      else power.value
    }

    /** The next revision of this intent. */
    function Next(): Intent {
      this.(revision := revision + 1)
    }
  }

  const INITIAL: Intent := Intent(false, None, None, 0, false, false, false)

  /** `power` and `current` to put on the wire; `None` is "do not write". */
  datatype Wire = Wire(power: Option<nat>, current: Option<nat>) {
    predicate Positive() {
      power.Some? && power.value > 0
    }
  }

  const SILENT: Wire := Wire(None, None)
  const ZERO: Wire := Wire(Some(0), None)

  function WireOf(i: Intent, isProtected: bool, released: bool): Wire {
    if i.stop || released then SILENT
    else if i.ExplicitZero() || isProtected then ZERO
    else Wire(i.power, i.current)
  }

  /** The fields an explicit command asks for; `None` leaves a field alone. */
  datatype Change = Change(
    enabled: Option<bool>,
    power: Option<nat>,
    current: Option<nat>,
    unlatch: bool)
  {
    /** `replace(intent, revision=..., **changes)`. */
    function Apply(i: Intent): Intent {
      Intent(enabled.GetOr(i.enabled),
             if power.Some? then power else i.power,
             if current.Some? then current else i.current,
             i.revision + 1,
             !unlatch && i.latched,
             !unlatch && i.stop,
             !unlatch && i.comms)
    }

    /** Put back, field by field, what still has the value this change gave it. */
    function Undo(before: Intent, i: Intent): Intent {
      Intent(if enabled == Some(i.enabled) then before.enabled else i.enabled,
             if power.Some? && power == i.power then before.power else i.power,
             if current.Some? && current == i.current then before.current else i.current,
             i.revision + 1,
             if unlatch && !i.latched then before.latched else i.latched,
             if unlatch && !i.stop then before.stop else i.stop,
             if unlatch && !i.comms then before.comms else i.comms)
    }
  }

  function EnableAt(power: nat): Change {
    Change(Some(true), Some(power), None, true)
  }

  const PAUSE_CHANGE: Change := Change(Some(false), None, None, false)

  function PowerTo(power: nat): Change {
    Change(None, Some(power), None, false)
  }

  function CurrentTo(current: nat): Change {
    Change(None, None, Some(current), false)
  }

  /** Whether going from `before` to `after` may let more output through. */
  predicate RaisesOutput(before: Intent, after: Intent) {
    || after.Allowed() > before.Allowed()
    || (after.Allowed() > 0 && after.current.Some? && before.current.Some?
        && after.current.value > before.current.value)
  }

  // ---- facts about the derivations ------------------------------------------------

  /** A positive value derives only from an intent that permits exactly that output,
      with nothing protective in the way. */
  lemma PositiveWire(i: Intent, isProtected: bool, released: bool)
    ensures WireOf(i, isProtected, released).Positive()
        <==> !isProtected && !released && i.Allowed() > 0
    ensures WireOf(i, isProtected, released).Positive()
        ==> WireOf(i, isProtected, released) == Wire(Some(i.Allowed()), i.current)
    ensures i.Allowed() > 0 ==> i.Allowed() >= MIN_ENABLE_POWER_RAW
  {
  }

  /** A zero on the wire never comes with a current. */
  lemma ZeroWire(i: Intent, isProtected: bool, released: bool)
    ensures WireOf(i, isProtected, released).power == Some(0) ==> WireOf(i, isProtected, released) == ZERO
  {
  }

  /** The zero is what goes out exactly if the intent asks for it or something protective
      forces it, and neither a Stop nor an unplugged cable silences the setpoints. */
  lemma ZeroExactly(i: Intent, isProtected: bool, released: bool)
    ensures WireOf(i, isProtected, released) == ZERO <==>
              && !i.stop && !released
              && (!i.enabled || i.latched || isProtected || (i.power.Some? && i.power.value < 14))
    ensures i.stop || released ==> WireOf(i, isProtected, released) == Wire(None, None)
  {
  }

  /** Undoing a failed command never turns charging on, never raises what the intent
      permits above what `before` or the present intent permits, and never clears a
      latch or a Stop fallback. */
  lemma UndoIsProtective(c: Change, before: Intent, i: Intent)
    requires c.enabled != Some(false)
    requires i.WellFormed() && before.WellFormed()
    requires RaisesOutput(before, i)
    ensures var u := c.Undo(before, i);
            && u.WellFormed()
            && (u.enabled ==> i.enabled)
            && (i.latched ==> u.latched) && (i.stop ==> u.stop)
            && i.Allowed() > 0
            && (u.Allowed() > 0 ==> u.Allowed() == i.Allowed() || Some(u.Allowed()) == before.power)
  {
  }

  /** Undoing right after the change, with nothing in between, restores every field but
      the revision. */
  lemma UndoInverts(c: Change, before: Intent)
    requires before.WellFormed()
    ensures c.Undo(before, c.Apply(before)) == before.(revision := before.revision + 2)
  {
  }

  /** "Unless something newer replaced them" is judged by value only: a second,
      successful enable between the first enable and its failed save is undone with it. */
  lemma UndoCancelsNewerEqualCommand(before: Intent, power: nat)
    requires !before.enabled && power >= MIN_ENABLE_POWER_RAW
    ensures var first := EnableAt(power).Apply(before);
            var second := EnableAt(power).Apply(first);
            && RaisesOutput(before, second)
            && !EnableAt(power).Undo(before, second).enabled
  {
  }

  /** What commands issued one after the other leave behind. */
  function After(i: Intent, newer: seq<Change>): Intent {
    if newer == [] then i else newer[|newer| - 1].Apply(After(i, newer[..|newer| - 1]))
  }

  /** What such commands ask for together: the last word on every field. */
  function Merged(newer: seq<Change>): Change {
    if newer == [] then Change(None, None, None, false)
    else
      var (d, m) := (newer[|newer| - 1], Merged(newer[..|newer| - 1]));
      Change(if d.enabled.Some? then d.enabled else m.enabled,
             if d.power.Some? then d.power else m.power,
             if d.current.Some? then d.current else m.current,
             d.unlatch || m.unlatch)
  }

  lemma {:induction false} AfterIsMerged(i: Intent, newer: seq<Change>)
    ensures After(i, newer) == Merged(newer).Apply(i).(revision := i.revision + |newer|)
  {
    if newer != [] { AfterIsMerged(i, newer[..|newer| - 1]); }
  }

  /** The intent is as d asks. */
  predicate Keeps(d: Change, i: Intent) {
    && (d.enabled.Some? ==> d.enabled.value == i.enabled)
    && (d.power.Some? ==> d.power == i.power)
    && (d.current.Some? ==> d.current == i.current)
    && (d.unlatch ==> !i.latched && !i.stop && !i.comms)
  }

  /** On no field did c ask for the very thing d asks for, unless that changed nothing. */
  predicate Apart(c: Change, before: Intent, d: Change) {
    && (d.enabled.Some? && c.enabled == d.enabled ==> before.enabled == d.enabled.value)
    && (d.power.Some? && c.power == d.power ==> before.power == d.power)
    && (d.current.Some? && c.current == d.current ==> before.current == d.current)
    && (d.unlatch && c.unlatch ==> !before.latched && !before.stop && !before.comms)
  }

  /** Exactly when whatever was asked for after a command survives the undo of that
      command: when the two do not ask for the same change of the same field. */
  lemma NewerCommandsSurvive(c: Change, before: Intent, newer: seq<Change>)
    ensures Keeps(Merged(newer), c.Undo(before, After(c.Apply(before), newer)))
        <==> Apart(c, before, Merged(newer))
  {
    AfterIsMerged(c.Apply(before), newer);
  }
}
