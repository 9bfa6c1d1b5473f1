/**
  The controller's run, as a journal of what it did and saw.

  Every intent change, dispatched write, read-back and status frame is one entry.
  `At` folds a journal into the state it implies; `Permitted` says which entry may come
  next in such a state.  The controller class proves that every entry it ever makes is
  permitted; the theorems in `JournalTheorems` say what that means for whole runs.
 */
module Journal {
  import opened Prelude
  import opened Evidence
  import opened Intents
  import Telemetry
  import Unplug
  import LinkHealth

  /** The lock-holding operations. */
  datatype Op = Setup | Apply | Refresh | Poll | Observe | Register

  datatype Cause =
    | Enable | Pause | SetPower | SetCurrent | Undo             // commands, no lock needed
    | Latch | Unstoppable                                       // fault latch
    | StopConfirmed
    | Revoked | SessionEnded
    | Adopted | LinkReleased
    | Restored | Settled                                        // initialization

  datatype Outcome = Confirmed | Staged | Superseded | Failed

  datatype Entry =
    | Began(op: Op)
    | Ended
    | Reported(outcome: Outcome)                  // how an apply ended
    | Ready                                       // initialization is complete
    | Changed(cause: Cause, intent: Intent)
    | EnableDone                                  // an explicit enable command ended
    | Wrote(address: nat, value: nat)             // dispatched, whatever comes of it
    | ReadBack(register: nat, result: Option<nat>)
    | Frame(ev: Evidence)                         // a status frame that was judged
    | Peeked(ev: Evidence)                        // a status frame that was only looked at
    | SessionChecked(ev: Evidence)                // does the session still run?
    | Tracked(look: Unplug.Look)
    | Linked(seen: LinkHealth.Look)
    | SafetyPending
    | SafetyConfirmed
    | Decided(at: real)                           // a refresh settled what to write
    | Held(at: real)                              // ... or held its protective zero back
    | AllReadBack                                 // a refresh read back all it wrote
    | Unmatched(at: real)                         // ... or not all of it
    | Ignored                                     // the charger ignores what is written
    | Unconfirmed                                 // the last write was never read back
    | Spared                                      // no look at the charger: Stop is in force
    | Started(session: bool)                      // a start is confirmed, or staged

  predicate IsCommand(c: Cause) {
    c in {Enable, Pause, SetPower, SetCurrent, Undo}
  }

  // ---- what the running operation rests on ------------------------------------------

  datatype Running = Running(
    op: Op,
    asked: Wire,                    // what was wanted on the wire when it began
    pause: bool,                    // ... a zero that the intent itself asked for
    enables: nat,                   // explicit enables issued when it began
    commands: nat,                  // command changes made when it began
    frame: Option<Evidence>,        // the frame its positive writes rest on
    frameEnables: nat,              // explicit enables issued when that frame arrived
    checked: bool,                  // it checked whether the session still runs
    tracked: bool,                  // ... and then tracked the cable
    decided: bool,                  // ... and then, a refresh, decided what to write
    revoked: bool,                  // it withdrew the enable and owes a zero
    concluded: bool)                // it reported (an apply) or checked the link
  {
    /** A refresh and a poll rest on the frame they opened with, anything else on the
        latest. */
    predicate Keeps() {
      op in {Refresh, Poll} && frame.Some?
    }

    function See(ev: Evidence, enables: nat): Running {
      if Keeps() then this
      else this.(frame := Some(ev), frameEnables := enables)
    }

    /** The frame shows a session, or an unplugged cable. */
    predicate Shows(session: bool) {
      frame.Some? && if session then frame.value.SessionActive() else frame.value.CableOut()
    }
  }

  function Opened(op: Op, asked: Wire, pause: bool, enables: nat, commands: nat): Running {
    Running(op, asked, pause, enables, commands, None, 0, false, false, false, false, false)
  }

  // ---- evidence that a pause took effect --------------------------------------------

  datatype Settling = Settling(
    zeroSent: bool,                 // the last setpoint written was zero
    zeroBack: bool,                 // 0x3002 was read back as zero after such a write
    stopSent: bool,                 // 0x4001 Stop was written
    since: Option<real>,            // start of the unbroken run of quiet frames
    settled: bool)                  // that run spans a second
  {
    /** What counts as quiet: stricter once Stop had to be sent. */
    predicate Quiet(ev: Evidence) {
      zeroBack && (if stopSent then ev.StoppedQuiet() else ev.PausedQuiet())
    }

    function See(ev: Evidence): Settling {
      if !Quiet(ev) then this.(since := None, settled := false)
      else if since.None? then this.(since := Some(ev.at), settled := false)
      else this.(settled := ev.at - since.value >= OBSERVATION_GAP)
    }

    function Write(address: nat, value: nat): Settling {
      if address == REG_MAX_CHARGING_POWER then
        if value == 0 then this.(zeroSent := true) else UNSETTLED.(stopSent := stopSent)
      else if address == REG_CHARGING_CONTROL then
        this.(stopSent := true, since := None, settled := false)
      else this
    }

    function Read(register: nat, result: Option<nat>): Settling {
      if register == REG_MAX_CHARGING_POWER && result == Some(0) && zeroSent && !zeroBack
      then this.(zeroBack := true, since := None, settled := false)
      else this
    }
  }

  const UNSETTLED: Settling := Settling(false, false, false, None, false)

  /** Whether 0x4001 Stop took effect, whatever became of the zero. */
  datatype Halt = Halt(
    sent: bool,                     // Stop was written
    since: Option<real>,            // start of the unbroken run of stopped frames since
    settled: bool)                  // that run spans a second
  {
    function See(ev: Evidence): Halt {
      if !sent || !ev.StoppedQuiet() then this.(since := None, settled := false)
      else if since.None? then this.(since := Some(ev.at), settled := false)
      else this.(settled := ev.at - since.value >= OBSERVATION_GAP)
    }

    function Write(address: nat): Halt {
      if address == REG_CHARGING_CONTROL then Halt(true, None, false) else this
    }
  }

  const NO_STOP: Halt := Halt(false, None, false)

  // ---- what a zero still needs ------------------------------------------------------

  /** A zero that has to reach the charger: it has to be written, then read back or given
      up, and then the charger has to be looked at. */
  datatype Debt = Clear | ZeroDue | ProofDue | LookDue {
    function Write(address: nat, value: nat): Debt {
      if ZeroDue? && address == REG_MAX_CHARGING_POWER && value == 0 then ProofDue else this
    }

    function Read(register: nat, result: Option<nat>): Debt {
      if ProofDue? && register == REG_MAX_CHARGING_POWER && result == Some(0) then Clear else this
    }

    function GiveUp(): Debt {
      if ProofDue? then LookDue else this
    }

    function Look(): Debt {
      if LookDue? then Clear else this
    }

    /** Writes and read-backs only settle it. */
    predicate Eases(later: Debt) {
      match this
      case Clear => later.Clear?
      case ZeroDue => !later.LookDue?
      case ProofDue => later.ProofDue? || later.Clear?
      case LookDue => later.LookDue?
    }
  }

  // ---- evidence that what was written took effect -------------------------------------

  const SAFETY_VALIDITY: nat := 60
  const MAX_FIXED_VALIDITY: nat := 180
  const SAFETY_FALLBACK_CURRENT_RAW: nat := 60

  /** What the running operation read back: of the safety configuration, of the validity at
      all, and of the setpoints an apply was started for. */
  datatype Proof = Proof(validity: bool, fallback: bool, timed: bool, output: bool, current: bool) {
    /** `shown` tells whether this is what was written last. */
    function Read(register: nat, result: Option<nat>, shown: bool, asked: Wire): Proof {
      Proof(
        validity || (register == REG_TIME_VALIDITY && result.Some? && 0 < result.value <= MAX_FIXED_VALIDITY),
        fallback || (register == REG_DEFAULT_CURRENT && result == Some(SAFETY_FALLBACK_CURRENT_RAW)),
        timed || register == REG_TIME_VALIDITY,
        output || (shown && register == REG_MAX_CHARGING_POWER && result == asked.power),
        current || (shown && register == REG_MAX_CHARGING_CURRENT && result == asked.current))
    }

    predicate Complete() {
      validity && fallback
    }

    predicate Within(later: Proof) {
      && (validity ==> later.validity) && (fallback ==> later.fallback) && (timed ==> later.timed)
      && (output ==> later.output) && (current ==> later.current)
    }

    /** Every setpoint of this wire was read back. */
    predicate Covers(wire: Wire) {
      (wire.power.Some? ==> output) && (wire.current.Some? ==> current)
    }
  }

  const UNPROVEN: Proof := Proof(false, false, false, false, false)

  // ---- whether what was written was read back -----------------------------------------

  /** The last write, whether its read-back is still due, and whether an earlier one never
      came. */
  datatype Tally = Tally(last: Option<(nat, nat)>, open: bool, missed: bool) {
    function Write(address: nat, value: nat): Tally {
      Tally(Some((address, value)), true, missed || open)
    }

    function Read(register: nat, result: Option<nat>): Tally {
      if last.Some? && last.value.0 == register && result == Some(last.value.1) then this.(open := false) else this
    }

    /** Something was written, and everything written was read back. */
    predicate Clean() {
      last.Some? && !open && !missed
    }

    /** The last write was this one, and it was read back. */
    predicate Shows(address: nat, value: nat) {
      last == Some((address, value)) && !open
    }
  }

  const NOTHING_SENT: Tally := Tally(None, false, false)

  /** How far a refresh is with what it decided. */
  datatype Course = Course(
    commands: nat,                  // command changes made when it decided
    power: Option<nat>,             // the positive 0x3002 value it has yet to write
    judged: bool)                   // it judged what it read back
  {
    function Write(address: nat, value: nat): Course {
      if address == REG_MAX_CHARGING_POWER && power == Some(value) then this.(power := None) else this
    }

    predicate Leads(later: Course) {
      later.commands == commands && (power.None? ==> later.power.None?) && (judged ==> later.judged)
    }
  }

  const NO_COURSE: Course := Course(0, None, false)

  const IGNORED_AFTER: real := 60.0

  /** The run of refreshes that did not read back what they wrote. */
  datatype Missed = Missed(since: Option<real>, count: nat) {
    function Miss(at: real): Missed {
      Missed(if since.None? then Some(at) else since, count + 1)
    }

    /** For at least as long as the firmware would have kept a setpoint. */
    predicate Overdue(clock: real) {
      count >= 2 && since.Some? && clock - since.value >= IGNORED_AFTER
    }
  }

  const NONE_MISSED: Missed := Missed(None, 0)

  // ---- what has to happen next, before anything else --------------------------------

  datatype Owed = Nothing | FaultLatch | LinkLatch | SessionEnd | Write(address: nat, value: nat)

  /** What has to happen before anything else, and what just this once may happen. */
  datatype Turn = Turn(owed: Owed, adoptable: bool, releasable: bool)

  const FREE: Turn := Turn(Nothing, false, false)

  function Owing(owed: Owed): Turn {
    Turn(owed, false, false)
  }

  // ---- the state a journal implies --------------------------------------------------

  /** What the controller keeps in fields of its own. */
  datatype Books = Books(
    grace: real,
    tel: Telemetry.State,
    safety: bool,                   // safety configuration unconfirmed
    track: Unplug.State,
    link: Option<real>,
    hold: Option<real>,             // start of the running recovery hold
    staged: bool,                   // a start waits for the cable to be plugged in
    missed: Missed,                 // refreshes the charger ignored
    ready: bool)

  /** What the running operation wrote, what shows that it took effect, and what it still
      has to do. */
  datatype Work = Work(
    quiet: Settling,
    halt: Halt,
    proof: Proof,
    tally: Tally,                   // the writes since the operation began or decided
    course: Course,
    debt: Debt,
    failed: bool)                   // a write was given up
  {
    /** Within one operation, between its decisions, what is known or begun stays so. */
    predicate Leads(later: Work) {
      && proof.Within(later.proof) && course.Leads(later.course)
      && (failed ==> later.failed) && (halt.sent ==> later.halt.sent)
      && (tally.last.Some? ==> later.tally.last.Some?)
    }
  }

  const NO_WORK: Work := Work(UNSETTLED, NO_STOP, UNPROVEN, NOTHING_SENT, NO_COURSE, Clear, false)

  datatype Mon = Mon(
    clock: real,                    // no entry is stamped later than this
    intent: Intent,
    enables: nat,                   // explicit enables issued so far
    commands: nat,                  // command changes (and undos) so far
    flying: nat,                    // explicit enables that have not ended
    run: Option<Running>,
    begun: seq<Op>,                 // the operations so far, the running one included
    stopAt: Option<nat>,            // `enables` when Stop was last confirmed
    books: Books,
    work: Work,
    turn: Turn)
  {
    const grace := books.grace
    const tel := books.tel
    const safety := books.safety
    const track := books.track
    const link := books.link
    const hold := books.hold
    const staged := books.staged
    const ready := books.ready
    const quiet := work.quiet
    const proof := work.proof
    const tally := work.tally
    const halt := work.halt
    const course := work.course
    const debt := work.debt
    const missed := books.missed
    const owed := turn.owed
    const adoptable := turn.adoptable
    const releasable := turn.releasable

    predicate Protected() {
      tel.protected || safety
    }

    function Wire(): Wire {
      WireOf(intent, Protected(), track.released)
    }

    predicate In(op: Op) {
      run.Some? && run.value.op == op
    }

    /** The running operation rests on this frame. */
    predicate Sees(ev: Evidence) {
      run.Some? && run.value.frame == Some(ev)
    }

    /** A confirmed Stop with no explicit enable since. */
    predicate Stopped() {
      stopAt == Some(enables)
    }

    /** What was counted or stamped earlier is no later than the present, and a confirmed Stop
        with no explicit enable since is in force. */
    predicate Ordered() {
      && (Stopped() ==> intent.stop)
      && (stopAt.Some? ==> stopAt.value <= enables)
      && (run.Some? ==> run.value.enables <= enables && run.value.commands <= commands)
      && (run.Some? && run.value.frame.Some? ==> run.value.frameEnables <= enables)
      && (quiet.since.Some? ==> quiet.since.value <= clock)
    }

    /** The frame a positive setpoint may rest on in the running operation. */
    predicate Authorized() {
      && run.Some? && run.value.frame.Some?
      && var ev := run.value.frame.value;
         && ev.Valid()
         && (ev.fault.value == 0 || enables > run.value.frameEnables)
         && ((In(Refresh) && ev.SessionActive()) || (In(Apply) && !ev.Refusing()))
    }

    /** An operation starting now; an apply that finds a zero or a Stop owes it to the
        charger. */
    function Opening(op: Op): Running {
      Opened(op, Wire(), Wire() == ZERO && intent.ExplicitZero(), enables, commands)
    }

    function FirstWork(op: Op): Work {
      NO_WORK.(debt := if !op.Apply? then Clear else if intent.stop then LookDue
                       else if Wire() == ZERO then ZeroDue else Clear)
    }

    /** The intent permits output, and no explicit enable in flight answers for it. */
    predicate Judges(ev: Evidence) {
      && ev.Valid() && intent.enabled && !intent.ExplicitZero() && !intent.stop
      && flying == 0
    }

    /** ... nor one staged until the cable is plugged in: only a session would justify it. */
    predicate Outlives(ev: Evidence) {
      Judges(ev) && !ev.SessionActive() && !staged
    }

    /** A refresh and a poll look once, and again only while they stop what they withdrew. */
    predicate MayLook() {
      run.Some? && (run.value.Keeps() ==> run.value.revoked)
    }

    predicate MayWatch() {
      run.Some? && (run.value.op in {Refresh, Poll} ==> run.value.revoked)
    }

    /** An apply that failed, or a refresh or a poll that sees an enabled session stuck in
        starting, may withdraw the enable. */
    predicate MayRevoke() {
      In(Apply) || ((In(Refresh) || In(Poll)) && Stuck())
    }

    predicate Stuck() {
      && run.Some? && run.value.frame.Some? && run.value.frame.value.Starting()
      && intent.enabled && !intent.ExplicitZero() && !intent.stop
    }

    /** What was read back, after this read. */
    function Proven(register: nat, result: Option<nat>): Proof {
      proof.Read(register, result, result.Some? && tally.last == Some((register, result.value)),
                 if run.Some? then run.value.asked else SILENT)
    }

    /** The frame of the running operation shows a session. */
    predicate InSession() {
      run.Some? && run.value.frame.Some? && run.value.frame.value.SessionActive()
    }

    /** The write a refresh that decides now has to dispatch first. */
    function Due(): Owed {
      if Wire() == ZERO then Owed.Write(REG_MAX_CHARGING_POWER, 0)
      else if Wire().Positive() && !InSession() then
        if run.Some? && run.value.frame.Some? && run.value.frame.value.Valid()
        then Owed.Write(REG_MAX_CHARGING_POWER, 0) else Nothing
      else if Wire().current.Some? then Owed.Write(REG_MAX_CHARGING_CURRENT, Wire().current.value)
      else if Wire().power.Some? then Owed.Write(REG_MAX_CHARGING_POWER, Wire().power.value)
      else Nothing
    }

    /** ... and the positive value it must not end without. */
    function Ahead(): Option<nat> {
      if Wire().Positive() && InSession() then Wire().power else None
    }

    /** A command came after the refresh decided. */
    predicate Overtaken() {
      commands > course.commands
    }

    /** What the refresh decided on is written, unless a command overtook it. */
    predicate Through() {
      course.power.Some? ==> Overtaken()
    }

    /** ... and what was read back of it was judged. */
    predicate Judged() {
      tally.last.Some? ==> course.judged || Overtaken()
    }

    /** Only the telemetry protection stands between a running session and its setpoint, and
        no hold is overdue: this is no time for a zero. */
    predicate MustHold(at: real) {
      && tel.protected && !safety && InSession()
      && !intent.ExplicitZero() && !intent.stop && !track.released
      && intent.power.GetOr(0) >= MIN_ENABLE_POWER_RAW
      && (hold.Some? ==> at - hold.value < grace)
    }

    /** What has to follow when a write or the whole cap could not be confirmed: a latch, or
        at least its zero. */
    function LinkOwed(): Owed {
      if !intent.latched then LinkLatch
      else if intent.stop then Nothing
      else Owed.Write(REG_MAX_CHARGING_POWER, 0)
    }

    /** What has to follow a look at a charger that draws against the intent. */
    function StopOwed(ev: Evidence): Owed {
      if run.Some? && ev.Drawing() && intent.ExplicitZero()
      then Owed.Write(REG_CHARGING_CONTROL, STOP_COMMAND) else Nothing
    }

    /** Stop may be tried: the charger was seen drawing, Stop was tried already, or a zero
        that was read back does not show. */
    predicate MayStop() {
      owed.Write? || halt.sent || (In(Apply) && quiet.zeroBack && !quiet.settled)
    }

    /** A zero is owed, or what is wanted on the wire, or the enable was withdrawn. */
    predicate MayZero() {
      run.Some? && (owed.Write? || run.value.revoked || Wire() == ZERO)
    }

    /** A command came after the operation began. */
    predicate Moved() {
      run.Some? && commands > run.value.commands
    }

    /** Unless a command came since the operation began, this is wanted on the wire. */
    predicate Wants(wire: Wire) {
      run.Some? && (!Moved() ==> Wire() == wire)
    }

    function AfterWrite(address: nat, value: nat): Work {
      Work(quiet.Write(address, value), halt.Write(address), proof, tally.Write(address, value),
           course.Write(address, value), debt.Write(address, value), work.failed)
    }

    function AfterRead(register: nat, result: Option<nat>): Work {
      Work(quiet.Read(register, result), halt, Proven(register, result), tally.Read(register, result),
           course, debt.Read(register, result), work.failed)
    }

    /** The state after an entry that owes and permits nothing special. */
    function Plain(): Mon {
      this.(turn := FREE)
    }
  }

  function Start(grace: real): Mon {
    Mon(0.0, INITIAL, 0, 0, 0, None, [], None,
        Books(grace, Telemetry.FRESH, false, Unplug.IDLE, None, None, false, NONE_MISSED, false), NO_WORK, FREE)
  }

  function StepChanged(m: Mon, cause: Cause, intent: Intent): Mon {
    m.(
      intent := intent,
      run := RunAfter(m, cause),
      enables := if cause == Enable then m.enables + 1 else m.enables,
      commands := if IsCommand(cause) then m.commands + 1 else m.commands,
      flying := if cause == Enable then m.flying + 1 else m.flying,
      stopAt := if cause == StopConfirmed then Some(m.enables) else m.stopAt,
      work := WorkAfter(m, cause),
      turn := Owing(if cause == Latch && !intent.stop then Owed.Write(REG_MAX_CHARGING_POWER, 0) else Nothing))
  }

  /** A withdrawn enable leaves a zero to be written. */
  function WorkAfter(m: Mon, cause: Cause): Work {
    if cause == Revoked then m.work.(debt := ZeroDue) else m.work
  }

  function StepDecided(m: Mon, at: real, power: Option<nat>): Mon {
    m.(
      clock := Max(m.clock, at),
      run := if m.run.Some? then Some(m.run.value.(decided := true)) else None,
      work := m.work.(tally := NOTHING_SENT, course := Course(m.commands, power, false)))
  }

  function StepFrame(m: Mon, ev: Evidence): Mon {
    var tel := Telemetry.Step(m.tel, ev, m.grace);
    m.(
      clock := Max(m.clock, ev.at),
      run := if m.run.Some? then Some(m.run.value.See(ev, m.enables)) else None,
      books := m.books.(tel := tel, hold := if m.tel.protected && !tel.protected then None else m.hold),
      work := m.work.(quiet := m.quiet.See(ev), halt := m.halt.See(ev)),
      turn := Owing(if ev.Faulted() && !m.intent.PermanentLatch() then FaultLatch else Nothing))
  }

  function Step(m: Mon, e: Entry): Mon {
    match e
    case Began(op) =>
      m.Plain().(run := Some(m.Opening(op)), begun := m.begun + [op], work := m.FirstWork(op))
    case Ended => m.Plain().(run := None)
    case Reported(_) => m.Plain().(run := if m.run.Some? then Some(m.run.value.(concluded := true)) else None)
    case Ready => m.Plain().(books := m.books.(ready := true))
    case Changed(cause, intent) => StepChanged(m, cause, intent)
    case EnableDone => m.Plain().(flying := if m.flying > 0 then m.flying - 1 else 0)
    case Wrote(address, value) => m.Plain().(work := m.AfterWrite(address, value))
    case ReadBack(register, result) => m.Plain().(work := m.AfterRead(register, result))
    case Frame(ev) => StepFrame(m, ev)
    case Peeked(ev) =>
      m.(clock := Max(m.clock, ev.at), work := m.work.(debt := m.debt.Look()), turn := Owing(m.StopOwed(ev)))
    case Spared => m.Plain().(work := m.work.(debt := m.debt.Look()))
    case Unconfirmed => m.(work := m.work.(debt := m.debt.GiveUp(), failed := true), turn := Owing(m.LinkOwed()))
    case SessionChecked(ev) =>
      m.(run := if m.run.Some? then Some(m.run.value.(checked := true)) else None,
         books := m.books.(staged := m.staged && !(m.Judges(ev) && ev.cable == Some(1))),
         turn := Owing(if m.Outlives(ev) then SessionEnd else Nothing))
    case Tracked(look) =>
      m.(run := if m.run.Some? then Some(m.run.value.(tracked := true)) else None,
         books := m.books.(track := Unplug.Step(m.track, look)),
         turn := FREE.(adoptable := Unplug.Adopts(m.track, look)))
    case Linked(seen) =>
      m.(run := if m.run.Some? then Some(m.run.value.(concluded := true)) else None,
         books := m.books.(link := LinkHealth.Step(m.link, seen)),
         turn := FREE.(releasable := LinkHealth.Fires(m.link, seen)))
    case SafetyPending => m.Plain().(books := m.books.(safety := true))
    case SafetyConfirmed => m.Plain().(books := m.books.(safety := false))
    case Decided(at) => StepDecided(m, at, m.Ahead()).(turn := Owing(m.Due()))
    case Held(at) =>
      StepDecided(m, at, None).(books := m.books.(hold := if m.hold.None? then Some(at) else m.hold), turn := FREE)
    case AllReadBack =>
      m.Plain().(books := m.books.(hold := None, missed := NONE_MISSED),
                 work := m.work.(course := m.course.(judged := true)))
    case Unmatched(at) =>
      m.Plain().(clock := Max(m.clock, at), books := m.books.(missed := m.missed.Miss(at)),
                 work := m.work.(course := m.course.(judged := true)))
    case Ignored =>
      m.(books := m.books.(missed := NONE_MISSED), work := m.work.(course := m.course.(judged := true)),
         turn := Owing(m.LinkOwed()))
    case Started(session) => m.Plain().(books := m.books.(staged := !session))
  }

  /** The state after the first n entries. */
  function At(j: seq<Entry>, n: nat, grace: real): Mon
    requires n <= |j|
  {
    if n == 0 then Start(grace) else Step(At(j, n - 1, grace), j[n - 1])
  }

  // ---- which entry may come next ----------------------------------------------------

  predicate ChangePermitted(m: Mon, cause: Cause, a: Intent) {
    var b := m.intent;
    && a.WellFormed()
    && (m.owed.Nothing? || ((m.owed.FaultLatch? || m.owed.LinkLatch?) && cause == Latch)
        || (m.owed.SessionEnd? && cause == SessionEnded))
    && match cause
       case Enable => m.ready && !m.safety && a.power.Some? && a == EnableAt(a.power.value).Apply(b)
       case Pause => m.ready && a == PAUSE_CHANGE.Apply(b)
       case SetPower => m.ready && a.power.Some? && a == PowerTo(a.power.value).Apply(b)
       case SetCurrent => m.ready && a.current.Some? && a == CurrentTo(a.current.value).Apply(b)
       case Undo => m.ready && b.Allowed() > 0 && (a.enabled ==> b.enabled)
       case Latch => (m.owed.FaultLatch? || m.owed.LinkLatch?)
                     && a == b.Next().(latched := true, comms := m.owed.LinkLatch?)
                     && (a.comms ==> !b.PermanentLatch())
       case Unstoppable => m.halt.sent && a == b.Next().(latched := true, comms := false)
       case StopConfirmed => m.halt.settled && a == b.Next().(stop := true, comms := false)
       case Revoked => m.MayRevoke() && m.debt.Clear? && a == b.Next().(enabled := false)
       case SessionEnded => m.owed.SessionEnd? && a == b.Next().(enabled := false)
       case Adopted => m.adoptable && a == b.Next().(enabled := true)
       case LinkReleased =>
         m.releasable && b.CommsLatch() && a == b.Next().(enabled := false, latched := false, comms := false)
       case Restored => !m.ready && m.stopAt.None?
       case Settled => a == b.Next()
  }

  predicate WritePermitted(m: Mon, address: nat, value: nat) {
    && m.run.Some?
    && (m.owed.Nothing? || m.owed == Owed.Write(address, value))
    && (address == REG_MAX_CHARGING_POWER && value > 0 ==>
          && m.Wire().Positive() && m.Wire().power == Some(value)
          && m.Authorized())
    && (address == REG_MAX_CHARGING_CURRENT ==>
          && m.Wire() != ZERO && m.Wire().current == Some(value))
    && (address in {REG_MAX_CHARGING_CURRENT, REG_MAX_CHARGING_POWER} ==> !m.Stopped())
    && (address == REG_CHARGING_CONTROL ==> value == STOP_COMMAND && m.intent.ExplicitZero() && m.MayStop())
    && (m.debt.ZeroDue? ==> address == REG_MAX_CHARGING_POWER && value == 0)
    && (address == REG_MAX_CHARGING_POWER && value == 0 ==> m.MayZero())
  }

  /** How an apply may report: not while a zero or a look is still due. */
  predicate ReportPermitted(m: Mon, outcome: Outcome) {
    && m.In(Apply) && !m.debt.ZeroDue? && !m.debt.LookDue? && (m.run.value.revoked ==> m.debt.Clear?)
    && (outcome != Superseded ==> m.debt.Clear?)
    && match outcome
       case Confirmed => MayConfirm(m, m.run.value)
       case Staged =>
         && m.run.value.Shows(false) && m.staged
         && m.proof.Covers(m.run.value.asked) && m.run.value.asked != ZERO
       case Superseded => m.run.value.asked != SILENT ==> m.Moved()
       case Failed => MayFail(m, m.run.value)
  }

  /** Every setpoint asked for was read back; without a command in between, a pause has
      settled; otherwise the latest frame shows the session. */
  predicate MayConfirm(m: Mon, r: Running) {
    && m.proof.Covers(r.asked)
    && (r.pause && !m.Moved() ==> m.quiet.settled)
    && (r.asked == ZERO ==> m.quiet.zeroBack)
    && (r.asked != ZERO && r.asked != SILENT ==> r.Shows(true) && !m.staged)
  }

  /** A start that failed was withdrawn, or its write was given up; without an enable in
      between, nothing positive derives from what is left.  A zero that failed was given up,
      or Stop was tried; a pause without a command in between is latched then. */
  predicate MayFail(m: Mon, r: Running) {
    && (r.revoked || m.work.failed || m.halt.sent)
    && (r.asked.Positive() ==> r.revoked || m.work.failed)
    && (r.asked == ZERO ==> m.work.failed || m.halt.sent)
    && (r.asked.Positive() && m.enables == r.enables ==> !m.Wire().Positive())
    && (r.pause && !m.Moved() ==> m.intent.latched)
  }

  /** A refresh decides once, on the frame it tracked, after it read the validity. */
  predicate MayDecide(m: Mon, at: real) {
    m.In(Refresh) && m.run.value.tracked && !m.run.value.decided && m.proof.timed && at >= m.clock
  }

  /** A refresh that has judged what it read back, and answered for what the charger
      ignored. */
  predicate MayClose(m: Mon) {
    && m.In(Refresh) && m.run.value.decided && m.debt.Clear? && m.Through()
    && m.Judged() && !m.missed.Overdue(m.clock)
  }

  predicate LinkPermitted(m: Mon, seen: LinkHealth.Look) {
    && m.Sees(seen.ev)
    && (seen.Polled? ==> m.In(Poll))
    && (seen.Refreshed? ==> MayClose(m))
    && (seen.Refreshed? && seen.zeroConfirmed ==> m.quiet.zeroBack)
    && (seen.CutShort? ==> m.In(Refresh) && m.run.value.checked && m.run.value.revoked && seen.ev.Starting())
    && (seen.CutShort? || seen.comms == m.intent.CommsLatch())
  }

  /** No operation ends half-way: an apply reports, a refresh and a poll check the link
      (a refresh after it decided and wrote, unless withdrawing an enable cut it short), and
      no zero is left to be written, confirmed or followed up. */
  predicate MayEnd(m: Mon, r: Running) {
    && (if r.op.Apply? then r.revoked ==> m.debt.Clear? else m.debt.Clear?)
    && match r.op
       case Apply => r.concluded
       case Refresh => r.concluded && m.Through()
       case Poll => r.checked && r.concluded && (r.tracked || r.revoked)
       case Observe => r.checked
       case _ => m.tally.last.Some?
  }

  /** Neither an intent change nor a write: it has to wait for what is owed. */
  predicate NotePermitted(m: Mon, e: Entry) {
    && m.owed.Nothing?
    && match e
       case Began(op) => m.run.None? && if op.Setup? then m.safety else m.ready
       case Ended => m.run.Some? && MayEnd(m, m.run.value)
       case Reported(outcome) => ReportPermitted(m, outcome)
       case Ready => !m.ready
       case EnableDone => m.flying > 0
       case Frame(ev) => m.MayLook() && ev.at >= m.clock
       case Peeked(ev) => ev.at >= m.clock
       case SessionChecked(ev) => m.Sees(ev)
       case Tracked(look) =>
         && m.Sees(look.ev) && m.run.value.checked
         && look.userPause == (m.intent.ExplicitZero() && !m.intent.latched && !m.intent.stop)
       case Linked(seen) => LinkPermitted(m, seen)
       case SafetyPending => !m.ready
       case SafetyConfirmed => m.run.Some? && m.proof.Complete()
       case Decided(at) => MayDecide(m, at) && !m.MustHold(at)
       case Held(at) => MayDecide(m, at) && m.MustHold(at)
       case AllReadBack => m.In(Refresh) && m.run.value.decided && !m.course.judged && m.tally.Clean()
       case Unmatched(at) =>
         && m.In(Refresh) && m.run.value.decided && !m.course.judged && at >= m.clock
         && m.tally.last.Some? && !m.tally.Clean()
       case Ignored => m.In(Refresh) && m.run.value.decided && m.missed.count >= 2
       case Unconfirmed => m.run.Some? && m.tally.open
       case Spared => m.intent.stop && m.work.failed && m.debt.LookDue?
       case Started(session) => m.In(Apply) && m.run.value.Shows(session)
       case _ => true
  }

  predicate Permitted(m: Mon, e: Entry) {
    if e.Changed? then ChangePermitted(m, e.cause, e.intent)
    else if e.Wrote? then WritePermitted(m, e.address, e.value)
    else NotePermitted(m, e)
  }

  ghost predicate PermittedAt(j: seq<Entry>, i: nat, grace: real)
    requires i < |j|
  {
    Permitted(At(j, i, grace), j[i])
  }

  /** Every entry was permitted when it was made. */
  ghost predicate Accepted(j: seq<Entry>, grace: real) {
    forall i :: 0 <= i < |j| ==> PermittedAt(j, i, grace)
  }

  lemma {:induction false} AtGrows(j: seq<Entry>, e: Entry, n: nat, grace: real)
    requires n <= |j|
    ensures At(j + [e], n, grace) == At(j, n, grace)
  {
    if n > 0 { AtGrows(j, e, n - 1, grace); }
  }

  lemma AcceptedGrows(j: seq<Entry>, e: Entry, grace: real)
    requires Accepted(j, grace) && Permitted(At(j, |j|, grace), e)
    ensures Accepted(j + [e], grace)
    ensures At(j + [e], |j| + 1, grace) == Step(At(j, |j|, grace), e)
  {
    var n := j + [e];
    forall i | 0 <= i < |n| ensures PermittedAt(n, i, grace) {
      AtGrows(j, e, i, grace);
      if i < |j| { assert PermittedAt(j, i, grace); }
    }
    AtGrows(j, e, |j|, grace);
  }

  lemma ChangeKeepsOrder(m: Mon, cause: Cause, a: Intent)
    requires m.Ordered() && ChangePermitted(m, cause, a)
    ensures StepChanged(m, cause, a).Ordered()
  {
  }

  lemma FrameKeepsOrder(m: Mon, ev: Evidence)
    requires m.Ordered()
    ensures StepFrame(m, ev).Ordered()
  {
  }

  /** Every permitted entry keeps the state in order. */
  lemma EntryKeepsOrder(m: Mon, e: Entry)
    requires m.Ordered() && Permitted(m, e)
    ensures Step(m, e).Ordered()
  {
    match e
    case Changed(cause, a) => ChangeKeepsOrder(m, cause, a);
    case Frame(ev) => FrameKeepsOrder(m, ev);
    case _ =>
  }

  /** An accepted journal, and the state after its last entry. */
  ghost predicate Ledger(j: seq<Entry>, m: Mon, grace: real) {
    forall n: nat :: n == |j| ==> LedgerAt(j, n, m, grace)
  }

  ghost predicate LedgerAt(j: seq<Entry>, n: nat, m: Mon, grace: real) {
    n <= |j| && Accepted(j, grace) && m == At(j, n, grace)
  }

  lemma LedgerOpens(grace: real)
    ensures Ledger([], Start(grace), grace)
  {
  }

  lemma LedgerGrows(j: seq<Entry>, m: Mon, e: Entry, grace: real)
    requires Ledger(j, m, grace) && Permitted(m, e)
    ensures Ledger(j + [e], Step(m, e), grace)
  {
    assert LedgerAt(j, |j|, m, grace);
    AcceptedGrows(j, e, grace);
  }

  lemma LedgerIsAccepted(j: seq<Entry>, m: Mon, grace: real)
    requires Ledger(j, m, grace)
    ensures Accepted(j, grace) && m == At(j, |j|, grace)
  {
    assert LedgerAt(j, |j|, m, grace);
  }

  // ---- how the state can move -------------------------------------------------------

  /** The intent only moved towards less output, unless an explicit enable was issued. */
  predicate Reduced(m: Mon, n: Mon) {
    && m.enables <= n.enables && m.commands <= n.commands
    && (m.enables < n.enables ==> m.commands < n.commands)
    && (n.commands == m.commands ==>
          n.intent.power == m.intent.power && n.intent.current == m.intent.current)
    && (n.enables == m.enables ==>
          && (n.intent.enabled ==> m.intent.enabled)
          && (m.intent.latched ==> n.intent.latched)
          && (m.intent.PermanentLatch() ==> n.intent.PermanentLatch())
          && (m.intent.stop ==> n.intent.stop))
  }

  /** What was observed and what the running operation rests on is the same. */
  predicate SameSight(m: Mon, n: Mon) {
    && n.clock == m.clock && n.run == m.run && n.begun == m.begun && n.stopAt == m.stopAt
    && n.books == m.books
  }

  /** Commands ran alongside: the intent may have moved, nothing else has. */
  predicate Interfered(m: Mon, n: Mon) {
    && SameSight(m, n) && n.work == m.work && n.owed == m.owed
    && Reduced(m, n)
    && OnlyCommands(m, n)
  }

  /** Nothing but commands moved the intent, and none came before initialization. */
  predicate OnlyCommands(m: Mon, n: Mon) {
    && (n.commands == m.commands ==> n.intent == m.intent)
    && (!m.ready ==> n.commands == m.commands)
  }

  lemma CommandsInterfere(m: Mon, cause: Cause, a: Intent)
    requires ChangePermitted(m, cause, a) && IsCommand(cause) && m.owed.Nothing?
    ensures Interfered(m, StepChanged(m, cause, a))
    ensures StepChanged(m, cause, a).commands == m.commands + 1 && m.ready
  {
  }

  lemma UndoPermitted(m: Mon, change: Change, before: Intent)
    requires m.ready && m.owed.Nothing? && m.intent.WellFormed() && before.WellFormed()
    requires change.enabled != Some(false) && RaisesOutput(before, m.intent)
    requires m.Stopped() ==> m.intent.stop
    ensures var u := change.Undo(before, m.intent);
            && ChangePermitted(m, Undo, u) && Interfered(m, StepChanged(m, Undo, u))
            && u.WellFormed()
            && (StepChanged(m, Undo, u).Stopped() ==> u.stop)
  {
    UndoIsProtective(change, before, m.intent);
  }

  /** Writes, read-backs and reducing changes: what was observed stays as it was. */
  predicate Steady(m: Mon, n: Mon) {
    && SameSight(m, n)
    && Reduced(m, n)
    && m.work.Leads(n.work) && m.debt.Eases(n.debt)
  }

  /** What stays true of `m` in any later state `n` of the same operation, before it
      decides, ... */
  predicate Advance(m: Mon, n: Mon) {
    && n.grace == m.grace && m.clock <= n.clock && n.begun == m.begun
    && (m.ready ==> n.ready) && (n.safety ==> m.safety || !m.ready)
    && m.enables <= n.enables && m.commands <= n.commands
    && m.work.Leads(n.work)
    && m.run.Some? == n.run.Some?
    && (m.run.Some? ==> SameRun(m.run.value, n.run.value))
    && (n.enables == m.enables ==>
          && (m.intent.PermanentLatch() ==> n.intent.PermanentLatch())
          && (m.intent.stop ==> n.intent.stop)
          && (m.Stopped() ==> n.Stopped()))
  }

  /** ... with nothing left to do that was not left before. */
  predicate Progress(m: Mon, n: Mon) {
    Advance(m, n) && (m.debt.Clear? ==> n.debt.Clear?)
  }

  predicate SameRun(r: Running, q: Running) {
    && q.op == r.op && q.asked == r.asked && q.pause == r.pause
    && q.enables == r.enables && q.commands == r.commands
    && (r.checked ==> q.checked) && (r.tracked ==> q.tracked) && q.decided == r.decided
    && (r.revoked ==> q.revoked) && (r.concluded ==> q.concluded)
    && (r.Keeps() ==> q.frame == r.frame && q.frameEnables == r.frameEnables)
  }

  /** The operation watched, wrote and perhaps stopped or latched; it neither tracked the
      cable nor checked the link. */
  predicate Worked(m: Mon, n: Mon) {
    Labored(m, n) && (m.debt.Clear? ==> n.debt.Clear?)
  }

  /** The same, but perhaps with a zero left to be written. */
  predicate Labored(m: Mon, n: Mon) {
    && Advance(m, n) && Reduced(m, n)
    && n.safety == m.safety && n.track == m.track && n.link == m.link && n.ready == m.ready
  }

  /** The evidence gathered about a pause is still there. */
  predicate Kept(q: Settling, p: Settling) {
    q.zeroBack ==> p.zeroBack && p.stopSent == q.stopSent && p.since == q.since && p.settled == q.settled
  }

  lemma SteadyThen(a: Mon, b: Mon, c: Mon)
    requires Steady(a, b) && Steady(b, c)
    ensures Steady(a, c)
  {
  }

  /** Only setpoints were written and read back, and only commands moved the intent. */
  predicate Written(m: Mon, n: Mon) {
    && Steady(m, n) && n.halt == m.halt && n.quiet.stopSent == m.quiet.stopSent && OnlyCommands(m, n)
    && (Unseen(m.quiet) ==> Unseen(n.quiet))
  }

  /** No quiet frame has been seen. */
  predicate Unseen(q: Settling) {
    q.since.None? && !q.settled
  }

  /** Apart from commands, at most a latch moved the intent. */
  predicate Latches(m: Mon, n: Mon) {
    n.commands == m.commands ==> n.intent.stop == m.intent.stop && (n.intent == m.intent || n.intent.latched)
  }

  /** One write and its read-back: a zero that was kept stays kept. */
  lemma WriteThenRead(a: Mon, b: Mon, c: Mon, address: nat, value: nat)
    requires Steady(a, b) && b.quiet == a.quiet.Write(address, value) && OnlyCommands(a, b)
    requires b.halt == a.halt.Write(address)
    requires Written(b, c) && Kept(b.quiet, c.quiet)
    ensures OneWrite(a, c, address, value)
  {
  }

  predicate OneWrite(m: Mon, n: Mon, address: nat, value: nat) {
    && Steady(m, n)
    && (address != REG_CHARGING_CONTROL ==> Written(m, n))
    && (address == REG_MAX_CHARGING_POWER && value == 0 ==> Kept(m.quiet, n.quiet))
  }

  lemma NoWrite(m: Mon, address: nat, value: nat)
    ensures OneWrite(m, m, address, value)
  {
  }

  lemma ZeroIsSent(q: Settling, t: Tally, address: nat, value: nat)
    ensures address == REG_MAX_CHARGING_POWER && value == 0 ==> q.Write(address, value).zeroSent
    ensures t.Write(address, value) == Tally(Some((address, value)), true, t.missed || t.open)
  {
  }

  /** What one attempt at a write leaves of what is due. */
  predicate Pays(before: Debt, after: Debt, address: nat, value: nat, good: bool) {
    address == REG_MAX_CHARGING_POWER && value == 0 ==>
      !after.ZeroDue? && (good && !before.LookDue? ==> after.Clear?)
  }

  lemma ZeroPays(before: Debt, after: Debt, address: nat, value: nat, good: bool)
    requires address == REG_MAX_CHARGING_POWER && value == 0 ==>
               after == var d := before.Write(address, value); if good then d.Read(address, Some(value)) else d
    ensures Pays(before, after, address, value, good)
  {
  }

  /** Nothing is due from this write any more than after an attempt at it. */
  predicate Attempted(m: Mon, address: nat, value: nat) {
    && m.tally.last == Some((address, value))
    && (address == REG_MAX_CHARGING_POWER && value == 0 ==> !m.debt.ZeroDue?)
  }

  /** Attempts at a write, from `m` to `n`: perhaps confirmed, given up or dropped, and made
      unless it was dropped before the first. */
  predicate Tried(m: Mon, n: Mon, address: nat, value: nat, wire: Option<Wire>,
      good: bool, raised: bool, dropped: bool)
  {
    && Written(m, n)
    && (OnWire(m, wire) ==> Attempted(n, address, value))
    && (good ==> Pays(m.debt, n.debt, address, value, true))
    && (raised ==> n.tally.open)
    && (dropped ==> !OnWire(n, wire))
  }

  lemma TriedThen(a: Mon, b: Mon, c: Mon, address: nat, value: nat, wire: Option<Wire>,
      good: bool, raised: bool, dropped: bool)
    requires b == a || Tried(a, b, address, value, wire, false, false, false)
    requires Tried(b, c, address, value, wire, good, raised, dropped)
    requires !OnWire(b, wire) ==> c == b
    ensures Tried(a, c, address, value, wire, good, raised, dropped)
  {
    if b != a {
      WrittenThen(a, b, c);
    }
  }

  lemma TriedWaits(a: Mon, b: Mon, c: Mon, address: nat, value: nat, wire: Option<Wire>)
    requires Tried(a, b, address, value, wire, false, false, false)
    requires Steady(b, c) && OnlyCommands(b, c) && c.work == b.work
    ensures Tried(a, c, address, value, wire, false, false, false)
  {
    WrittenThen(a, b, c);
  }

  /** Stop may be tried next, if the intent asks for zero. */
  predicate StopReady(m: Mon) {
    && m.run.Some? && m.debt.Clear?
    && if m.intent.ExplicitZero() then m.owed == Owed.Write(REG_CHARGING_CONTROL, STOP_COMMAND)
                                       || (m.owed.Nothing? && m.MayStop())
       else m.owed.Nothing?
  }

  lemma WantsStill(m: Mon, n: Mon, wire: Wire)
    requires Steady(m, n) && OnlyCommands(m, n) && m.Wants(wire) && m.Ordered()
    ensures n.Wants(wire)
  {
  }

  lemma LatchesThen(a: Mon, b: Mon, c: Mon)
    requires Reduced(a, b) && Reduced(b, c) && Latches(a, b) && Latches(b, c)
    ensures Latches(a, c)
  {
  }

  /** A zero that the intent itself asks for stays wanted, ... */
  lemma ZeroWantedStill(m: Mon, n: Mon)
    requires Worked(m, n) && Latches(m, n) && m.Wants(ZERO) && m.Ordered()
    requires !m.Moved() ==> m.intent.ExplicitZero()
    ensures n.Wants(ZERO) && (!n.Moved() ==> n.intent.ExplicitZero())
  {
  }

  /** ... and so does a setpoint after a look that found nothing against it. */
  lemma OutputWantedStill(m: Mon, n: Mon, wire: Wire)
    requires Worked(m, n) && Latches(m, n) && m.Wants(wire) && wire != ZERO && m.Ordered()
    requires !n.intent.latched && !n.tel.protected
    ensures n.Wants(wire)
  {
  }

  lemma WrittenThen(a: Mon, b: Mon, c: Mon)
    requires Written(a, b) && Written(b, c)
    ensures Written(a, c)
  {
  }

  lemma LaboredThen(a: Mon, b: Mon, c: Mon)
    requires Labored(a, b) && Labored(b, c)
    ensures Labored(a, c)
  {
  }

  lemma WorkedThen(a: Mon, b: Mon, c: Mon)
    requires Worked(a, b) && Worked(b, c)
    ensures Worked(a, c)
  {
  }

  /** The evidence about a zero counts, with its run of quiet frames begun at `first`. */
  predicate Covers(m: Mon, stopped: bool, first: Option<real>, quiet: bool) {
    m.quiet.zeroBack && m.quiet.stopSent == stopped && m.quiet.since == first && m.quiet.settled == quiet
  }

  /** The same of a Stop. */
  predicate Halts(m: Mon, first: Option<real>, quiet: bool) {
    m.halt == Halt(true, first, quiet)
  }

  /** Watching for quiet: the evidence that counted still does, and is settled exactly if
      `quiet`. */
  predicate Watching(m: Mon, n: Mon, stopped: bool, before: Option<real>, after: Option<real>, quiet: bool) {
    && Worked(m, n) && Latches(m, n) && n.halt.sent == m.halt.sent
    && (Covers(m, stopped, before, false) ==> Covers(n, stopped, after, quiet))
    && (stopped && Halts(m, before, false) ==> Halts(n, after, quiet))
  }

  lemma WatchingThen(a: Mon, b: Mon, c: Mon, stopped: bool,
      x: Option<real>, y: Option<real>, z: Option<real>, quiet: bool)
    requires Watching(a, b, stopped, x, y, false) && Watching(b, c, stopped, y, z, quiet)
    ensures Watching(a, c, stopped, x, z, quiet)
  {
  }

  lemma DozingIsWatching(a: Mon, b: Mon, c: Mon, stopped: bool, x: Option<real>, y: Option<real>)
    requires Watching(a, b, stopped, x, y, false) && Worked(b, c) && OnlyCommands(b, c) && c.work == b.work
    ensures Watching(a, c, stopped, x, y, false)
  {
  }

  /** One look. */
  lemma LookingIsWatching(m: Mon, n: Mon, stopped: bool, ev: Evidence, first: Option<real>)
      returns (next: Option<real>, quiet: bool)
    requires Worked(m, n) && Latches(m, n) && n.halt == m.halt.See(ev)
    requires m.quiet.zeroBack ==> Kept(m.quiet.See(ev), n.quiet)
    ensures var calm := if stopped then ev.StoppedQuiet() else ev.PausedQuiet();
            && next == (if !calm then None else if first.None? then Some(ev.at) else first)
            && quiet == (calm && first.Some? && ev.at - first.value >= OBSERVATION_GAP)
    ensures Watching(m, n, stopped, first, next, quiet)
  {
    var calm := if stopped then ev.StoppedQuiet() else ev.PausedQuiet();
    next := if !calm then None else if first.None? then Some(ev.at) else first;
    quiet := calm && first.Some? && ev.at - first.value >= OBSERVATION_GAP;
  }

  /** Watching from the start, to its end. */
  predicate Watched(m: Mon, n: Mon, stopped: bool, quiet: bool) {
    && Worked(m, n) && Latches(m, n) && n.halt.sent == m.halt.sent
    && (Covers(m, stopped, None, false) ==>
          n.quiet.zeroBack && n.quiet.stopSent == stopped && n.quiet.settled == quiet)
    && (stopped && Halts(m, None, false) ==> n.halt.sent && n.halt.settled == quiet)
  }

  lemma WatchingEnds(m: Mon, n: Mon, stopped: bool, after: Option<real>, quiet: bool)
    requires Watching(m, n, stopped, None, after, quiet)
    ensures Watched(m, n, stopped, quiet)
  {
  }

  /** A positive apply that failed left charging off or latched. */
  predicate Failing(m: Mon, n: Mon, raised: bool) {
    && Worked(m, n)
    && (raised && n.enables == m.enables ==> !n.intent.enabled || n.intent.latched)
    && (raised && n.run.Some? ==> n.run.value.revoked || n.work.failed)
  }

  /** ... and one that was dropped was overtaken by a command. */
  predicate Ending(m: Mon, n: Mon, raised: bool, dropped: bool) {
    Failing(m, n, raised) && (dropped ==> n.Moved())
  }

  lemma EndingThen(a: Mon, b: Mon, c: Mon, raised: bool, dropped: bool)
    requires Worked(a, b) && Ending(b, c, raised, dropped)
    ensures Ending(a, c, raised, dropped)
  {
  }

  /** The Stop fallback on its way: Stop was written, unless it was dropped for an intent
      that does not ask for zero; what it is fine with rests on settled evidence, and it gives
      up only with the latch set. */
  predicate Stopping(m: Mon, n: Mon, fine: bool, raised: bool, dropped: bool) {
    && Worked(m, n)
    && (n.halt.sent || (dropped && !m.intent.ExplicitZero()))
    && (dropped ==> !n.intent.ExplicitZero())
    && (m.quiet.zeroBack ==> n.quiet.zeroBack && (fine ==> n.quiet.settled))
    && (raised && n.enables == m.enables ==> n.intent.latched)
    && (fine && n.enables == m.enables ==> n.intent.stop)
  }

  lemma StoppingThen(a: Mon, b: Mon, c: Mon, fine: bool, raised: bool, dropped: bool)
    requires b == a || Stopping(a, b, false, false, false)
    requires Stopping(b, c, fine, raised, dropped)
    ensures Stopping(a, c, fine, raised, dropped)
  {
  }

  /** ... not over yet, or over with nothing owed. */
  predicate StopGoesOn(m: Mon, n: Mon, over: bool, fine: bool, raised: bool, dropped: bool) {
    && (if over then n.run.Some? && n.owed.Nothing? else !raised && !dropped && StopReady(n))
    && ((!over && n == m) || Stopping(m, n, fine, raised, dropped))
  }

  lemma StopContinues(a: Mon, b: Mon, c: Mon, over: bool, fine: bool, raised: bool, dropped: bool)
    requires StopGoesOn(a, b, false, false, false, false)
    requires Stopping(b, c, fine, raised, dropped) && c.run.Some? && c.owed.Nothing?
    requires !over ==> !fine && !raised && !dropped
    ensures StopGoesOn(a, c, over, fine, raised, dropped)
  {
  }

  lemma ProgressThen(a: Mon, b: Mon, c: Mon)
    requires Progress(a, b) && Progress(b, c)
    ensures Progress(a, c)
  {
  }

  lemma SteadyWorked(a: Mon, b: Mon)
    requires Steady(a, b)
    ensures Worked(a, b)
  {
  }

  lemma FrameMoves(m: Mon, ev: Evidence)
    ensures var n := StepFrame(m, ev);
            && n.clock == Max(m.clock, ev.at) && n.intent == m.intent && n.flying == m.flying
            && n.books == m.books.(tel := n.tel, hold := if m.tel.protected && !n.tel.protected then None else m.hold)
            && n.tel == Telemetry.Step(m.tel, ev, m.grace)
            && n.run.Some? == m.run.Some?
  {
  }

  lemma FrameRun(m: Mon, ev: Evidence)
    requires m.run.Some?
    ensures SameRun(m.run.value, StepFrame(m, ev).run.value) && m.work.Leads(StepFrame(m, ev).work)
  {
  }

  lemma FrameWorked(m: Mon, ev: Evidence)
    requires m.run.Some?
    ensures Worked(m, StepFrame(m, ev)) && Latches(m, StepFrame(m, ev))
  {
    FrameMoves(m, ev);
    FrameRun(m, ev);
  }

  /** After a fault frame the latch is permanent, unless an enable was issued since. */
  predicate FaultHandled(m: Mon) {
    m.run.Some? && m.run.value.frame.Some? && m.run.value.frame.value.Faulted() ==>
      m.intent.PermanentLatch() || m.enables > m.run.value.frameEnables
  }

  lemma FaultStaysHandled(m: Mon, n: Mon)
    requires Progress(m, n) && FaultHandled(m)
    requires n.run.Some? && m.run.Some? && n.run.value.frame == m.run.value.frame
    requires n.run.value.frameEnables == m.run.value.frameEnables
    requires m.run.value.frame.Some? ==> m.run.value.frameEnables <= m.enables
    ensures FaultHandled(n)
  {
  }

  /** The changes a lock-holding operation makes to reduce output. */
  predicate Reduction(cause: Cause, b: Intent, a: Intent) {
    match cause
    case Unstoppable => a == b.Next().(latched := true, comms := false)
    case StopConfirmed => a == b.Next().(stop := true, comms := false)
    case Revoked => a == b.Next().(enabled := false)
    case SessionEnded => a == b.Next().(enabled := false)
    case _ => false
  }

  function RunAfter(m: Mon, cause: Cause): Option<Running> {
    if cause == Revoked && m.run.Some? then Some(m.run.value.(revoked := true)) else m.run
  }

  predicate MayReduce(m: Mon, cause: Cause) {
    && (cause == Revoked ==> m.MayRevoke() && m.debt.Clear?)
    && (cause == StopConfirmed ==> m.halt.settled)
    && (cause == Unstoppable ==> m.halt.sent)
  }

  lemma ReductionPermitted(m: Mon, cause: Cause, a: Intent)
    requires if cause == SessionEnded then m.owed.SessionEnd? else m.owed.Nothing?
    requires m.intent.WellFormed() && Reduction(cause, m.intent, a)
    requires MayReduce(m, cause)
    ensures ChangePermitted(m, cause, a)
    ensures StepChanged(m, cause, a) ==
            m.Plain().(intent := a, run := RunAfter(m, cause), work := WorkAfter(m, cause),
                       stopAt := if cause == StopConfirmed then Some(m.enables) else m.stopAt)
  {
  }

  lemma ReductionWorked(m: Mon, cause: Cause, a: Intent, n: Mon)
    requires m.run.Some? && Reduction(cause, m.intent, a)
    requires n == m.Plain().(intent := a, run := RunAfter(m, cause), work := WorkAfter(m, cause),
                             stopAt := if cause == StopConfirmed then Some(m.enables) else m.stopAt)
    ensures Labored(m, n) && (cause != Revoked ==> Worked(m, n))
    ensures cause !in {StopConfirmed, Revoked} ==> Steady(m, n)
  {
  }

  lemma LatchSteady(m: Mon, a: Intent, n: Mon)
    requires a == m.intent.Next().(latched := true, comms := a.comms) && (a.comms ==> !m.intent.PermanentLatch())
    requires n == m.(intent := a, turn := n.turn)
    ensures Steady(m, n) && Latches(m, n)
  {
  }

  /** In an apply, a clean latest frame authorizes positive output. */
  lemma CleanFrameAuthorizes(m: Mon)
    requires m.In(Apply) && m.run.value.frame.Some? && FaultHandled(m) && !m.intent.latched
    requires m.run.value.frame.value.Valid() && !m.run.value.frame.value.Refusing()
    ensures m.Authorized()
  {
  }

  lemma AuthorizedStays(m: Mon, n: Mon)
    requires Steady(m, n) && m.Authorized()
    ensures n.Authorized()
  {
  }

  /** An operation that has only just begun. */
  predicate JustBegan(m: Mon, op: Op) {
    m.run == Some(m.Opening(op)) && m.work == m.FirstWork(op)
  }

  /** Without a command since, what asked for zero when the apply began still does. */
  lemma PauseStays(m: Mon, n: Mon)
    requires JustBegan(m, Apply) && Steady(m, n)
    ensures m.run.value.pause && n.commands == m.commands ==> n.intent.ExplicitZero()
  {
  }

  lemma CheckedWorked(m: Mon, n: Mon)
    requires m.run.Some?
    requires n == m.(run := Some(m.run.value.(checked := true)), books := m.books.(staged := n.staged), turn := n.turn)
    ensures Worked(m, n) && n.tel == m.tel && n.hold == m.hold && n.quiet == m.quiet
  {
  }

  /** The link check moves nothing but its timer. */
  lemma LinkedProgress(m: Mon, n: Mon)
    requires m.run.Some?
    requires n == m.(run := Some(m.run.value.(concluded := true)), books := m.books.(link := n.link), turn := n.turn)
    ensures Progress(m, n) && n.track == m.track && n.tel == m.tel
  {
  }

  // ---- what a refresh writes -----------------------------------------------------------

  /** The setpoints a refresh is going to send, compared with `wire` as they go out. */
  datatype Plan = Plan(wire: Option<Wire>, power: Option<nat>, current: Option<nat>, held: bool)

  const HELD_BACK: Plan := Plan(None, None, None, true)

  function PlanFor(wire: Wire, ev: Evidence, recovering: bool): Plan {
    if wire.Positive() && !ev.SessionActive() then
      if ev.Valid() then Plan(None, Some(0), None, false) else HELD_BACK
    else if !wire.Positive() && recovering then HELD_BACK
    else Plan(Some(wire), wire.power, wire.current, false)
  }

  predicate PlanFits(m: Mon, p: Plan) {
    && (p.wire.Some? ==>
          && p.wire.value == m.Wire() && p.power == m.Wire().power && p.current == m.Wire().current
          && (m.Wire().Positive() ==> m.Authorized()))
    && (p.wire.None? ==> p.current.None? && (p.power.Some? ==> p.power.value == 0 && !m.Stopped()))
  }

  function FirstWrite(p: Plan): Owed {
    if p.current.Some? then Owed.Write(REG_MAX_CHARGING_CURRENT, p.current.value)
    else if p.power.Some? then Owed.Write(REG_MAX_CHARGING_POWER, p.power.value)
    else Nothing
  }

  /** The positive value a plan must not end without. */
  function PowerOf(p: Plan): Option<nat> {
    if p.wire.Some? && p.wire.value.Positive() then p.power else None
  }

  lemma PlanIsFit(m: Mon, ev: Evidence, recovering: bool)
    requires m.In(Refresh) && m.run.value.frame == Some(ev) && FaultHandled(m)
    requires m.Stopped() ==> m.intent.stop
    ensures PlanFits(m, PlanFor(m.Wire(), ev, recovering))
    ensures var p := PlanFor(m.Wire(), ev, recovering);
            if recovering && !m.Wire().Positive() then FirstWrite(p) == Nothing && PowerOf(p) == None
            else m.Due() == FirstWrite(p) && m.Ahead() == PowerOf(p)
  {
  }

  /** A decision: the writes are counted from here, and a hold may begin. */
  predicate Decides(m: Mon, n: Mon) {
    && m.run.Some? && m.clock <= n.clock
    && n == StepDecided(m, n.clock, n.course.power).(books := m.books.(hold := n.hold), turn := n.turn)
  }

  /** What a decision leaves as it was. */
  predicate Resolved(m: Mon, n: Mon) {
    && m.run.Some? && n.run == Some(m.run.value.(decided := true))
    && n.intent == m.intent && n.enables == m.enables && n.commands == m.commands && n.begun == m.begun
    && n.tel == m.tel && n.safety == m.safety && n.track == m.track && n.link == m.link && n.ready == m.ready
    && n.missed == m.missed && n.quiet == m.quiet && n.debt == m.debt && n.stopAt == m.stopAt
  }

  /** Deciding moves neither what the plan rests on nor what came before. */
  lemma DecisionResolved(m: Mon, n: Mon, p: Plan)
    requires Decides(m, n) && PlanFits(m, p)
    ensures Resolved(m, n) && PlanFits(n, p) && n.Wire() == m.Wire()
    ensures n.tally == NOTHING_SENT && n.course == Course(n.commands, n.course.power, false)
  {
  }

  lemma HoldWorked(m: Mon, n: Mon)
    requires n == m || n == m.Plain().(books := m.books.(hold := n.hold, staged := n.staged))
    ensures Worked(m, n)
  {
  }

  /** A refresh judged what it read back. */
  predicate Judges(m: Mon, n: Mon) {
    && m.clock <= n.clock
    && n == m.(clock := n.clock, books := m.books.(hold := n.hold, missed := n.missed),
               work := m.work.(course := m.course.(judged := true)), turn := n.turn)
  }

  lemma JudgingWorked(m: Mon, n: Mon)
    requires Judges(m, n)
    ensures Worked(m, n) && (m.Through() ==> n.Through()) && n.Judged()
  {
  }

  lemma ThroughStays(m: Mon, n: Mon)
    requires Advance(m, n)
    ensures m.Through() ==> n.Through()
    ensures m.course.judged || m.Overtaken() ==> n.Judged()
  {
  }

  // ---- what a write needs ------------------------------------------------------------

  /** The write belongs to this wire, which is the one the intent derives now. */
  predicate OnWire(m: Mon, wire: Option<Wire>) {
    wire.None? || wire.value == m.Wire()
  }

  /** Whether this value may be written as soon as its wire is the current one. */
  predicate Fits(m: Mon, address: nat, value: nat, wire: Option<Wire>) {
    if wire.Some? then
      || (address == REG_MAX_CHARGING_POWER && wire.value.power == Some(value)
          && (value > 0 ==> m.Authorized()))
      || (address == REG_MAX_CHARGING_CURRENT && wire.value.current == Some(value))
    else
      && address != REG_MAX_CHARGING_CURRENT
      && (address == REG_MAX_CHARGING_POWER ==>
            value == 0 && !m.Stopped() && m.run.Some? && (m.owed.Write? || m.run.value.revoked))
      && (address == REG_CHARGING_CONTROL ==> value == STOP_COMMAND && m.intent.ExplicitZero() && m.MayStop())
  }

  /** Nothing but the zero that is due may be written. */
  predicate Timely(m: Mon, address: nat, value: nat) {
    m.debt.ZeroDue? ==> address == REG_MAX_CHARGING_POWER && value == 0
  }

  lemma FitsPermits(m: Mon, address: nat, value: nat, wire: Option<Wire>)
    requires m.run.Some? && Fits(m, address, value, wire) && OnWire(m, wire) && Timely(m, address, value)
    requires m.owed.Nothing? || m.owed == Owed.Write(address, value)
    requires m.Stopped() ==> m.intent.stop
    ensures WritePermitted(m, address, value)
  {
  }

  lemma FitsTried(m: Mon, n: Mon, address: nat, value: nat, wire: Option<Wire>)
    requires n == m || Tried(m, n, address, value, wire, false, false, false)
    requires Fits(m, address, value, wire) && address != REG_CHARGING_CONTROL
    requires m.Ordered() && Timely(m, address, value) && m.owed.Nothing?
    ensures Fits(n, address, value, wire) && Timely(n, address, value)
  {
    if n != m {
      FitsStays(m, n, address, value, wire);
    }
  }

  lemma FitsStays(m: Mon, n: Mon, address: nat, value: nat, wire: Option<Wire>)
    requires Steady(m, n) && Fits(m, address, value, wire) && address != REG_CHARGING_CONTROL
    requires m.Ordered() && Timely(m, address, value) && m.owed.Nothing?
    ensures Fits(n, address, value, wire) && Timely(n, address, value)
  {
  }
}
