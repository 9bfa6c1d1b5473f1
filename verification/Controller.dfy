/**
  The charging controller: the only writer to the charger.

  The fields are the controller's own; `journal` and `mon` are the ghost record of the
  run.  Every point where the program awaits is a call of `Await`: there, commands issued
  by other tasks may change the intent (they need no lock for that), and time passes.
  Everything else a lock-holding operation owns stays put.  What the charger answers is
  nondeterministic.
 */
module Controller {
  import opened Prelude
  import opened Evidence
  import opened Intents
  import opened Journal
  import Telemetry
  import Unplug
  import LinkHealth

  const FIRMWARE_EXPIRY: real := 60.0
  const MAX_REFRESH: real := 30.0
  const MODBUS_ILLEGAL_DATA_VALUE: nat := 3
  const POLL_STEP: real := 0.5

  /** Reasons that force a zero setpoint. */
  datatype Reason = TelemetryUncertain | SafetyUnconfirmed

  /** What the store had to say about the intent. */
  datatype Record = Absent | Malformed | Parsed(intent: Intent)

  /** How a step that can raise ends. */
  datatype Flow = Fine | Superseded | Raised

  /** What became of one dispatched write. */
  datatype WriteOutcome = Acked | Unknown | Refused(code: Option<nat>) | Lost

  /** A command whose save is still under way. */
  datatype Saving = Saving(before: Intent, change: Change)

  ghost predicate SavingsWellFormed(s: seq<Saving>) {
    forall i :: 0 <= i < |s| ==> s[i].before.WellFormed()
  }

  /** The list without its k-th entry. */
  function Without(s: seq<Saving>, k: nat): seq<Saving>
    requires k < |s|
  {
    s[..k] + s[k + 1..]
  }

  lemma SavingsShrink(s: seq<Saving>, k: nat)
    requires SavingsWellFormed(s) && k < |s|
    ensures SavingsWellFormed(Without(s, k)) && s[k].before.WellFormed()
  {
  }

  /** How many times one can sleep `step` before `left` has run out. */
  function Rounds(left: real, step: real): nat
    requires step > 0.0
  {
    if left <= 0.0 then 0 else (left / step).Floor + 1
  }

  lemma RoundsDrop(left: real, later: real, step: real)
    requires step > 0.0 && left > 0.0
    requires later <= left - Min(step, left)
    ensures Rounds(later, step) < Rounds(left, step)
  {
    QuotientPositive(left, step);
    if later > 0.0 {
      assert later <= left - step;
      QuotientDrops(later, left, step);
    }
  }

  lemma QuotientDrops(later: real, left: real, step: real)
    requires step > 0.0 && later <= left - step
    ensures later / step <= left / step - 1.0
  {
    var p, q := later / step, left / step;
    QuotientTimes(later, step, p);
    QuotientTimes(left, step, q);
    OneLess(p, q, step, later, left);
  }

  lemma QuotientTimes(x: real, step: real, q: real)
    requires step > 0.0 && q == x / step
    ensures q * step == x
  {
  }

  lemma QuotientPositive(x: real, step: real)
    requires step > 0.0 && x > 0.0
    ensures x / step > 0.0
  {
  }

  lemma OneLess(p: real, q: real, step: real, later: real, left: real)
    requires step > 0.0 && p * step == later && q * step == left && later <= left - step
    ensures p <= q - 1.0
  {
    if p > q - 1.0 {
      MulGrows(p, q - 1.0, step);
      Distributes(q, step);
    }
  }

  lemma Distributes(q: real, step: real)
    ensures (q - 1.0) * step == q * step - step
  {
  }

  lemma MulGrows(p: real, q: real, step: real)
    requires step > 0.0 && p > q
    ensures p * step > q * step
  {
    assert (p - q) * step > 0.0;
  }

  class ChargingController {
    // Timing parameters.
    const grace: real
    const retry: real
    const timeout: real
    const startTimeout: real
    const startingTimeout: real
    const pauseTimeout: real

    var now: real                             // the event loop's clock
    var intent: Intent
    var protect: set<Reason>
    var badSince: Option<real>
    var badCount: nat
    var goodFirst: Option<Evidence>
    var holdSince: Option<real>
    var released: bool
    var unplugFirst: Option<real>
    var linkOkSince: Option<real>
    var startingSince: Option<real>
    var nextSafetyTry: real
    var mismatchSince: Option<real>
    var mismatchCount: nat
    var maxPower: Option<nat>
    var validity: Option<nat>
    var lastRefusal: Option<(nat, Option<nat>)>
    var lastObs: Option<Evidence>
    var awaitPlug: bool
    var authorized: Option<(Wire, nat)>
    var initialized: bool
    var commands: nat                         // explicit enables in flight
    var saving: seq<Saving>                   // commands in flight up to their save
    var persisted: bool
    var persistPending: bool
    var correcting: bool                      // a correction task is running
    var spawned: seq<Op>                      // operations queued behind the lock

    ghost var saves: seq<Intent>              // what the operations handed to the store
    ghost var journal: seq<Entry>
    ghost var mon: Mon

    ghost function Tel(): Telemetry.State
      reads `protect, `badSince, `badCount, `goodFirst
    {
      Telemetry.State(TelemetryUncertain in protect, badSince, badCount, goodFirst)
    }

    /** What only the holder of the lock moves. */
    ghost function Fields(): Books
      reads `protect, `badSince, `badCount, `goodFirst, `holdSince
      reads `released, `unplugFirst, `linkOkSince, `initialized, `awaitPlug, `mismatchSince, `mismatchCount
    {
      Books(grace, Tel(), SafetyUnconfirmed in protect, Cable(), linkOkSince, holdSince, awaitPlug,
            Missed(mismatchSince, mismatchCount), initialized)
    }

    /** The fields are what the journal says they are. */
    ghost predicate Synced()
      reads `now, `intent, `protect, `badSince, `badCount, `goodFirst, `holdSince
      reads `released, `unplugFirst, `linkOkSince, `initialized, `commands, `awaitPlug, `mon
      reads `mismatchSince, `mismatchCount
    {
      && mon.clock <= now
      && mon.intent == intent && intent.WellFormed()
      && mon.flying == commands
      && mon.books == Fields()
    }

    /** Relations between the parts of the state. */
    ghost predicate Coherent()
      reads `mismatchSince, `mismatchCount, `saving
    {
      && retry > 0.0
      && (mismatchCount > 0 ==> mismatchSince.Some?)
      && SavingsWellFormed(saving)
    }

    ghost predicate Recorded()
      reads `journal, `mon
    {
      Ledger(journal, mon, grace) && mon.Ordered()
    }

    ghost predicate Valid()
      reads `now, `intent, `protect, `badSince, `badCount, `goodFirst, `holdSince
      reads `released, `unplugFirst, `linkOkSince, `initialized, `commands, `awaitPlug
      reads `mismatchSince, `mismatchCount, `saving, `journal, `mon
    {
      Synced() && Coherent() && Recorded()
    }

    /** An operation holds the lock and owes nothing. */
    ghost predicate Busy()
      reads `now, `intent, `protect, `badSince, `badCount, `goodFirst, `holdSince
      reads `released, `unplugFirst, `linkOkSince, `initialized, `commands, `awaitPlug
      reads `mismatchSince, `mismatchCount, `saving, `journal, `mon
    {
      Valid() && mon.run.Some? && mon.owed.Nothing?
    }

    /** Nothing holds the lock. */
    ghost predicate Idle()
      reads `now, `intent, `protect, `badSince, `badCount, `goodFirst, `holdSince
      reads `released, `unplugFirst, `linkOkSince, `initialized, `commands, `awaitPlug
      reads `mismatchSince, `mismatchCount, `saving, `journal, `mon
    {
      Valid() && mon.run.None? && mon.owed.Nothing?
    }

    // ---- the record -----------------------------------------------------------------

    ghost method Note(e: Entry)
      requires Recorded() && Permitted(mon, e)
      modifies `journal, `mon
      ensures Recorded()
      ensures mon == Step(old(mon), e)
      ensures journal == old(journal) + [e]
    {
      LedgerGrows(journal, mon, e, grace);
      EntryKeepsOrder(mon, e);
      journal := journal + [e];
      mon := Step(mon, e);
    }

    ghost method NoteChange(cause: Cause, a: Intent)
      requires Recorded() && ChangePermitted(mon, cause, a)
      modifies `journal, `mon
      ensures Recorded()
      ensures mon == StepChanged(old(mon), cause, a)
      ensures journal == old(journal) + [Changed(cause, a)]
    {
      LedgerGrows(journal, mon, Changed(cause, a), grace);
      ChangeKeepsOrder(mon, cause, a);
      journal := journal + [Changed(cause, a)];
      mon := StepChanged(mon, cause, a);
    }

    ghost method NoteLatch(a: Intent)
      requires Recorded() && (mon.owed.FaultLatch? || mon.owed.LinkLatch?) && a.WellFormed()
      requires a == mon.intent.Next().(latched := true, comms := mon.owed.LinkLatch?)
      requires a.comms ==> !mon.intent.PermanentLatch()
      modifies `journal, `mon
      ensures Recorded()
      ensures mon == old(mon).(
                intent := a, turn := Owing(if a.stop then Nothing else Owed.Write(REG_MAX_CHARGING_POWER, 0)))
      ensures Steady(old(mon), mon) && Latches(old(mon), mon)
    {
      NoteChange(Latch, a);
      LatchSteady(old(mon), a, mon);
    }

    ghost method NoteReduction(cause: Cause, a: Intent)
      requires Recorded() && mon.intent.WellFormed() && Reduction(cause, mon.intent, a)
      requires if cause == SessionEnded then mon.owed.SessionEnd? else mon.owed.Nothing?
      requires MayReduce(mon, cause)
      modifies `journal, `mon
      ensures Recorded()
      ensures mon == old(mon).Plain().(
                intent := a, run := RunAfter(old(mon), cause), work := WorkAfter(old(mon), cause),
                stopAt := if cause == StopConfirmed then Some(old(mon).enables) else old(mon).stopAt)
    {
      ReductionPermitted(mon, cause, a);
      NoteChange(cause, a);
    }

    ghost method NoteFrame(ev: Evidence)
      requires Recorded() && mon.owed.Nothing? && mon.MayLook() && ev.at >= mon.clock
      modifies `journal, `mon
      ensures Recorded()
      ensures mon == StepFrame(old(mon), ev)
      ensures journal == old(journal) + [Frame(ev)]
    {
      Note(Frame(ev));
    }

    // ---- commands, which need no lock -------------------------------------------------

    ghost method NoteCommand(cause: Cause, a: Intent)
      requires Recorded() && mon.owed.Nothing? && ChangePermitted(mon, cause, a) && IsCommand(cause)
      modifies `journal, `mon
      ensures Recorded() && Interfered(old(mon), mon) && mon.intent == a
      ensures mon.flying == if cause == Enable then old(mon).flying + 1 else old(mon).flying
      ensures journal == old(journal) + [Changed(cause, a)]
    {
      CommandsInterfere(mon, cause, a);
      NoteChange(cause, a);
    }

    /** The prologue of an explicit command, up to its save.  An enable counts as in flight
        from here on. */
    method Issue(cause: Cause, change: Change)
      requires Valid() && mon.owed.Nothing?
      requires ChangePermitted(mon, cause, change.Apply(intent)) && IsCommand(cause) && cause != Undo
      modifies `intent, `saving, `journal, `mon, `commands
      ensures Valid()
      ensures intent == change.Apply(old(intent))
      ensures commands == if cause == Enable then old(commands) + 1 else old(commands)
      ensures saving == old(saving) + [Saving(old(intent), change)]
      ensures journal == old(journal) + [Changed(cause, intent)]
      ensures Interfered(old(mon), mon)
    {
      NoteCommand(cause, change.Apply(intent));
      saving := saving + [Saving(intent, change)];
      intent := change.Apply(intent);
      commands := if cause == Enable then commands + 1 else commands;
    }

    /** Put back what an unsaved change raised, unless something newer replaced it. */
    method PutBack(s: Saving)
      requires Valid() && mon.owed.Nothing? && mon.ready && s.before.WellFormed()
      requires s.change.enabled != Some(false) && RaisesOutput(s.before, intent)
      modifies `intent, `journal, `mon
      ensures Valid()
      ensures intent == s.change.Undo(s.before, old(intent))
      ensures Interfered(old(mon), mon)
    {
      UndoPermitted(mon, s.change, s.before);
      intent := s.change.Undo(s.before, intent);
      NoteChange(Undo, intent);
    }

    /** A command's save is over.  A pause keeps its effect whatever happened; a change
        that may raise output is put back if it could not be saved. */
    method Saved(k: nat, ok: bool)
      requires Valid() && mon.owed.Nothing? && mon.ready && k < |saving|
      modifies `intent, `saving, `journal, `mon, `persisted, `persistPending
      ensures Valid()
      ensures persisted == ok && persistPending == !ok
      ensures saving == Without(old(saving), k)
      ensures var s := old(saving)[k];
              intent == if !ok && s.change.enabled != Some(false) && RaisesOutput(s.before, old(intent))
                        then s.change.Undo(s.before, old(intent)) else old(intent)
      ensures Interfered(old(mon), mon)
    {
      var s := saving[k];
      persisted, persistPending := ok, !ok;
      SavingsShrink(saving, k);
      saving := Without(saving, k);
      if !ok && s.change.enabled != Some(false) && RaisesOutput(s.before, intent) {
        PutBack(s);
      }
    }

    method BeginEnable(power: nat)
      requires Valid() && mon.owed.Nothing? && initialized && power <= MAX_POWER_RAW
      requires SafetyUnconfirmed !in protect
      modifies `intent, `saving, `journal, `mon, `commands
      ensures Valid() && Interfered(old(mon), mon)
      ensures intent == Intent(true, Some(power), old(intent).current, old(intent).revision + 1, false, false, false)
      ensures commands == old(commands) + 1
    {
      Issue(Enable, EnableAt(power));
    }

    ghost method NoteEnableDone()
      requires Recorded() && mon.owed.Nothing? && mon.flying > 0
      modifies `journal, `mon
      ensures Recorded()
      ensures mon == old(mon).Plain().(flying := old(mon).flying - 1)
    {
      Note(EnableDone);
    }

    /** An explicit enable is over, however it ended. */
    method EndEnable()
      requires Valid() && mon.owed.Nothing? && commands > 0
      modifies `commands, `journal, `mon
      ensures Valid() && Interfered(old(mon), mon)
      ensures commands == old(commands) - 1
    {
      commands := commands - 1;
      NoteEnableDone();
    }

    method BeginPause()
      requires Valid() && mon.owed.Nothing? && initialized
      modifies `intent, `saving, `journal, `mon, `commands
      ensures Valid() && Interfered(old(mon), mon) && commands == old(commands)
      ensures intent == old(intent).(enabled := false, revision := old(intent).revision + 1)
    {
      Issue(Pause, PAUSE_CHANGE);
    }

    method BeginSetPower(power: nat)
      requires Valid() && mon.owed.Nothing? && initialized && power <= MAX_POWER_RAW
      modifies `intent, `saving, `journal, `mon, `commands
      ensures Valid() && Interfered(old(mon), mon) && commands == old(commands)
      ensures intent == old(intent).(power := Some(power), revision := old(intent).revision + 1)
    {
      Issue(SetPower, PowerTo(power));
    }

    method BeginSetCurrent(current: nat)
      requires Valid() && mon.owed.Nothing? && initialized && MIN_CURRENT_RAW <= current <= MAX_CURRENT_RAW
      modifies `intent, `saving, `journal, `mon, `commands
      ensures Valid() && Interfered(old(mon), mon) && commands == old(commands)
      ensures intent == old(intent).(current := Some(current), revision := old(intent).revision + 1)
    {
      Issue(SetCurrent, CurrentTo(current));
    }

    /** One step of some other task: a command issues its change or learns how its save
        went, an explicit enable or a correction ends. */
    method Interfere()
      requires Valid() && mon.owed.Nothing? && initialized
      modifies `intent, `saving, `journal, `mon, `persisted, `persistPending, `commands, `correcting
      ensures Valid()
      ensures Interfered(old(mon), mon)
    {
      var choice: int, x: nat, ok: bool := *, *, *;
      if choice == 0 {
        correcting := false;
      } else if choice == 1 {
        if SafetyUnconfirmed !in protect && EnablePower(x) {
          BeginEnable(x);
        }
      } else if choice == 2 {
        BeginPause();
      } else if choice == 3 {
        if x <= MAX_POWER_RAW && (maxPower.Some? ==> x <= maxPower.value) {
          BeginSetPower(x);
        }
      } else if choice == 4 {
        if MIN_CURRENT_RAW <= x <= MAX_CURRENT_RAW {
          BeginSetCurrent(x);
        }
      } else if choice == 5 {
        if x < |saving| {
          Saved(x, ok);
        }
      } else if commands > 0 {
        EndEnable();
      }
    }

    /** The limit an explicit enable may choose: the saved one, or (when it started
        without one) what the charger reported as its maximum. */
    predicate EnablePower(power: nat)
      reads `intent
    {
      power <= MAX_POWER_RAW && (intent.power == Some(power) || MIN_ENABLE_POWER_RAW <= power)
    }

    /** Suspend until the event loop comes back to this operation. */
    method Await()
      requires Valid() && mon.owed.Nothing?
      modifies `now, `intent, `saving, `journal, `mon, `persisted, `persistPending, `commands, `correcting
      ensures Valid()
      ensures Interfered(old(mon), mon)
      ensures old(now) <= now
    {
      var later: real, steps: nat := *, *;
      if later > now {
        now := later;
      }
      while steps > 0
        invariant Valid() && Interfered(old(mon), mon)
        invariant old(now) <= now
      {
        if initialized {
          Interfere();
        }
        steps := steps - 1;
      }
    }

    method Sleep(d: real)
      requires Valid() && mon.owed.Nothing? && d >= 0.0
      modifies `now, `intent, `saving, `journal, `mon, `persisted, `persistPending, `commands, `correcting
      ensures Valid()
      ensures Steady(old(mon), mon) && mon.work == old(mon).work && mon.owed.Nothing?
      ensures old(now) + d <= now
      ensures OnlyCommands(old(mon), mon)
    {
      var until := now + d;
      Await();
      if now < until {
        now := until;
      }
    }

    /** Persist the current intent; a failure is retried by the next refresh.  Only commands
        move the intent meanwhile. */
    method SaveIntent() returns (ok: bool)
      requires Valid() && mon.owed.Nothing?
      modifies `now, `intent, `saving, `journal, `mon, `persisted, `persistPending, `saves, `commands, `correcting
      ensures Valid()
      ensures Steady(old(mon), mon) && mon.work == old(mon).work && mon.owed.Nothing?
      ensures OnlyCommands(old(mon), mon)
      ensures old(now) <= now
      ensures persistPending == !ok && saves == old(saves) + [old(intent)]
    {
      saves := saves + [intent];
      Await();
      ok := *;
      persistPending := !ok;
    }

    /** Persist and remember whether it worked. */
    method Persist()
      requires Valid() && mon.owed.Nothing?
      modifies `now, `intent, `saving, `journal, `mon, `persisted, `persistPending, `saves, `commands, `correcting
      ensures Valid()
      ensures Steady(old(mon), mon) && mon.work == old(mon).work && mon.owed.Nothing?
      ensures OnlyCommands(old(mon), mon)
      ensures old(now) <= now
      ensures persistPending == !persisted && saves == old(saves) + [old(intent)]
    {
      var ok := SaveIntent();
      persisted := ok;
    }

    // ---- wire primitives (the lock is held) --------------------------------------------

    ghost method NoteRead(register: nat, result: Option<nat>)
      requires Recorded() && mon.owed.Nothing?
      modifies `journal, `mon
      ensures Recorded()
      ensures mon == old(mon).Plain().(work := old(mon).AfterRead(register, result))
      ensures journal == old(journal) + [ReadBack(register, result)]
    {
      Note(ReadBack(register, result));
    }

    ghost method NoteWrite(address: nat, value: nat)
      requires Recorded() && WritePermitted(mon, address, value)
      modifies `journal, `mon
      ensures Recorded()
      ensures mon == old(mon).Plain().(work := old(mon).AfterWrite(address, value))
      ensures journal == old(journal) + [Wrote(address, value)]
    {
      Note(Wrote(address, value));
    }

    /** The journal ends with this entry. */
    ghost predicate LastEntry(e: Entry)
      reads `journal
    {
      journal != [] && journal[|journal| - 1] == e
    }

    /** ... with a read-back of this register, good if it shows this value, ... */
    ghost predicate Answered(register: nat, value: nat, good: bool)
      reads `journal
    {
      && journal != []
      && var e := journal[|journal| - 1];
         e.ReadBack? && e.register == register && good == (e.result == Some(value))
    }

    /** ... or this one comes right before its last. */
    ghost predicate EntryBeforeLast(e: Entry)
      reads `journal
    {
      |journal| >= 2 && journal[|journal| - 2] == e
    }

    /** A fresh read of one register. */
    method Read(register: nat) returns (result: Option<nat>)
      requires Valid() && mon.owed.Nothing?
      modifies `now, `intent, `saving, `journal, `mon, `persisted, `persistPending, `commands, `correcting
      ensures Valid() && mon.owed.Nothing?
      ensures Steady(old(mon), mon)
      ensures mon.quiet == old(mon).quiet.Read(register, result)
      ensures mon.proof == old(mon).Proven(register, result)
      ensures mon.tally == old(mon).tally.Read(register, result)
      ensures mon.halt == old(mon).halt && mon.course == old(mon).course
      ensures mon.debt == old(mon).debt.Read(register, result)
      ensures LastEntry(ReadBack(register, result))
      ensures OnlyCommands(old(mon), mon)
      ensures old(now) <= now
    {
      Await();
      result := *;
      NoteRead(register, result);
    }

    /** The block with status, cable, power and fault code, decoded. */
    method ReadStatus() returns (ev: Evidence, ghost block: Option<seq<nat>>)
      requires Valid() && mon.owed.Nothing?
      modifies `now, `intent, `saving, `journal, `mon, `persisted, `persistPending, `commands, `correcting
      ensures Valid()
      ensures Steady(old(mon), mon) && mon.work == old(mon).work && mon.owed.Nothing?
      ensures old(now) <= now
      ensures ev == Decoded(block, now)
      ensures OnlyCommands(old(mon), mon)
    {
      Await();
      var regs: Option<seq<nat>> := *;
      block := regs;
      if regs.Some? && |regs.value| >= STATUS_READ_COUNT {
        ev := FromStatusRead(regs.value, now);
      } else {
        ev := Unread(now);
      }
    }

    method Dispatch(address: nat, value: nat)
      requires Valid() && WritePermitted(mon, address, value)
      modifies `now, `intent, `saving, `journal, `mon, `persisted, `persistPending, `commands, `correcting, `lastRefusal
      ensures Busy() && Steady(old(mon), mon)
      ensures mon.quiet == old(mon).quiet.Write(address, value)
      ensures mon.tally == old(mon).tally.Write(address, value)
      ensures mon.halt == old(mon).halt.Write(address) && mon.course == old(mon).course.Write(address, value)
      ensures mon.debt == old(mon).debt.Write(address, value)
      ensures old(now) <= now
      ensures OnlyCommands(old(mon), mon)
    {
      NoteWrite(address, value);
      Await();
      var _ := TakeOutcome(address);
    }

    /** Whatever became of the write, only a definite refusal is remembered. */
    method TakeOutcome(address: nat) returns (ghost outcome: WriteOutcome)
      modifies `lastRefusal
      ensures lastRefusal == if outcome.Refused? then Some((address, outcome.code)) else old(lastRefusal)
    {
      var o: WriteOutcome := *;
      outcome := o;
      if o.Refused? {
        lastRefusal := Some((address, o.code));
      }
    }

    lemma ProtectIsProtected()
      requires Valid()
      ensures (protect != {}) == mon.Protected()
    {
      forall r | r in protect ensures mon.Protected() {
        assert r.TelemetryUncertain? || r.SafetyUnconfirmed?;
      }
    }

    /** (power, current) the latest intent wants on the wire. */
    function CurrentWire(): Wire
      reads `intent, `protect, `released
    {
      WireOf(intent, protect != {}, released)
    }

    /** Dispatch one write; comparing with the latest intent is the last step before it
        goes out, so nothing superseded ever does. */
    method Send(address: nat, value: nat, wire: Option<Wire>) returns (r: Flow)
      requires Valid() && mon.run.Some? && Fits(mon, address, value, wire) && Timely(mon, address, value)
      requires mon.owed.Nothing? || (mon.owed == Owed.Write(address, value) && OnWire(mon, wire))
      modifies `now, `intent, `saving, `journal, `mon, `persisted, `persistPending, `commands, `correcting, `lastRefusal
      ensures Busy()
      ensures r == if OnWire(old(mon), wire) then Fine else Flow.Superseded
      ensures r.Fine? ==> Steady(old(mon), mon)
      ensures r.Fine? ==> mon.quiet == old(mon).quiet.Write(address, value)
      ensures r.Fine? ==> mon.tally == old(mon).tally.Write(address, value)
      ensures r.Fine? ==> mon.halt == old(mon).halt.Write(address)
                          && mon.course == old(mon).course.Write(address, value)
                          && mon.debt == old(mon).debt.Write(address, value)
      ensures !r.Fine? ==> mon == old(mon)
      ensures old(now) <= now
      ensures OnlyCommands(old(mon), mon)
    {
      r := CheckWire(wire);
      if !r.Fine? {
        return;
      }
      FitsPermits(mon, address, value, wire);
      Dispatch(address, value);
      return Fine;
    }

    /** The last write was this one and was read back; the evidence later steps rely on is
        there. */
    ghost predicate Shown(address: nat, value: nat)
      reads `mon
    {
      && mon.tally.Shows(address, value)
      && (address == REG_MAX_CHARGING_POWER && value == 0 ==> mon.quiet.zeroBack)
      && (mon.run.Some? && address == REG_MAX_CHARGING_POWER && mon.run.value.asked.power == Some(value)
          ==> mon.proof.output)
      && (mon.run.Some? && address == REG_MAX_CHARGING_CURRENT && mon.run.value.asked.current == Some(value)
          ==> mon.proof.current)
      && (address == REG_TIME_VALIDITY && 0 < value <= MAX_FIXED_VALIDITY ==> mon.proof.validity)
      && (address == REG_DEFAULT_CURRENT && value == SAFETY_FALLBACK_CURRENT_RAW ==> mon.proof.fallback)
    }

    /** Read the register back. */
    method Verify(address: nat, value: nat) returns (good: bool)
      requires Busy()
      requires mon.tally.last == Some((address, value))
      requires address == REG_MAX_CHARGING_POWER && value == 0 ==> mon.quiet.zeroSent
      modifies `now, `intent, `saving, `journal, `mon, `persisted, `persistPending, `commands, `correcting
      ensures Busy() && Written(old(mon), mon)
      ensures mon.tally == if good then old(mon).tally.(open := false) else old(mon).tally
      ensures Answered(address, value, good)
      ensures good ==> Shown(address, value)
      ensures Kept(old(mon).quiet, mon.quiet) && mon.course == old(mon).course
      ensures address == REG_MAX_CHARGING_POWER && value == 0 ==>
                mon.debt == if good then old(mon).debt.Read(address, Some(value)) else old(mon).debt
      ensures old(now) <= now
    {
      var back := Read(address);
      good := back == Some(value);
    }

    method WriteOnce(address: nat, value: nat, wire: Option<Wire>) returns (r: Flow, good: bool)
      requires Valid() && mon.run.Some? && Fits(mon, address, value, wire) && Timely(mon, address, value)
      requires mon.owed.Nothing? || (mon.owed == Owed.Write(address, value) && OnWire(mon, wire))
      modifies `now, `intent, `saving, `journal, `mon, `persisted, `persistPending, `commands, `correcting, `lastRefusal
      ensures Busy() && OneWrite(old(mon), mon, address, value)
      ensures r == if OnWire(old(mon), wire) then Fine else Flow.Superseded
      ensures !r.Fine? ==> !good && mon == old(mon)
      ensures good ==> Shown(address, value)
      ensures r.Fine? ==>
                mon.tally == Tally(Some((address, value)), !good, old(mon).tally.missed || old(mon).tally.open)
      ensures r.Fine? ==> mon.course == old(mon).course.Write(address, value) && Answered(address, value, good)
      ensures r.Fine? ==> Pays(old(mon).debt, mon.debt, address, value, good)
      ensures old(now) <= now
    {
      r := Send(address, value, wire);
      if !r.Fine? {
        NoWrite(mon, address, value);
        return r, false;
      }
      ghost var m := mon;
      ZeroIsSent(old(mon).quiet, old(mon).tally, address, value);
      good := Verify(address, value);
      WriteThenRead(old(mon), m, mon, address, value);
      ZeroPays(old(mon).debt, mon.debt, address, value, good);
    }

    /** Wait for the next retry, but not beyond the deadline. */
    method Backoff(deadline: real, ghost left: real)
      requires Valid() && mon.owed.Nothing? && now < deadline && deadline - now <= left
      modifies `now, `intent, `saving, `journal, `mon, `persisted, `persistPending, `commands, `correcting
      ensures Valid() && mon.owed.Nothing?
      ensures Steady(old(mon), mon) && mon.work == old(mon).work
      ensures old(now) <= now
      ensures Rounds(deadline - now, retry) < Rounds(left, retry)
      ensures OnlyCommands(old(mon), mon)
    {
      Sleep(Min(retry, Max(0.0, deadline - now)));
      RoundsDrop(left, deadline - now, retry);
    }

    /** One attempt, and the wait before the next one. */
    method WriteRound(address: nat, value: nat, wire: Option<Wire>, deadline: real) returns (r: Flow, over: bool)
      requires Busy() && Fits(mon, address, value, wire) && address != REG_CHARGING_CONTROL
      requires Timely(mon, address, value)
      modifies `now, `intent, `saving, `journal, `mon, `persisted, `persistPending, `commands, `correcting, `lastRefusal
      ensures Busy()
      ensures Tried(old(mon), mon, address, value, wire, over && r.Fine?, r.Raised?, r.Superseded?)
      ensures !OnWire(old(mon), wire) ==> mon == old(mon)
      ensures r.Raised? ==> now >= deadline
      ensures over && r.Fine? ==> Shown(address, value)
      ensures !over ==> r.Fine? && Rounds(deadline - now, retry) < Rounds(deadline - old(now), retry)
      ensures old(now) <= now
    {
      ghost var left := deadline - now;
      r, over := WriteOnce(address, value, wire);
      if !r.Fine? || over {
        return r, true;
      }
      if now >= deadline {
        return Raised, true;
      }
      ghost var m := mon;
      Backoff(deadline, left);
      TriedWaits(old(mon), m, mon, address, value, wire);
    }

    /** Write until a fresh read-back confirms it. */
    method WriteConfirmed(address: nat, value: nat, wire: Option<Wire>, deadline: real) returns (r: Flow)
      requires Busy() && Fits(mon, address, value, wire) && address != REG_CHARGING_CONTROL
      requires Timely(mon, address, value)
      modifies `now, `intent, `saving, `journal, `mon, `persisted, `persistPending, `commands, `correcting, `lastRefusal
      ensures Busy()
      ensures Tried(old(mon), mon, address, value, wire, r.Fine?, r.Raised?, r.Superseded?)
      ensures r.Raised? ==> now >= deadline
      ensures r.Fine? ==> Shown(address, value)
      ensures old(now) <= now
    {
      var over := false;
      r := Fine;
      while !over
        invariant Busy()
        invariant (!over && mon == old(mon))
               || Tried(old(mon), mon, address, value, wire, over && r.Fine?, r.Raised?, r.Superseded?)
        invariant r.Raised? ==> over && now >= deadline
        invariant r.Superseded? ==> over
        invariant over && r.Fine? ==> Shown(address, value)
        invariant old(now) <= now
        decreases !over, Rounds(deadline - now, retry)
      {
        ghost var m := mon;
        FitsTried(old(mon), m, address, value, wire);
        r, over := WriteRound(address, value, wire, deadline);
        TriedThen(old(mon), m, mon, address, value, wire, over && r.Fine?, r.Raised?, r.Superseded?);
      }
    }

    // ---- what a status frame means -------------------------------------------------------

    /** The bookkeeping of one observation. */
    method TrackTelemetry(ev: Evidence)
      modifies `badSince, `badCount, `goodFirst, `protect, `holdSince
      ensures Tel() == Telemetry.Step(old(Tel()), ev, grace)
      ensures SafetyUnconfirmed in protect <==> SafetyUnconfirmed in old(protect)
      ensures holdSince == if old(Tel()).protected && !Tel().protected then None else old(holdSince)
    {
      if ev.Valid() {
        badSince, badCount := None, 0;
        var first := goodFirst;
        if TelemetryUncertain !in protect {
          goodFirst := None;
        } else if first.Some? && first.value.Agrees(ev) {
          if ev.at - first.value.at >= OBSERVATION_GAP {
            goodFirst := None;
            protect := protect - {TelemetryUncertain};
            holdSince := None;
          }
        } else {
          goodFirst := Some(ev);
        }
      } else {
        goodFirst := None;
        badCount := badCount + 1;
        if badSince.None? {
          badSince := Some(ev.at);
        }
        if badCount >= 2 && ev.at - badSince.value >= grace {
          protect := protect + {TelemetryUncertain};
        }
      }
    }

    /** Track telemetry validity; true if the protective state changed. */
    method NoteTelemetry(ev: Evidence) returns (changed: bool)
      requires Busy() && mon.MayLook() && mon.clock <= ev.at <= now
      modifies `badSince, `badCount, `goodFirst, `protect, `holdSince, `journal, `mon
      ensures Valid()
      ensures mon == StepFrame(old(mon), ev)
      ensures journal == old(journal) + [Frame(ev)]
      ensures changed == (old(mon).tel.protected != mon.tel.protected)
    {
      FrameMoves(mon, ev);
      NoteFrame(ev);
      changed := MoveTelemetry(ev);
    }

    /** The bookkeeping, and whether it switched the protection. */
    method MoveTelemetry(ev: Evidence) returns (changed: bool)
      modifies `badSince, `badCount, `goodFirst, `protect, `holdSince
      ensures Fields() == old(Fields()).(
                tel := Telemetry.Step(old(Tel()), ev, grace),
                hold := if old(Tel()).protected && !Telemetry.Step(old(Tel()), ev, grace).protected then None
                        else old(holdSince))
      ensures changed == (old(Tel()).protected != Tel().protected)
    {
      var before := TelemetryUncertain in protect;
      TrackTelemetry(ev);
      changed := before != (TelemetryUncertain in protect);
    }

    /** Latch in memory. */
    method SetLatch(comms: bool)
      requires Valid() && mon.run.Some? && (comms ==> !intent.PermanentLatch())
      requires mon.owed == if comms then LinkLatch else FaultLatch
      modifies `intent, `journal, `mon
      ensures Valid()
      ensures Steady(old(mon), mon) && mon.work == old(mon).work && mon.enables == old(mon).enables
      ensures Latches(old(mon), mon)
      ensures mon.owed == if intent.stop then Nothing else Owed.Write(REG_MAX_CHARGING_POWER, 0)
      ensures intent == old(intent).Next().(latched := true, comms := comms)
    {
      intent := intent.Next().(latched := true, comms := comms);
      NoteLatch(intent);
    }

    /** One protective zero, unless a Stop fallback silences the setpoints. */
    method ZeroOnce()
      requires Valid() && mon.run.Some?
      requires mon.owed == if intent.stop then Nothing else Owed.Write(REG_MAX_CHARGING_POWER, 0)
      modifies `now, `intent, `saving, `journal, `mon, `persisted, `persistPending, `commands, `correcting, `lastRefusal
      ensures Busy() && Steady(old(mon), mon) && OnlyCommands(old(mon), mon)
      ensures Kept(old(mon).quiet, mon.quiet) && mon.halt == old(mon).halt
      ensures old(now) <= now
    {
      if !intent.stop {
        var _, _ := WriteOnce(REG_MAX_CHARGING_POWER, 0, None);
      }
    }

    /** Latch in memory, send the zero, and only then save. */
    method LatchNow(comms: bool)
      requires Valid() && mon.run.Some? && (comms ==> !intent.PermanentLatch())
      requires mon.owed == if comms then LinkLatch else FaultLatch
      modifies `now, `intent, `saving, `journal, `mon, `persisted, `persistPending, `saves
      modifies `commands, `correcting, `lastRefusal
      ensures Busy() && Steady(old(mon), mon) && Latches(old(mon), mon)
      ensures Kept(old(mon).quiet, mon.quiet) && mon.halt == old(mon).halt
      ensures mon.enables == old(mon).enables ==> intent.latched && (!comms ==> intent.PermanentLatch())
      ensures |saves| == |old(saves)| + 1
      ensures old(now) <= now
    {
      SetLatch(comms);
      ghost var m := mon;
      ZeroOnce();
      ghost var n := mon;
      Persist();
      LatchAndZero(old(mon), m, n, mon);
    }

    /** A latch, its zero, and commands meanwhile. */
    lemma LatchAndZero(a: Mon, b: Mon, c: Mon, d: Mon)
      requires Steady(a, b) && Latches(a, b)
      requires Steady(b, c) && OnlyCommands(b, c)
      requires Steady(c, d) && OnlyCommands(c, d)
      ensures Steady(a, d) && Latches(a, d)
    {
      SteadyThen(b, c, d);
      SteadyThen(a, b, d);
      LatchesThen(b, c, d);
      LatchesThen(a, b, d);
    }

    /** Latch the fault and make one protective zero attempt.  `comms` is a latch that
        only an unconfirmed write or read-back caused; it never replaces another cause. */
    method LatchFault(comms: bool)
      requires Valid() && mon.run.Some?
      requires if comms then mon.owed == mon.LinkOwed() else mon.owed.FaultLatch? && !intent.PermanentLatch()
      modifies `now, `intent, `saving, `journal, `mon, `persisted, `persistPending, `saves
      modifies `commands, `correcting, `lastRefusal
      ensures Busy() && Steady(old(mon), mon) && Latches(old(mon), mon)
      ensures Kept(old(mon).quiet, mon.quiet) && mon.halt == old(mon).halt
      ensures mon.enables == old(mon).enables ==> intent.latched && (!comms ==> intent.PermanentLatch())
      ensures old(now) <= now
    {
      var c := comms && (!intent.latched || intent.comms);
      if !intent.latched || c != intent.comms {
        LatchNow(c);
      } else {
        ZeroOnce();
      }
    }

    /** Latch on a hard fault.  Fault evidence stands on its own: an unknown field in the
        same frame does not mask it.  True if the latch was newly set. */
    method NoteFault(ev: Evidence) returns (newly: bool)
      requires Valid() && mon.run.Some?
      requires mon.owed == if ev.Faulted() && !intent.PermanentLatch() then FaultLatch else Nothing
      modifies `now, `intent, `saving, `journal, `mon, `persisted, `persistPending, `saves
      modifies `commands, `correcting, `lastRefusal
      ensures Busy() && Steady(old(mon), mon) && Latches(old(mon), mon)
      ensures Kept(old(mon).quiet, mon.quiet) && mon.halt == old(mon).halt
      ensures newly == (ev.Faulted() && !old(intent).PermanentLatch())
      ensures ev.Faulted() && mon.enables == old(mon).enables ==> intent.PermanentLatch()
      ensures old(now) <= now
    {
      if !ev.Faulted() || (intent.latched && !intent.comms) {
        return false;
      }
      LatchFault(false);
      return true;
    }

    /** Telemetry grace and fault latch; true if either changed. */
    method Judge(ev: Evidence) returns (changed: bool)
      requires Busy() && mon.MayLook() && mon.clock <= ev.at <= now
      modifies `now, `intent, `saving, `journal, `mon, `persisted, `persistPending, `saves
      modifies `commands, `correcting, `lastRefusal
      modifies `badSince, `badCount, `goodFirst, `protect, `holdSince
      ensures Busy() && Worked(old(mon), mon) && Latches(old(mon), mon) && mon.stopAt == old(mon).stopAt
      ensures old(mon).quiet.zeroBack ==> Kept(old(mon).quiet.See(ev), mon.quiet)
      ensures mon.halt == old(mon).halt.See(ev)
      ensures !old(mon).run.value.Keeps() ==> mon.Sees(ev) && FaultHandled(mon)
      ensures mon.tel == Telemetry.Step(old(mon).tel, ev, grace)
      ensures changed == (mon.tel.protected != old(mon).tel.protected
                          || (ev.Faulted() && !old(intent).PermanentLatch()))
      ensures old(now) <= now
    {
      changed := NoteTelemetry(ev);
      ghost var n := mon;
      FrameWorked(old(mon), ev);
      var newly := NoteFault(ev);
      SteadyWorked(n, mon);
      WorkedThen(old(mon), n, mon);
      LatchesThen(old(mon), n, mon);
      changed := changed || newly;
    }

    /** A fresh status read on a command path.  A new fault latch puts zero on the wire
        before the command goes any further. */
    method Observe() returns (ev: Evidence)
      requires Busy() && mon.MayLook()
      modifies `now, `intent, `saving, `journal, `mon, `persisted, `persistPending, `saves
      modifies `commands, `correcting, `lastRefusal
      modifies `badSince, `badCount, `goodFirst, `protect, `holdSince
      ensures Busy() && Worked(old(mon), mon) && Latches(old(mon), mon) && mon.stopAt == old(mon).stopAt
      ensures old(mon).quiet.zeroBack ==> Kept(old(mon).quiet.See(ev), mon.quiet)
      ensures mon.halt == old(mon).halt.See(ev)
      ensures !old(mon).run.value.Keeps() ==> mon.Sees(ev) && FaultHandled(mon)
      ensures old(now) <= ev.at <= now
    {
      ghost var block;
      ev, block := ReadStatus();
      ghost var m := mon;
      SteadyWorked(old(mon), m);
      var _ := Judge(ev);
      WorkedThen(old(mon), m, mon);
      LatchesThen(old(mon), m, mon);
    }

    // ---- reducing what the intent permits ------------------------------------------------

    method SetReduced(cause: Cause, a: Intent)
      requires Valid() && mon.run.Some? && Reduction(cause, intent, a)
      requires if cause == SessionEnded then mon.owed.SessionEnd? else mon.owed.Nothing?
      requires MayReduce(mon, cause)
      modifies `intent, `journal, `mon
      ensures Busy() && intent == a
      ensures Labored(old(mon), mon) && (cause != Revoked ==> Worked(old(mon), mon))
      ensures mon.work == WorkAfter(old(mon), cause)
      ensures mon.enables == old(mon).enables && mon.commands == old(mon).commands
      ensures cause !in {StopConfirmed, Revoked} ==> Steady(old(mon), mon)
      ensures mon.run == RunAfter(old(mon), cause)
      ensures cause != StopConfirmed ==> mon.stopAt == old(mon).stopAt
    {
      NoteReduction(cause, a);
      ReductionWorked(old(mon), cause, a, mon);
      intent := a;
    }

    /** Change the intent, then save it. */
    method Update(cause: Cause, a: Intent)
      requires Valid() && mon.run.Some? && Reduction(cause, intent, a)
      requires if cause == SessionEnded then mon.owed.SessionEnd? else mon.owed.Nothing?
      requires MayReduce(mon, cause)
      modifies `now, `intent, `saving, `journal, `mon, `persisted, `persistPending, `saves, `commands, `correcting
      ensures Busy()
      ensures Labored(old(mon), mon) && (cause != Revoked ==> Worked(old(mon), mon))
      ensures mon.work == WorkAfter(old(mon), cause)
      ensures mon.commands == old(mon).commands ==> intent == a
      ensures saves == old(saves) + [a]
      ensures cause !in {StopConfirmed, Revoked} ==> Steady(old(mon), mon)
      ensures mon.run == RunAfter(old(mon), cause)
      ensures cause != StopConfirmed ==> mon.stopAt == old(mon).stopAt
      ensures mon.enables == old(mon).enables ==>
                && (intent.enabled ==> a.enabled) && (a.latched ==> intent.latched)
                && (a.PermanentLatch() ==> intent.PermanentLatch()) && (a.stop ==> intent.stop)
      ensures old(now) <= now
    {
      SetReduced(cause, a);
      ghost var m := mon;
      Persist();
      ReducedAndSaved(old(mon), m, mon);
    }

    lemma ReducedAndSaved(a: Mon, b: Mon, c: Mon)
      requires Labored(a, b) && Steady(b, c)
      ensures Labored(a, c) && (Worked(a, b) ==> Worked(a, c)) && (Steady(a, b) ==> Steady(a, c))
    {
      SteadyWorked(b, c);
      LaboredThen(a, b, c);
      if Steady(a, b) {
        SteadyThen(a, b, c);
      }
    }

    // ---- watching and stopping -----------------------------------------------------------

    /** One look of `AwaitEvidence`; `next` starts the current run of quiet frames. */
    method Watch(stopped: bool, first: Option<real>) returns (next: Option<real>, done: bool)
      requires Busy() && mon.MayWatch()
      modifies `now, `intent, `saving, `journal, `mon, `persisted, `persistPending, `saves
      modifies `commands, `correcting, `lastRefusal
      modifies `badSince, `badCount, `goodFirst, `protect, `holdSince
      ensures Busy() && Watching(old(mon), mon, stopped, first, next, done)
      ensures old(now) <= now
    {
      var ev := Observe();
      ghost var n, q := LookingIsWatching(old(mon), mon, stopped, ev, first);
      done := false;
      if (if stopped then ev.StoppedQuiet() else ev.PausedQuiet()) {
        next := if first.None? then Some(ev.at) else first;
        done := first.Some? && ev.at - first.value >= OBSERVATION_GAP;
      } else {
        next := None;
      }
    }

    /** Look, and unless that settled it or time is up, doze. */
    method WatchRound(stopped: bool, first: Option<real>, deadline: real)
      returns (next: Option<real>, quiet: bool, over: bool)
      requires Busy() && mon.MayWatch()
      modifies `now, `intent, `saving, `journal, `mon, `persisted, `persistPending, `saves
      modifies `commands, `correcting, `lastRefusal
      modifies `badSince, `badCount, `goodFirst, `protect, `holdSince
      ensures Busy() && Watching(old(mon), mon, stopped, first, next, quiet)
      ensures if over then quiet || now >= deadline
              else !quiet && Rounds(deadline - now, POLL_STEP) < Rounds(deadline - old(now), POLL_STEP)
      ensures old(now) <= now
    {
      ghost var left := deadline - now;
      next, quiet := Watch(stopped, first);
      over := quiet || now >= deadline;
      if !over {
        ghost var n := mon;
        Doze(deadline, left);
        DozingIsWatching(old(mon), n, mon, stopped, first, next);
      }
    }

    /** One turn of the loop below: still wanted, quiet, out of time, or look again. */
    method WatchStep(stopped: bool, wire: Option<Wire>, first: Option<real>, deadline: real)
      returns (r: Flow, next: Option<real>, quiet: bool, over: bool)
      requires Busy() && mon.MayWatch()
      modifies `now, `intent, `saving, `journal, `mon, `persisted, `persistPending, `saves
      modifies `commands, `correcting, `lastRefusal
      modifies `badSince, `badCount, `goodFirst, `protect, `holdSince
      ensures Busy() && Watching(old(mon), mon, stopped, first, next, quiet)
      ensures !r.Raised? && (!r.Fine? ==> !OnWire(mon, wire))
      ensures Timed(r, quiet, over, deadline)
      ensures !OnWire(old(mon), wire) ==> r.Superseded? && mon == old(mon)
      ensures !over ==> Rounds(deadline - now, POLL_STEP) < Rounds(deadline - old(now), POLL_STEP)
      ensures old(now) <= now
    {
      r := CheckWire(wire);
      if r.Fine? {
        next, quiet, over := WatchRound(stopped, first, deadline);
      } else {
        next, quiet, over := first, false, true;
      }
    }

    /** How watching stands: quiet and not superseded, out of time, or not over. */
    predicate Timed(r: Flow, quiet: bool, over: bool, deadline: real)
      reads `now
    {
      if !r.Fine? then over && !quiet else if over then quiet || now >= deadline else !quiet
    }

    /** Poll fresh status until it is quiet twice, a second apart. */
    method AwaitEvidence(stopped: bool, wire: Option<Wire>, deadline: real) returns (r: Flow, quiet: bool)
      requires Busy() && mon.MayWatch()
      modifies `now, `intent, `saving, `journal, `mon, `persisted, `persistPending, `saves
      modifies `commands, `correcting, `lastRefusal
      modifies `badSince, `badCount, `goodFirst, `protect, `holdSince
      ensures Busy() && Watched(old(mon), mon, stopped, quiet)
      ensures !r.Raised? && (!r.Fine? ==> !OnWire(mon, wire))
      ensures Timed(r, quiet, true, deadline)
      ensures !OnWire(old(mon), wire) ==> r.Superseded? && mon == old(mon)
      ensures old(now) <= now
    {
      var first: Option<real>, over := None, false;
      r, quiet := Fine, false;
      while !over
        invariant Busy() && Watching(old(mon), mon, stopped, None, first, quiet)
        invariant !r.Raised? && (!r.Fine? ==> over && !OnWire(mon, wire))
        invariant Timed(r, quiet, over, deadline)
        invariant !OnWire(old(mon), wire) ==> mon == old(mon) && (over ==> r.Superseded?)
        invariant old(now) <= now
        decreases !over, Rounds(deadline - now, POLL_STEP)
      {
        ghost var m, before := mon, first;
        r, first, quiet, over := WatchStep(stopped, wire, first, deadline);
        WatchingThen(old(mon), m, mon, stopped, None, before, first, quiet);
      }
      WatchingEnds(old(mon), mon, stopped, first, quiet);
    }

    /** Drop the work if the latest intent wants something else on the wire. */
    method CheckWire(wire: Option<Wire>) returns (r: Flow)
      requires Valid()
      ensures r == if OnWire(mon, wire) then Fine else Flow.Superseded
    {
      ProtectIsProtected();
      r := if wire.Some? && CurrentWire() != wire.value then Flow.Superseded else Fine;
    }

    /** The pause between two status reads. */
    method Doze(deadline: real, ghost left: real)
      requires Busy() && now < deadline && deadline - now <= left
      modifies `now, `intent, `saving, `journal, `mon, `persisted, `persistPending, `commands, `correcting
      ensures Busy() && Steady(old(mon), mon) && Worked(old(mon), mon) && OnlyCommands(old(mon), mon)
      ensures mon.work == old(mon).work && mon.run == old(mon).run && mon.stopAt == old(mon).stopAt
      ensures mon.tel == old(mon).tel && mon.stopAt == old(mon).stopAt
      ensures old(now) <= now
      ensures Rounds(deadline - now, POLL_STEP) < Rounds(left, POLL_STEP)
    {
      Sleep(POLL_STEP);
      RoundsDrop(left, deadline - now, POLL_STEP);
      SteadyWorked(old(mon), mon);
    }

    /** Send Stop and watch for it to take effect until the next retry is due. */
    method SendStop(deadline: real) returns (quiet: bool)
      requires Valid() && StopReady(mon) && mon.MayWatch() && intent.ExplicitZero()
      modifies `now, `intent, `saving, `journal, `mon, `persisted, `persistPending, `saves
      modifies `commands, `correcting, `lastRefusal
      modifies `badSince, `badCount, `goodFirst, `protect, `holdSince
      ensures Busy() && Worked(old(mon), mon)
      ensures mon.halt.sent && mon.halt.settled == quiet
      ensures old(mon).quiet.zeroBack ==> mon.quiet.zeroBack && (quiet ==> mon.quiet.settled)
      ensures !quiet && now < deadline ==> now >= old(now) + retry
      ensures old(now) <= now
    {
      var f := Send(REG_CHARGING_CONTROL, STOP_COMMAND, None);
      ghost var m := mon;
      SteadyWorked(old(mon), m);
      f, quiet := AwaitEvidence(true, None, Min(deadline, now + retry));
      WorkedThen(old(mon), m, mon);
    }

    /** One attempt of the Stop fallback. */
    method StopRound(deadline: real) returns (r: Flow, over: bool)
      requires Valid() && StopReady(mon) && mon.MayWatch()
      modifies `now, `intent, `saving, `journal, `mon, `persisted, `persistPending, `saves
      modifies `commands, `correcting, `lastRefusal
      modifies `badSince, `badCount, `goodFirst, `protect, `holdSince
      ensures Busy() && Stopping(old(mon), mon, over && r.Fine?, r.Raised?, r.Superseded?)
      ensures r.Raised? ==> now >= deadline
      ensures !r.Fine? ==> over
      ensures !over ==> Rounds(deadline - now, retry) < Rounds(deadline - old(now), retry)
      ensures old(now) <= now
    {
      if !intent.ExplicitZero() {
        return Flow.Superseded, true;   // the user re-enabled meanwhile: do not stop
      }
      ghost var left := deadline - now;
      var quiet := SendStop(deadline);
      over := quiet || now >= deadline;
      if over {
        ghost var m := mon;
        r := StopEnds(quiet);
        WorkedThen(old(mon), m, mon);
      } else {
        r := Fine;
        RoundsDrop(left, deadline - now, retry);
      }
    }

    /** The Stop took effect and is remembered, or time is up and the fault is latched. */
    method StopEnds(quiet: bool) returns (r: Flow)
      requires Busy() && mon.halt.sent && mon.halt.settled == quiet
      modifies `now, `intent, `saving, `journal, `mon, `persisted, `persistPending, `saves, `commands, `correcting
      ensures Busy() && Worked(old(mon), mon) && mon.work == old(mon).work
      ensures r == if quiet then Fine else Raised
      ensures mon.enables == old(mon).enables ==> if quiet then intent.stop else intent.latched
      ensures old(now) <= now
    {
      if quiet {
        Update(StopConfirmed, intent.Next().(stop := true, comms := false));
        return Fine;
      }
      Update(Unstoppable, intent.Next().(latched := true, comms := false));
      return Raised;
    }

    /** Zero power did not stop charging: 0x4001 Stop, confirmed, then the fallback. */
    method StopSequence() returns (r: Flow)
      requires Valid() && StopReady(mon) && mon.MayWatch()
      modifies `now, `intent, `saving, `journal, `mon, `persisted, `persistPending, `saves
      modifies `commands, `correcting, `lastRefusal
      modifies `badSince, `badCount, `goodFirst, `protect, `holdSince
      ensures Busy() && Stopping(old(mon), mon, r.Fine?, r.Raised?, r.Superseded?)
      ensures r.Raised? ==> now >= old(now) + timeout
      ensures old(now) <= now
    {
      var deadline, over := now + timeout, false;
      r := Fine;
      while !over
        invariant Valid() && StopGoesOn(old(mon), mon, over, over && r.Fine?, r.Raised?, r.Superseded?)
        invariant r.Raised? ==> now >= deadline
        invariant old(now) <= now
        decreases !over, Rounds(deadline - now, retry)
      {
        ghost var m := mon;
        r, over := StopRound(deadline);
        StopContinues(old(mon), m, mon, over, over && r.Fine?, r.Raised?, r.Superseded?);
      }
    }

    ghost method NoteSpared()
      requires Recorded() && mon.owed.Nothing? && mon.intent.stop && mon.work.failed && mon.debt.LookDue?
      modifies `journal, `mon
      ensures Recorded()
      ensures mon == old(mon).Plain().(work := old(mon).work.(debt := Clear))
    {
      Note(Spared);
    }

    /** A Stop in force spares the look. */
    ghost method Spare()
      requires Busy() && intent.stop && mon.work.failed && (mon.debt.LookDue? || mon.debt.Clear?)
      modifies `journal, `mon
      ensures Busy() && Labored(old(mon), mon) && mon.debt.Clear?
      ensures mon.quiet == old(mon).quiet && mon.halt == old(mon).halt
    {
      if mon.debt.LookDue? {
        NoteSpared();
      }
    }

    /** A zero setpoint could not be confirmed: use Stop if the charger still draws. */
    method StopIfDrawing() returns (r: Flow, ghost seen: Option<Evidence>)
      requires Busy() && mon.MayWatch() && mon.work.failed && (mon.debt.LookDue? || mon.debt.Clear?)
      modifies `now, `intent, `saving, `journal, `mon, `persisted, `persistPending, `saves
      modifies `commands, `correcting, `lastRefusal
      modifies `badSince, `badCount, `goodFirst, `protect, `holdSince
      ensures Busy() && Labored(old(mon), mon) && mon.debt.Clear?
      ensures seen.None? <==> old(intent).stop
      ensures !(seen.Some? && seen.value.Drawing()) ==> r.Fine? && mon.quiet == old(mon).quiet
      ensures seen.Some? && seen.value.Drawing() ==> r.Superseded? || mon.halt.sent
      ensures r.Superseded? ==> !intent.ExplicitZero()
      ensures old(now) <= now
    {
      if intent.stop {
        Spare();
        return Fine, None;
      }
      r, seen := StopDrawing();
    }

    /** Look, and stop a charger that draws. */
    method StopDrawing() returns (r: Flow, ghost seen: Option<Evidence>)
      requires Busy() && mon.MayWatch() && (mon.debt.LookDue? || mon.debt.Clear?)
      modifies `now, `intent, `saving, `journal, `mon, `persisted, `persistPending, `saves
      modifies `commands, `correcting, `lastRefusal
      modifies `badSince, `badCount, `goodFirst, `protect, `holdSince
      ensures Busy() && Labored(old(mon), mon) && mon.debt.Clear?
      ensures seen.Some?
      ensures !seen.value.Drawing() ==> r.Fine? && mon.quiet == old(mon).quiet
      ensures seen.value.Drawing() ==> r.Superseded? || mon.halt.sent
      ensures r.Superseded? ==> !intent.ExplicitZero()
      ensures old(now) <= now
    {
      var ev := Peek();
      seen := Some(ev);
      ghost var m := mon;
      if ev.Drawing() {
        r := StopSequence();
        LaboredThen(old(mon), m, mon);
      } else {
        r := Fine;
      }
    }

    ghost method NotePeek(ev: Evidence)
      requires Recorded() && mon.owed.Nothing? && ev.at >= mon.clock
      modifies `journal, `mon
      ensures Recorded()
      ensures mon == old(mon).(
                clock := Max(old(mon).clock, ev.at), work := old(mon).work.(debt := old(mon).debt.Look()),
                turn := Owing(old(mon).StopOwed(ev)))
      ensures journal == old(journal) + [Peeked(ev)]
    {
      Note(Peeked(ev));
    }

    /** A status read that feeds neither the telemetry nor the fault processing. */
    method Peek() returns (ev: Evidence)
      requires Valid() && mon.owed.Nothing?
      modifies `now, `intent, `saving, `journal, `mon, `persisted, `persistPending, `commands, `correcting
      ensures Valid() && mon.owed == mon.StopOwed(ev) && Labored(old(mon), mon)
      ensures mon.run == old(mon).run && mon.work == old(mon).work.(debt := old(mon).debt.Look())
      ensures mon.tel == old(mon).tel && mon.hold == old(mon).hold && mon.stopAt == old(mon).stopAt
      ensures OnlyCommands(old(mon), mon)
      ensures LastEntry(Peeked(ev))
      ensures old(now) <= ev.at <= now
    {
      ghost var block;
      ev, block := ReadStatus();
      NotePeek(ev);
    }

    method DropEnable()
      requires Busy() && mon.MayRevoke() && !mon.Stopped() && mon.debt.Clear?
      modifies `now, `intent, `saving, `journal, `mon, `persisted, `persistPending, `saves, `commands, `correcting
      ensures Busy() && Labored(old(mon), mon) && !mon.Stopped() && mon.run.value.revoked && mon.debt.ZeroDue?
      ensures mon.enables == old(mon).enables ==> !intent.enabled
      ensures old(now) <= now
    {
      Update(Revoked, intent.Next().(enabled := false));
    }

    /** A positive command failed: withdraw the authorization and put a confirmed zero on
        the wire, so nothing starts later by itself. */
    method Revoke() returns (r: Flow)
      requires Busy() && mon.MayRevoke() && !mon.Stopped() && mon.debt.Clear?
      modifies `now, `intent, `saving, `journal, `mon, `persisted, `persistPending, `saves
      modifies `commands, `correcting, `lastRefusal
      modifies `badSince, `badCount, `goodFirst, `protect, `holdSince
      ensures Busy() && Labored(old(mon), mon) && mon.debt.Clear?
      ensures mon.enables == old(mon).enables ==> !intent.enabled
      ensures mon.run.value.revoked
      ensures !mon.work.failed ==> r.Fine? && mon.tally.Shows(REG_MAX_CHARGING_POWER, 0)
      ensures (r.Fine? && mon.tally.Shows(REG_MAX_CHARGING_POWER, 0)) || now >= old(now) + timeout
      ensures r.Superseded? ==> !intent.ExplicitZero()
      ensures old(now) <= now
    {
      DropEnable();
      ghost var m := mon;
      r := PutZero();
      LaboredThen(old(mon), m, mon);
    }

    /** A confirmed zero; failing that, a latch, and Stop if the charger still draws. */
    method PutZero() returns (r: Flow)
      requires Busy() && mon.MayWatch() && !mon.Stopped() && mon.debt.ZeroDue? && mon.run.value.revoked
      modifies `now, `intent, `saving, `journal, `mon, `persisted, `persistPending, `saves
      modifies `commands, `correcting, `lastRefusal
      modifies `badSince, `badCount, `goodFirst, `protect, `holdSince
      ensures Busy() && Labored(old(mon), mon) && mon.debt.Clear?
      ensures !mon.work.failed ==> r.Fine? && mon.tally.Shows(REG_MAX_CHARGING_POWER, 0)
      ensures (r.Fine? && mon.tally.Shows(REG_MAX_CHARGING_POWER, 0)) || now >= old(now) + timeout
      ensures r.Superseded? ==> !intent.ExplicitZero()
      ensures old(now) <= now
    {
      r := WriteConfirmed(REG_MAX_CHARGING_POWER, 0, None, now + timeout);
      SteadyWorked(old(mon), mon);
      if r.Raised? {
        ghost var n := mon;
        r := LatchAndStop();
        LaboredThen(old(mon), n, mon);
      }
    }

    ghost method NoteUnconfirmed()
      requires Recorded() && mon.owed.Nothing? && mon.run.Some? && mon.tally.open
      modifies `journal, `mon
      ensures Recorded()
      ensures mon == old(mon).(work := old(mon).work.(debt := old(mon).debt.GiveUp(), failed := true),
                               turn := Owing(old(mon).LinkOwed()))
    {
      Note(Unconfirmed);
    }

    /** The last write was never read back: latch. */
    method LatchUnconfirmed()
      requires Busy() && mon.tally.open
      modifies `now, `intent, `saving, `journal, `mon, `persisted, `persistPending, `saves
      modifies `commands, `correcting, `lastRefusal
      ensures Busy() && Labored(old(mon), mon) && mon.work.failed
      ensures old(mon).debt.GiveUp().Eases(mon.debt)
      ensures mon.run == old(mon).run
      ensures mon.enables == old(mon).enables ==> intent.latched
      ensures old(now) <= now
    {
      NoteUnconfirmed();
      ghost var m := mon;
      LatchFault(true);
      SteadyWorked(m, mon);
      LaboredThen(old(mon), m, mon);
    }

    /** The zero could not be confirmed: latch, and stop whatever still draws. */
    method LatchAndStop() returns (r: Flow)
      requires Busy() && mon.MayWatch() && mon.tally.open && !mon.debt.ZeroDue?
      modifies `now, `intent, `saving, `journal, `mon, `persisted, `persistPending, `saves
      modifies `commands, `correcting, `lastRefusal
      modifies `badSince, `badCount, `goodFirst, `protect, `holdSince
      ensures Busy() && Labored(old(mon), mon) && mon.work.failed && mon.debt.Clear?
      ensures mon.enables == old(mon).enables ==> intent.latched
      ensures r.Superseded? ==> !intent.ExplicitZero()
      ensures old(now) <= now
    {
      LatchUnconfirmed();
      ghost var m := mon;
      ghost var seen;
      r, seen := StopIfDrawing();
      LaboredThen(old(mon), m, mon);
    }

    // ---- applying the latest intent ------------------------------------------------------

    /** Why a start is broken off: a latch, unreadable telemetry, or a charger that refuses. */
    ghost predicate Unsafe()
      reads `intent, `protect, `mon
    {
      || intent.latched || TelemetryUncertain in protect
      || (mon.run.Some? && mon.run.value.frame.Some? && mon.run.value.frame.value.Refusing())
    }

    /** The latest frame leaves it open whether to start: it is unreadable, ... */
    ghost predicate Blind()
      reads `mon
    {
      mon.run.Some? && mon.run.value.frame.Some? && !mon.run.value.frame.value.Valid()
    }

    /** ... or shows neither a session nor an unplugged cable. */
    ghost predicate Undecided()
      reads `mon
    {
      && mon.run.Some? && mon.run.value.frame.Some?
      && !mon.run.value.frame.value.SessionActive() && !mon.run.value.frame.value.CableOut()
    }

    /** An apply that still wants what it was asked for, and owes no zero. */
    ghost predicate Applying(wire: Wire)
      reads `mon
    {
      mon.In(Apply) && mon.Wants(wire) && wire != ZERO && mon.debt.Clear?
    }

    /** One look of the preflight; `settled` unless it has to look again. */
    method PreflightLook(wire: Wire) returns (r: Flow, settled: bool)
      requires Busy() && Applying(wire)
      modifies `now, `intent, `saving, `journal, `mon, `persisted, `persistPending, `saves
      modifies `commands, `correcting, `lastRefusal
      modifies `badSince, `badCount, `goodFirst, `protect, `holdSince
      ensures Busy() && Worked(old(mon), mon) && mon.stopAt == old(mon).stopAt
      ensures settled && r.Fine? ==> mon.Authorized()
      ensures !settled ==> r.Fine? && Blind()
      ensures r.Fine? ==> Applying(wire)
      ensures r.Superseded? ==> settled && mon.Moved()
      ensures !OnWire(old(mon), Some(wire)) ==> r.Superseded? && mon == old(mon)
      ensures r.Raised? ==> settled && Unsafe()
      ensures old(now) <= now
    {
      r := CheckWire(Some(wire));
      if !r.Fine? {
        return r, true;
      }
      var ev := Observe();
      if intent.latched || TelemetryUncertain in protect || ev.Refusing() {
        return Raised, true;          // AbortIfUnsafe, or the charger refuses to charge
      }
      OutputWantedStill(old(mon), mon, wire);
      if ev.Valid() {
        CleanFrameAuthorizes(mon);
      }
      return Fine, ev.Valid();
    }

    method PreflightRound(wire: Wire, deadline: real) returns (r: Flow, over: bool)
      requires Busy() && Applying(wire)
      modifies `now, `intent, `saving, `journal, `mon, `persisted, `persistPending, `saves
      modifies `commands, `correcting, `lastRefusal
      modifies `badSince, `badCount, `goodFirst, `protect, `holdSince
      ensures Busy() && Worked(old(mon), mon) && mon.stopAt == old(mon).stopAt
      ensures over && r.Fine? ==> mon.Authorized()
      ensures r.Fine? ==> Applying(wire)
      ensures r.Superseded? ==> over && mon.Moved()
      ensures !OnWire(old(mon), Some(wire)) ==> r.Superseded? && mon == old(mon)
      ensures r.Raised? ==> over && (Unsafe() || (now >= deadline && Blind()))
      ensures !over ==> Rounds(deadline - now, POLL_STEP) < Rounds(deadline - old(now), POLL_STEP)
      ensures old(now) <= now
    {
      ghost var left := deadline - now;
      r, over := PreflightLook(wire);
      if !over && now >= deadline {
        return Raised, true;
      }
      if !over {
        ghost var m := mon;
        Doze(deadline, left);
        WantsStill(m, mon, wire);
        WorkedThen(old(mon), m, mon);
      }
    }

    /** Before any positive write: a fresh valid, fault-free frame.  An unplugged cable
        passes (the enable is then staged). */
    method Preflight(wire: Wire) returns (r: Flow)
      requires Busy() && Applying(wire)
      modifies `now, `intent, `saving, `journal, `mon, `persisted, `persistPending, `saves
      modifies `commands, `correcting, `lastRefusal
      modifies `badSince, `badCount, `goodFirst, `protect, `holdSince
      ensures Busy() && Worked(old(mon), mon) && mon.stopAt == old(mon).stopAt
      ensures r.Fine? ==> mon.Authorized() && Applying(wire)
      ensures r.Superseded? ==> mon.Moved()
      ensures !OnWire(old(mon), Some(wire)) ==> r.Superseded? && mon == old(mon)
      ensures r.Raised? ==> Unsafe() || (now >= old(now) + startTimeout && Blind())
      ensures old(now) <= now
    {
      var deadline, over := now + startTimeout, false;
      r := Fine;
      while !over
        invariant Busy() && Worked(old(mon), mon) && mon.stopAt == old(mon).stopAt
        invariant over && r.Fine? ==> mon.Authorized()
        invariant r.Fine? ==> Applying(wire)
        invariant r.Superseded? ==> over && mon.Moved()
        invariant !OnWire(old(mon), Some(wire)) ==> mon == old(mon) && (over ==> r.Superseded?)
        invariant r.Raised? ==> over && (Unsafe() || (now >= deadline && Blind()))
        invariant old(now) <= now
        decreases !over, Rounds(deadline - now, POLL_STEP)
      {
        ghost var m := mon;
        r, over := PreflightRound(wire, deadline);
        WorkedThen(old(mon), m, mon);
      }
    }

    /** One look of the session confirmation; `settled` unless it has to look again. */
    method ConfirmLook(wire: Wire) returns (r: Flow, started: bool, settled: bool)
      requires Busy() && Applying(wire)
      modifies `now, `intent, `saving, `journal, `mon, `persisted, `persistPending, `saves
      modifies `commands, `correcting, `lastRefusal
      modifies `badSince, `badCount, `goodFirst, `protect, `holdSince, `lastObs
      ensures Busy() && Worked(old(mon), mon) && mon.stopAt == old(mon).stopAt
      ensures settled && r.Fine? ==> Shows(started)
      ensures !settled ==> r.Fine? && Undecided()
      ensures r.Fine? ==> Applying(wire)
      ensures r.Superseded? ==> settled && mon.Moved()
      ensures !OnWire(old(mon), Some(wire)) ==> r.Superseded? && mon == old(mon)
      ensures r.Raised? ==> settled && Unsafe()
      ensures old(now) <= now
    {
      r := CheckWire(Some(wire));
      if !r.Fine? {
        return r, false, true;
      }
      r, started, settled := LookForStart(wire);
    }

    method LookForStart(ghost wire: Wire) returns (r: Flow, started: bool, settled: bool)
      requires Busy() && Applying(wire)
      modifies `now, `intent, `saving, `journal, `mon, `persisted, `persistPending, `saves
      modifies `commands, `correcting, `lastRefusal
      modifies `badSince, `badCount, `goodFirst, `protect, `holdSince, `lastObs
      ensures Busy() && Worked(old(mon), mon) && mon.stopAt == old(mon).stopAt
      ensures settled && r.Fine? ==> Shows(started)
      ensures !settled ==> r.Fine? && Undecided()
      ensures r.Fine? ==> Applying(wire)
      ensures !r.Superseded? && (r.Raised? ==> settled && Unsafe())
      ensures old(now) <= now
    {
      var ev := Observe();
      ghost var m := mon;
      r, started, settled := JudgeStart(ev);
      assert mon == m;
      if r.Fine? {
        OutputWantedStill(old(mon), m, wire);
      }
    }

    /** What one frame says about a start. */
    method JudgeStart(ev: Evidence) returns (r: Flow, started: bool, settled: bool)
      requires Valid() && (mon.In(Apply) ==> mon.Sees(ev))
      modifies `lastObs
      ensures settled && r.Fine? ==> Shows(started)
      ensures r.Fine? ==> settled == (ev.CableOut() || ev.SessionActive())
      ensures r.Fine? <==> !intent.latched && TelemetryUncertain !in protect && !ev.Refusing()
      ensures !r.Superseded? && (r.Raised? ==> settled)
    {
      if intent.latched || TelemetryUncertain in protect {
        return Raised, false, true;   // AbortIfUnsafe
      }
      RememberValid(ev);
      if ev.Refusing() {
        return Raised, false, true;
      }
      return Fine, ev.SessionActive(), ev.CableOut() || ev.SessionActive();
    }

    /** The latest observation shows a session, or an unplugged cable; in an apply it is
        the latest frame as well. */
    ghost predicate Shows(session: bool)
      reads `lastObs, `mon
    {
      && lastObs.Some?
      && (if session then lastObs.value.SessionActive() else lastObs.value.CableOut())
      && (mon.In(Apply) ==> mon.run.value.frame == lastObs)
    }

    method RememberValid(ev: Evidence)
      modifies `lastObs
      ensures lastObs == if ev.Valid() then Some(ev) else old(lastObs)
    {
      if ev.Valid() {
        lastObs := Some(ev);
      }
    }

    method ConfirmRound(wire: Wire, deadline: real) returns (r: Flow, started: bool, over: bool)
      requires Busy() && Applying(wire)
      modifies `now, `intent, `saving, `journal, `mon, `persisted, `persistPending, `saves
      modifies `commands, `correcting, `lastRefusal
      modifies `badSince, `badCount, `goodFirst, `protect, `holdSince, `lastObs
      ensures Busy() && Worked(old(mon), mon) && mon.stopAt == old(mon).stopAt
      ensures over && r.Fine? ==> Shows(started)
      ensures r.Fine? ==> Applying(wire)
      ensures r.Superseded? ==> over && mon.Moved()
      ensures !OnWire(old(mon), Some(wire)) ==> r.Superseded? && mon == old(mon)
      ensures r.Raised? ==> over && (Unsafe() || (now >= deadline && Undecided()))
      ensures !over ==> Rounds(deadline - now, POLL_STEP) < Rounds(deadline - old(now), POLL_STEP)
      ensures old(now) <= now
    {
      ghost var left := deadline - now;
      r, started, over := ConfirmLook(wire);
      if !over && now >= deadline {
        return Raised, false, true;
      }
      if !over {
        ghost var m := mon;
        Doze(deadline, left);
        WantsStill(m, mon, wire);
        WorkedThen(old(mon), m, mon);
      }
    }

    /** True once a session is seen; false if the cable is definitely unplugged. */
    method ConfirmSession(wire: Wire) returns (r: Flow, started: bool)
      requires Busy() && Applying(wire)
      modifies `now, `intent, `saving, `journal, `mon, `persisted, `persistPending, `saves
      modifies `commands, `correcting, `lastRefusal
      modifies `badSince, `badCount, `goodFirst, `protect, `holdSince, `lastObs
      ensures Busy() && Worked(old(mon), mon) && mon.stopAt == old(mon).stopAt
      ensures r.Fine? ==> Shows(started)
      ensures r.Superseded? ==> mon.Moved()
      ensures !OnWire(old(mon), Some(wire)) ==> r.Superseded? && mon == old(mon)
      ensures r.Raised? ==> Unsafe() || (now >= old(now) + startTimeout && Undecided())
      ensures old(now) <= now
    {
      var deadline, over := now + startTimeout, false;
      r, started := Fine, false;
      while !over
        invariant Busy() && Worked(old(mon), mon) && mon.stopAt == old(mon).stopAt
        invariant over && r.Fine? ==> Shows(started)
        invariant r.Fine? ==> Applying(wire)
        invariant r.Superseded? ==> over && mon.Moved()
        invariant !OnWire(old(mon), Some(wire)) ==> mon == old(mon) && (over ==> r.Superseded?)
        invariant r.Raised? ==> over && (Unsafe() || (now >= deadline && Undecided()))
        invariant old(now) <= now
        decreases !over, Rounds(deadline - now, POLL_STEP)
      {
        ghost var m := mon;
        r, started, over := ConfirmRound(wire, deadline);
        WorkedThen(old(mon), m, mon);
      }
    }

    /** An apply about to write this wire, which it was asked for; at most a zero is due. */
    ghost predicate Writing(wire: Wire)
      reads `mon
    {
      && mon.In(Apply) && mon.Wants(wire) && mon.run.value.asked == wire
      && (wire.power == Some(0) ==> wire == ZERO)
      && (wire != ZERO ==> mon.debt.Clear?) && !mon.debt.LookDue?
    }

    /** A zero went out, if this wire was wanted at all, and was read back if that is fine. */
    ghost predicate Zeroed(wanted: bool, fine: bool)
      reads `mon
    {
      && (wanted ==> !mon.debt.ZeroDue?)
      && (fine ==> mon.debt.Clear? && mon.quiet.zeroBack)
    }

    /** Write one setpoint of the wire, if the wire has it. */
    method WriteSetpoint(address: nat, value: Option<nat>, wire: Wire) returns (r: Flow)
      requires Busy() && Writing(wire) && address in {REG_MAX_CHARGING_CURRENT, REG_MAX_CHARGING_POWER}
      requires value == if address == REG_MAX_CHARGING_POWER then wire.power else wire.current
      requires address == REG_MAX_CHARGING_POWER && wire.Positive() ==> mon.Authorized()
      modifies `now, `intent, `saving, `journal, `mon, `persisted, `persistPending, `commands, `correcting, `lastRefusal
      ensures Busy() && Written(old(mon), mon) && Writing(wire)
      ensures r.Superseded? ==> mon.Moved()
      ensures r.Raised? ==> value.Some? && mon.tally.open && now >= old(now) + timeout
      ensures r.Fine? && value.Some? ==>
                if address == REG_MAX_CHARGING_POWER then mon.proof.output else mon.proof.current
      ensures address == REG_MAX_CHARGING_POWER && wire == ZERO ==> Zeroed(OnWire(old(mon), Some(wire)), r.Fine?)
      ensures value.None? ==> mon == old(mon) && r.Fine?
      ensures old(now) <= now
    {
      if value.None? {
        return Fine;
      }
      r := WriteConfirmed(address, value.value, Some(wire), now + timeout);
      WantsStill(old(mon), mon, wire);
    }

    /** Both setpoints, each with its own confirmation window. */
    method WriteWire(wire: Wire) returns (r: Flow)
      requires Busy() && Writing(wire) && (wire.Positive() ==> mon.Authorized())
      modifies `now, `intent, `saving, `journal, `mon, `persisted, `persistPending, `commands, `correcting, `lastRefusal
      ensures Busy() && Written(old(mon), mon) && Writing(wire)
      ensures r.Superseded? ==> mon.Moved()
      ensures r.Raised? ==> mon.tally.open && now >= old(now) + timeout
      ensures r.Fine? ==> mon.proof.Covers(wire)
      ensures wire == ZERO ==> Zeroed(OnWire(old(mon), Some(wire)), r.Fine?)
      ensures old(now) <= now
    {
      r := WriteSetpoint(REG_MAX_CHARGING_CURRENT, wire.current, wire);
      if r.Fine? {
        ghost var m := mon;
        if wire.Positive() {
          AuthorizedStays(old(mon), m);
        }
        r := WriteSetpoint(REG_MAX_CHARGING_POWER, wire.power, wire);
        WrittenThen(old(mon), m, mon);
      }
    }

    /** A setpoint could not be confirmed: latch; a zero is then backed by Stop. */
    method GiveUp(zero: bool) returns (r: Flow)
      requires Busy() && mon.MayWatch() && mon.tally.open
      requires if zero then !mon.debt.ZeroDue? else mon.debt.Clear?
      modifies `now, `intent, `saving, `journal, `mon, `persisted, `persistPending, `saves
      modifies `commands, `correcting, `lastRefusal
      modifies `badSince, `badCount, `goodFirst, `protect, `holdSince
      ensures Busy() && Labored(old(mon), mon) && !r.Fine? && mon.work.failed && mon.debt.Clear?
      ensures mon.enables == old(mon).enables ==> intent.latched
      ensures r.Superseded? ==> !intent.ExplicitZero()
      ensures old(now) <= now
    {
      if zero {
        r := LatchAndStop();
        r := if r.Fine? then Raised else r;
      } else {
        LatchUnconfirmed();
        r := Raised;
      }
    }

    /** A pause needs evidence; failing that, Stop. */
    method SettlePause() returns (r: Flow)
      requires Busy() && mon.In(Apply) && Covers(mon, false, None, false)
      requires mon.Wants(ZERO) && (!mon.Moved() ==> intent.ExplicitZero()) && mon.debt.Clear?
      modifies `now, `intent, `saving, `journal, `mon, `persisted, `persistPending, `saves
      modifies `commands, `correcting, `lastRefusal
      modifies `badSince, `badCount, `goodFirst, `protect, `holdSince
      ensures Busy() && Worked(old(mon), mon)
      ensures r.Fine? ==> mon.quiet.settled && mon.quiet.zeroBack
      ensures r.Superseded? ==> mon.Moved()
      ensures old(mon).Wire() != ZERO ==> r.Superseded? && mon == old(mon)
      ensures r.Raised? ==> mon.halt.sent && (!mon.Moved() ==> intent.latched)
      ensures mon.halt.sent ==> old(mon).halt.sent || now >= old(now) + pauseTimeout
      ensures old(now) <= now
    {
      var quiet;
      r, quiet := AwaitEvidence(false, Some(ZERO), now + pauseTimeout);
      ZeroWantedStill(old(mon), mon);
      if r.Fine? && !quiet {
        ghost var m := mon;
        r := StopSequence();
        PauseStopped(old(mon), m, mon, r);
      }
    }

    /** Superseded or out of time without a command, the pause is latched. */
    lemma PauseStopped(a: Mon, b: Mon, c: Mon, r: Flow)
      requires a.Ordered() && Worked(a, b) && Stopping(b, c, r.Fine?, r.Raised?, r.Superseded?)
      requires b.In(Apply) && (!b.Moved() ==> b.intent.ExplicitZero())
      ensures Worked(a, c)
      ensures r.Superseded? ==> c.Moved()
      ensures r.Raised? && !c.Moved() ==> c.intent.latched
    {
      WorkedThen(a, b, c);
    }

    /** Withdraw a positive command that failed. */
    method Withdraw() returns (r: Flow)
      requires Busy() && mon.In(Apply) && !mon.Stopped() && mon.debt.Clear?
      modifies `now, `intent, `saving, `journal, `mon, `persisted, `persistPending, `saves
      modifies `commands, `correcting, `lastRefusal
      modifies `badSince, `badCount, `goodFirst, `protect, `holdSince
      ensures Busy() && Worked(old(mon), mon) && !r.Fine? && mon.run.value.revoked && mon.debt.Clear?
      ensures mon.enables == old(mon).enables ==> !intent.enabled
      ensures r.Superseded? ==> mon.Moved()
      ensures old(now) <= now
    {
      r := Revoke();
      r := if r.Fine? then Raised else r;
    }

    /** Preflight of a positive setpoint; a failure is withdrawn. */
    method ClearForOutput(wire: Wire) returns (r: Flow)
      requires Busy() && Applying(wire) && !mon.Stopped()
      modifies `now, `intent, `saving, `journal, `mon, `persisted, `persistPending, `saves
      modifies `commands, `correcting, `lastRefusal
      modifies `badSince, `badCount, `goodFirst, `protect, `holdSince
      ensures Busy() && Worked(old(mon), mon)
      ensures r.Fine? ==> mon.Authorized() && mon.stopAt == old(mon).stopAt && Applying(wire)
      ensures Ending(old(mon), mon, r.Raised?, r.Superseded?)
      ensures old(now) <= now
    {
      r := Preflight(wire);
      if r.Raised? {
        ghost var m := mon;
        r := Withdraw();
        WorkedThen(old(mon), m, mon);
      }
    }

    /** Confirm that a session runs, or that the cable is out; a failure is withdrawn. */
    method ConfirmOutput(wire: Wire) returns (r: Flow, started: bool)
      requires Busy() && Applying(wire) && !mon.Stopped()
      modifies `now, `intent, `saving, `journal, `mon, `persisted, `persistPending, `saves
      modifies `commands, `correcting, `lastRefusal
      modifies `badSince, `badCount, `goodFirst, `protect, `holdSince, `lastObs
      ensures Busy() && Worked(old(mon), mon)
      ensures r.Fine? ==> Shows(started)
      ensures Ending(old(mon), mon, r.Raised?, r.Superseded?)
      ensures old(now) <= now
    {
      r, started := ConfirmSession(wire);
      if r.Raised? {
        ghost var m := mon;
        r := Withdraw();
        WorkedThen(old(mon), m, mon);
      }
    }

    ghost method NoteBegan(op: Op)
      requires Recorded() && mon.owed.Nothing? && mon.run.None? && if op.Setup? then mon.safety else mon.ready
      modifies `journal, `mon
      ensures Recorded() && JustBegan(mon, op)
      ensures mon == old(mon).Plain().(run := mon.run, begun := old(mon).begun + [op], work := mon.work)
    {
      Note(Began(op));
    }

    ghost method NoteEnded()
      requires Recorded() && mon.owed.Nothing? && mon.run.Some? && MayEnd(mon, mon.run.value)
      modifies `journal, `mon
      ensures Recorded()
      ensures mon == old(mon).Plain().(run := None)
      ensures journal == old(journal) + [Ended]
    {
      Note(Ended);
    }

    /** Take the lock. */
    method Begin(op: Op)
      requires Idle() && if op.Setup? then SafetyUnconfirmed in protect else initialized
      modifies `journal, `mon
      ensures Busy() && JustBegan(mon, op)
      ensures mon == old(mon).Plain().(run := mon.run, begun := old(mon).begun + [op], work := mon.work)
    {
      NoteBegan(op);
    }

    /** Let go of the lock. */
    method End()
      requires Busy() && MayEnd(mon, mon.run.value)
      modifies `journal, `mon
      ensures Idle() && mon == old(mon).Plain().(run := None)
      ensures journal == old(journal) + [Ended]
    {
      NoteEnded();
    }

    ghost method NoteReport(outcome: Outcome)
      requires Recorded() && mon.owed.Nothing? && ReportPermitted(mon, outcome)
      modifies `journal, `mon
      ensures Recorded()
      ensures mon == old(mon).Plain().(run := Some(old(mon).run.value.(concluded := true)))
      ensures journal == old(journal) + [Reported(outcome)]
    {
      Note(Reported(outcome));
    }

    /** Report, and let go of the lock. */
    method Conclude(outcome: Outcome)
      requires Busy() && ReportPermitted(mon, outcome)
      modifies `journal, `mon
      ensures Idle()
      ensures mon.begun == old(mon).begun
      ensures journal == old(journal) + [Reported(outcome)] + [Ended]
    {
      NoteReport(outcome);
      End();
    }

    ghost method NoteStart(session: bool)
      requires Recorded() && mon.owed.Nothing? && mon.In(Apply) && mon.run.value.Shows(session)
      modifies `journal, `mon
      ensures Recorded()
      ensures mon == old(mon).Plain().(books := old(mon).books.(staged := !session))
    {
      Note(Started(session));
    }

    /** What a confirmed or staged start leaves behind. */
    method NoteStarted(started: bool, wire: Wire, revision: nat)
      requires Busy() && mon.In(Apply) && Shows(started)
      modifies `awaitPlug, `authorized, `startingSince, `journal, `mon
      ensures Busy() && mon == old(mon).Plain().(books := old(mon).books.(staged := awaitPlug))
      ensures awaitPlug == !started
      ensures authorized == if started then Some((wire, revision)) else old(authorized)
      ensures startingSince == if started && lastObs.value.status == Some(2) && old(startingSince).None?
                               then Some(lastObs.value.at) else old(startingSince)
    {
      NoteStart(started);
      MarkStarted(started, wire, revision);
    }

    method MarkStarted(started: bool, wire: Wire, revision: nat)
      requires lastObs.Some?
      modifies `awaitPlug, `authorized, `startingSince
      ensures awaitPlug == !started && Fields() == old(Fields()).(staged := awaitPlug)
      ensures authorized == if started then Some((wire, revision)) else old(authorized)
      ensures startingSince == if started && lastObs.value.status == Some(2) && old(startingSince).None?
                               then Some(lastObs.value.at) else old(startingSince)
    {
      if started {
        authorized := Some((wire, revision));
        CountStarting();
      }
      awaitPlug := !started;
    }

    /** The watchdog counts from the confirmation. */
    method CountStarting()
      requires lastObs.Some?
      modifies `startingSince
      ensures startingSince == if lastObs.value.status == Some(2) && old(startingSince).None?
                               then Some(lastObs.value.at) else old(startingSince)
    {
      if lastObs.value.status == Some(2) && startingSince.None? {
        startingSince := Some(lastObs.value.at);
      }
    }

    /** Zero: write it, and if the intent itself asks for it, see it take effect. */
    method ApplyZero() returns (r: Flow)
      requires Busy() && JustBegan(mon, Apply) && mon.Wire() == ZERO
      modifies `now, `intent, `saving, `journal, `mon, `persisted, `persistPending, `saves
      modifies `commands, `correcting, `lastRefusal
      modifies `badSince, `badCount, `goodFirst, `protect, `holdSince
      ensures Busy() && ReportPermitted(mon, OutcomeOf(r, true))
      ensures mon.begun == old(mon).begun
      ensures old(now) <= now
    {
      ZeroBegins(mon);
      r := WriteOrGiveUp(ZERO);
      if r.Fine? {
        ZeroWrote(old(mon), mon);
        if intent.ExplicitZero() {
          ghost var m := mon;
          r := SettlePause();
          ZeroReports(m, mon, r);
        }
      } else {
        ZeroFailed(old(mon), mon, r);
      }
    }

    lemma ZeroBegins(m: Mon)
      requires JustBegan(m, Apply) && m.Wire() == ZERO
      ensures m.debt.ZeroDue? && m.In(Apply) && m.Wants(ZERO) && m.run.value.asked == ZERO
      ensures Unseen(m.quiet) && !m.quiet.stopSent && !m.run.value.revoked
    {
    }

    lemma ZeroWrote(m: Mon, n: Mon)
      requires JustBegan(m, Apply) && m.Wire() == ZERO && Written(m, n)
      requires n.proof.Covers(ZERO) && n.debt.Clear? && n.quiet.zeroBack
      ensures Covers(n, false, None, false)
      ensures ReportPermitted(n, Confirmed) || n.intent.ExplicitZero()
    {
      ZeroBegins(m);
      PauseStays(m, n);
    }

    lemma ZeroFailed(m: Mon, n: Mon, r: Flow)
      requires JustBegan(m, Apply) && m.Wire() == ZERO && m.Ordered() && Worked(m, n) && !r.Fine?
      requires !n.debt.ZeroDue? && !n.debt.LookDue? && (n.debt.Clear? || n.run == m.run)
      requires r.Superseded? ==> n.Moved()
      requires r.Raised? ==> n.work.failed && n.debt.Clear? && (n.enables == m.enables ==> n.intent.latched)
      ensures ReportPermitted(n, OutcomeOf(r, true))
    {
      ZeroBegins(m);
    }

    /** A zero that was written and followed up may be reported. */
    lemma ZeroReports(m: Mon, n: Mon, r: Flow)
      requires m.In(Apply) && m.run.value.asked == ZERO && m.proof.Covers(ZERO) && m.debt.Clear? && m.quiet.zeroBack
      requires Worked(m, n) && n.run.Some?
      requires r.Fine? ==> n.quiet.settled && n.quiet.zeroBack
      requires r.Superseded? ==> n.Moved()
      requires r.Raised? ==> n.halt.sent && (!n.Moved() ==> n.intent.latched)
      ensures ReportPermitted(n, OutcomeOf(r, true))
    {
    }

    /** A positive setpoint: preflight, write, and see a session or an unplugged cable. */
    method ApplyPositive(wire: Wire) returns (r: Flow, started: bool)
      requires Busy() && Applying(wire) && mon.run.value.asked == wire && wire.Positive() && !mon.Stopped()
      modifies `now, `intent, `saving, `journal, `mon, `persisted, `persistPending, `saves
      modifies `commands, `correcting, `lastRefusal
      modifies `badSince, `badCount, `goodFirst, `protect, `holdSince, `lastObs
      modifies `awaitPlug, `authorized, `startingSince
      ensures Busy() && Ending(old(mon), mon, r.Raised?, r.Superseded?)
      ensures r.Fine? ==> Marked(started, wire, old(intent).revision) && mon.proof.Covers(wire)
      ensures old(now) <= now
    {
      var revision := intent.revision;
      r := ClearForOutput(wire);
      if !r.Fine? {
        return r, false;
      }
      ghost var m := mon;
      r, started := WriteAndStart(wire, revision);
      EndingThen(old(mon), m, mon, r.Raised?, r.Superseded?);
    }

    /** What a start that is over left behind. */
    ghost predicate Marked(started: bool, wire: Wire, revision: nat)
      reads `awaitPlug, `authorized, `mon, `lastObs, `startingSince
    {
      && Shows(started) && awaitPlug == !started && mon.staged == !started
      && (started ==> authorized == Some((wire, revision)))
      && (started && lastObs.Some? && lastObs.value.status == Some(2) ==> startingSince.Some?)
    }

    /** Write the setpoints and confirm the session they are for. */
    method WriteAndStart(wire: Wire, revision: nat) returns (r: Flow, started: bool)
      requires Busy() && Applying(wire) && mon.run.value.asked == wire && wire.power != Some(0)
      requires !mon.Stopped() && (wire.Positive() ==> mon.Authorized())
      modifies `now, `intent, `saving, `journal, `mon, `persisted, `persistPending, `saves
      modifies `commands, `correcting, `lastRefusal
      modifies `badSince, `badCount, `goodFirst, `protect, `holdSince, `lastObs
      modifies `awaitPlug, `authorized, `startingSince
      ensures Busy() && Ending(old(mon), mon, r.Raised?, r.Superseded?)
      ensures r.Fine? ==> Marked(started, wire, revision) && mon.proof.Covers(wire)
      ensures old(now) <= now
    {
      r := WriteOrGiveUp(wire);
      if !r.Fine? {
        return r, false;
      }
      ghost var m := mon;
      OutputWritten(old(mon), m);
      r, started := StartOutput(wire, revision);
      EndingThen(old(mon), m, mon, r.Raised?, r.Superseded?);
    }

    lemma OutputWritten(m: Mon, n: Mon)
      requires Written(m, n) && m.Ordered() && !m.Stopped() && m.debt.Clear?
      ensures !n.Stopped() && n.debt.Clear? && Worked(m, n)
    {
      SteadyWorked(m, n);
    }

    /** Bring the charger to what the latest intent asks for. */
    method ApplyLocked() returns (r: Flow, started: bool)
      requires Busy() && JustBegan(mon, Apply)
      modifies `now, `intent, `saving, `journal, `mon, `persisted, `persistPending, `saves
      modifies `commands, `correcting, `lastRefusal
      modifies `badSince, `badCount, `goodFirst, `protect, `holdSince, `lastObs
      modifies `awaitPlug, `authorized, `startingSince
      ensures Busy() && ReportPermitted(mon, OutcomeOf(r, started))
      ensures r.Fine? && !started ==> awaitPlug && Shows(false)
      ensures mon.begun == old(mon).begun
      ensures old(now) <= now
    {
      var wire := CurrentWire();
      started := true;
      ProtectIsProtected();
      if intent.stop {
        ghost var seen;
        r, seen := StopDrawing();
      } else if wire.power == Some(0) {
        ZeroWire(intent, protect != {}, released);
        r := ApplyZero();
      } else {
        r, started := ApplyOutput(wire);
      }
    }

    /** A setpoint other than zero; a positive one is cleared by a preflight. */
    method ApplyOutput(wire: Wire) returns (r: Flow, started: bool)
      requires Busy() && JustBegan(mon, Apply) && !intent.stop && wire == mon.Wire() && wire.power != Some(0)
      modifies `now, `intent, `saving, `journal, `mon, `persisted, `persistPending, `saves
      modifies `commands, `correcting, `lastRefusal
      modifies `badSince, `badCount, `goodFirst, `protect, `holdSince, `lastObs
      modifies `awaitPlug, `authorized, `startingSince
      ensures Busy() && ReportPermitted(mon, OutcomeOf(r, started))
      ensures r.Fine? && !started ==> awaitPlug && Shows(false)
      ensures mon.begun == old(mon).begun
      ensures old(now) <= now
    {
      OutputBegins(mon, wire);
      if wire.Positive() {
        r, started := ApplyPositive(wire);
      } else {
        r, started := WriteAndStart(wire, intent.revision);
      }
      OutputReports(old(mon), wire, r, started);
    }

    lemma OutputBegins(m: Mon, wire: Wire)
      requires JustBegan(m, Apply) && m.Wire() == wire && wire.power != Some(0) && !m.intent.stop && m.Ordered()
      ensures m.debt.Clear? && m.In(Apply) && m.Wants(wire) && m.run.value.asked == wire && !m.run.value.pause
      ensures !m.Stopped() && m.run.value.enables == m.enables
    {
    }

    lemma OutputReports(m: Mon, wire: Wire, r: Flow, started: bool)
      requires Busy() && m.In(Apply) && m.run.value.asked == wire && wire != ZERO && !m.run.value.pause
      requires m.debt.Clear? && m.run.value.enables == m.enables
      requires Ending(m, mon, r.Raised?, r.Superseded?)
      requires r.Fine? ==> Shows(started) && mon.staged == !started && mon.proof.Covers(wire)
      ensures ReportPermitted(mon, OutcomeOf(r, started))
    {
      NothingPositiveAfter();
    }

    static function OutcomeOf(r: Flow, started: bool): Outcome {
      match r
      case Fine => if started then Confirmed else Staged
      case Raised => Failed
      case Superseded => Outcome.Superseded
    }

    lemma NothingPositiveAfter()
      requires Valid()
      ensures !intent.enabled || intent.latched ==> !mon.Wire().Positive()
    {
    }

    /** The setpoints, or a latch. */
    method WriteOrGiveUp(wire: Wire) returns (r: Flow)
      requires Busy() && Writing(wire) && (wire.Positive() ==> mon.Authorized())
      requires wire == ZERO ==> OnWire(mon, Some(wire))
      modifies `now, `intent, `saving, `journal, `mon, `persisted, `persistPending, `saves
      modifies `commands, `correcting, `lastRefusal
      modifies `badSince, `badCount, `goodFirst, `protect, `holdSince
      ensures Busy() && Ending(old(mon), mon, r.Raised?, r.Superseded?)
      ensures r.Fine? ==> Written(old(mon), mon) && Writing(wire) && mon.proof.Covers(wire)
      ensures r.Fine? && wire == ZERO ==> mon.quiet.zeroBack && mon.debt.Clear?
      ensures r.Raised? ==> mon.work.failed && mon.debt.Clear?
      ensures r.Raised? && mon.enables == old(mon).enables ==> intent.latched
      ensures !mon.debt.ZeroDue? && !mon.debt.LookDue? && (mon.debt.Clear? || mon.run == old(mon).run)
      ensures old(now) <= now
    {
      r := WriteWire(wire);
      ghost var m := mon;
      SteadyWorked(old(mon), m);
      if r.Raised? {
        r := GiveUp(wire.power == Some(0));
        GaveUp(old(mon), m, mon, r);
      }
    }

    lemma GaveUp(a: Mon, b: Mon, c: Mon, r: Flow)
      requires a.Ordered() && a.run.Some? && Worked(a, b) && Labored(b, c) && c.debt.Clear? && c.work.failed && !r.Fine?
      requires c.enables == b.enables ==> c.intent.latched
      requires r.Superseded? ==> !c.intent.ExplicitZero()
      ensures Ending(a, c, r.Raised?, r.Superseded?)
    {
      LaboredThen(a, b, c);
    }

    /** Confirm the session a nonzero (or no) power setpoint is for. */
    method StartOutput(wire: Wire, revision: nat) returns (r: Flow, started: bool)
      requires Busy() && Applying(wire) && !mon.Stopped()
      modifies `now, `intent, `saving, `journal, `mon, `persisted, `persistPending, `saves
      modifies `commands, `correcting, `lastRefusal
      modifies `badSince, `badCount, `goodFirst, `protect, `holdSince, `lastObs
      modifies `awaitPlug, `authorized, `startingSince
      ensures Busy() && Ending(old(mon), mon, r.Raised?, r.Superseded?)
      ensures r.Fine? ==> Marked(started, wire, revision)
      ensures old(now) <= now
    {
      r, started := ConfirmOutput(wire);
      if r.Fine? {
        ghost var m := mon;
        NoteStarted(started, wire, revision);
        HoldWorked(m, mon);
        WorkedThen(old(mon), m, mon);
      }
    }

    /** Apply the latest intent.  A command passes the revision it created: if the intent
        moved on since, the latest is still applied but the command reports superseded. */
    method OpApply(revision: Option<nat>) returns (result: Outcome)
      requires Idle() && initialized
      modifies `now, `intent, `saving, `journal, `mon, `persisted, `persistPending, `saves
      modifies `commands, `correcting, `lastRefusal
      modifies `badSince, `badCount, `goodFirst, `protect, `holdSince, `lastObs
      modifies `awaitPlug, `authorized, `startingSince
      ensures Idle()
      ensures revision.Some? && revision.value != old(intent).revision ==> result in {Outcome.Superseded, Failed}
      ensures |journal| >= 2 && journal[|journal| - 1] == Ended && journal[|journal| - 2].Reported?
      ensures result == journal[|journal| - 2].outcome
              || (result.Superseded? && revision.Some? && revision.value != old(intent).revision)
      ensures result == Staged ==> awaitPlug && lastObs.Some? && lastObs.value.CableOut()
      ensures mon.begun == old(mon).begun + [Apply]
      ensures old(now) <= now
    {
      var overtaken := revision.Some? && intent.revision != revision.value;
      var r, started := ApplyLatest();
      result := if r.Fine? && overtaken then Outcome.Superseded else OutcomeOf(r, started);
    }

    /** Take the lock, apply, report, and let it go. */
    method ApplyLatest() returns (r: Flow, started: bool)
      requires Idle() && initialized
      modifies `now, `intent, `saving, `journal, `mon, `persisted, `persistPending, `saves
      modifies `commands, `correcting, `lastRefusal
      modifies `badSince, `badCount, `goodFirst, `protect, `holdSince, `lastObs
      modifies `awaitPlug, `authorized, `startingSince
      ensures Idle()
      ensures LastEntry(Ended) && EntryBeforeLast(Reported(OutcomeOf(r, started)))
      ensures r.Fine? && !started ==> awaitPlug && lastObs.Some? && lastObs.value.CableOut()
      ensures mon.begun == old(mon).begun + [Apply]
      ensures old(now) <= now
    {
      Begin(Apply);
      r, started := ApplyLocked();
      Conclude(OutcomeOf(r, started));
    }

    // ---- what an observation means for the session ---------------------------------------

    ghost method NoteSessionCheck(ev: Evidence, judged: bool)
      requires Recorded() && mon.owed.Nothing? && mon.Sees(ev) && judged == mon.Judges(ev)
      modifies `journal, `mon
      ensures Recorded()
      ensures mon == old(mon).(
                run := Some(old(mon).run.value.(checked := true)),
                books := old(mon).books.(staged := old(mon).staged && !(judged && ev.cable == Some(1))),
                turn := Owing(if judged && !ev.SessionActive() && !old(mon).staged then SessionEnd else Nothing))
    {
      Note(SessionChecked(ev));
    }

    lemma JudgesAlike(ev: Evidence)
      requires Synced()
      ensures mon.Judges(ev) == Judged(ev)
    {
    }

    /** Remember the observation and decide what it means for an enabled intent. */
    method ReviewSession(ev: Evidence) returns (over: bool)
      modifies `lastObs, `awaitPlug, `spawned
      ensures over == (Judged(ev) && !ev.SessionActive() && !old(awaitPlug))
      ensures Fields() == old(Fields()).(staged := awaitPlug)
      ensures lastObs == if ev.Valid() then Some(ev) else old(lastObs)
      ensures awaitPlug == (old(awaitPlug) && !(Judged(ev) && ev.cable == Some(1)))
      ensures spawned == old(spawned) +
                if Judged(ev) && old(awaitPlug) && ev.cable == Some(1) && !ev.SessionActive() then [Apply] else []
    {
      over := false;
      if !ev.Valid() {
        return;
      }
      lastObs := Some(ev);
      if !intent.enabled || intent.ExplicitZero() || intent.stop || commands > 0 {
        return;
      }
      if ev.SessionActive() {
        awaitPlug := false;
      } else if awaitPlug {
        if ev.cable.value == 1 {
          awaitPlug := false;
          spawned := spawned + [Apply];             // the staged explicit enable
        }
      } else {
        over := true;
      }
    }

    method CheckSession(ev: Evidence) returns (over: bool)
      requires Busy() && mon.Sees(ev)
      modifies `lastObs, `awaitPlug, `spawned, `journal, `mon
      ensures Valid() && mon.run.Some?
      ensures spawned == old(spawned) +
                if Judged(ev) && old(awaitPlug) && ev.cable == Some(1) && !ev.SessionActive() then [Apply] else []
      ensures lastObs == if ev.Valid() then Some(ev) else old(lastObs)
      ensures mon == old(mon).(
                run := Some(old(mon).run.value.(checked := true)), books := old(mon).books.(staged := awaitPlug),
                turn := Owing(if over then SessionEnd else Nothing))
      ensures over == (Judged(ev) && !ev.SessionActive() && !old(awaitPlug))
    {
      JudgesAlike(ev);
      ghost var judged := Judged(ev);
      over := ReviewSession(ev);
      NoteSessionCheck(ev, judged);
    }

    /** An enabled intent with no command in flight is judged by this frame. */
    predicate Judged(ev: Evidence)
      reads `intent, `commands
    {
      ev.Valid() && intent.enabled && !intent.ExplicitZero() && !intent.stop && commands == 0
    }

    /** An enabled intent ends with the session it authorized: a valid non-active
        observation that no explicit command is responsible for revokes the enable.  An
        enable staged while unplugged is applied on plug.  True if it was revoked. */
    method NoteSession(ev: Evidence) returns (revoked: bool)
      requires Busy() && mon.Sees(ev)
      modifies `now, `intent, `saving, `journal, `mon, `persisted, `persistPending, `saves, `commands, `correcting
      modifies `lastObs, `awaitPlug, `spawned
      ensures Busy() && Worked(old(mon), mon) && mon.run.value.checked
      ensures mon.run == Some(old(mon).run.value.(checked := true))
      ensures mon.tel == old(mon).tel && mon.hold == old(mon).hold
      ensures mon.quiet == old(mon).quiet
      ensures revoked == (old(Judged(ev)) && !ev.SessionActive() && !old(awaitPlug))
      ensures revoked && mon.enables == old(mon).enables ==> !intent.enabled
      ensures !revoked ==> intent == old(intent)
      ensures spawned == old(spawned) +
                if old(Judged(ev)) && old(awaitPlug) && ev.cable == Some(1) && !ev.SessionActive() then [Apply] else []
      ensures lastObs == if ev.Valid() then Some(ev) else old(lastObs)
      ensures old(now) <= now
    {
      revoked := CheckSession(ev);
      ghost var m := mon;
      CheckedWorked(old(mon), m);
      if revoked {
        EndSession();
        WorkedThen(old(mon), m, mon);
      }
    }

    /** The enable ends with its session. */
    method EndSession()
      requires Valid() && mon.run.Some? && mon.owed.SessionEnd?
      modifies `now, `intent, `saving, `journal, `mon, `persisted, `persistPending, `saves, `commands, `correcting
      ensures Busy() && Worked(old(mon), mon) && mon.run == old(mon).run && mon.quiet == old(mon).quiet
      ensures mon.tel == old(mon).tel && mon.hold == old(mon).hold
      ensures mon.enables == old(mon).enables ==> !intent.enabled
      ensures old(now) <= now
    {
      Update(SessionEnded, intent.Next().(enabled := false));
    }

    /** The watchdog on an enabled session that never gets beyond starting. */
    method WatchStarting(ev: Evidence) returns (stuck: bool)
      modifies `startingSince
      ensures var watching := intent.enabled && !intent.ExplicitZero() && !intent.stop;
              var starting := ev.Starting() && watching;
              && stuck == (starting && old(startingSince).Some?
                           && ev.at - old(startingSince).value > startingTimeout)
              && startingSince == (if !ev.Valid() then old(startingSince)
                                   else if !starting || stuck then None
                                   else if old(startingSince).None? then Some(ev.at)
                                   else old(startingSince))
    {
      stuck := false;
      if !ev.Valid() || !intent.enabled || intent.ExplicitZero() || intent.stop {
        if ev.Valid() {
          startingSince := None;
        }
        return;
      }
      if ev.status.value != 2 || ev.power.value > LOW_POWER_RAW {
        startingSince := None;
        return;
      }
      if startingSince.None? {
        startingSince := Some(ev.at);
        return;
      }
      if ev.at - startingSince.value <= startingTimeout {
        return;
      }
      startingSince := None;
      stuck := true;
    }

    /** A valid frame leaves the watchdog running exactly if an enabled session is starting,
        and then not for too long. */
    ghost predicate Counted(ev: Evidence)
      reads `intent, `startingSince
    {
      ev.Valid() ==>
        if ev.Starting() && intent.enabled && !intent.ExplicitZero() && !intent.stop
        then startingSince.Some?
             && (startingSince.value == ev.at || ev.at - startingSince.value <= startingTimeout)
        else startingSince.None?
    }

    /** What a frame means for an enable: does its session still run, and does it get beyond
        starting? */
    method ReviewEnable(ev: Evidence) returns (r: Flow, ended: bool, stuck: bool)
      requires Busy() && (mon.In(Refresh) || mon.In(Poll)) && mon.Sees(ev) && mon.debt.Clear?
      modifies `now, `intent, `saving, `journal, `mon, `persisted, `persistPending, `saves
      modifies `commands, `correcting, `lastRefusal
      modifies `badSince, `badCount, `goodFirst, `protect, `holdSince, `startingSince, `lastObs, `awaitPlug, `spawned
      ensures Busy() && Worked(old(mon), mon) && mon.run.value.checked
      ensures if stuck then mon.run.value.revoked && ev.Starting() else r.Fine? && Counted(ev)
      ensures ended <== old(Judged(ev)) && !ev.SessionActive() && !old(awaitPlug)
      ensures !ended && !stuck ==> intent == old(intent)
      ensures old(spawned) <= spawned
      ensures old(now) <= now
    {
      ended := NoteSession(ev);
      ghost var m := mon;
      r, stuck := NoteStarting(ev);
      WorkedThen(old(mon), m, mon);
    }

    /** An enabled session stuck in starting is revoked with a confirmed zero. */
    method NoteStarting(ev: Evidence) returns (r: Flow, revoked: bool)
      requires Busy() && (mon.In(Refresh) || mon.In(Poll)) && mon.Sees(ev) && mon.debt.Clear?
      modifies `now, `intent, `saving, `journal, `mon, `persisted, `persistPending, `saves
      modifies `commands, `correcting, `lastRefusal
      modifies `badSince, `badCount, `goodFirst, `protect, `holdSince, `startingSince
      ensures Busy() && Worked(old(mon), mon)
      ensures revoked == (old(intent).enabled && !old(intent).ExplicitZero() && !old(intent).stop
                          && ev.Starting()
                          && old(startingSince).Some? && ev.at - old(startingSince).value > startingTimeout)
      ensures revoked && mon.enables == old(mon).enables ==> !intent.enabled
      ensures revoked ==> mon.run.value.revoked
      ensures !revoked ==> r.Fine? && mon == old(mon) && intent == old(intent) && Counted(ev)
      ensures old(now) <= now
    {
      revoked := WatchStarting(ev);
      if revoked {
        r := Revoke();
      } else {
        r := Fine;
      }
    }

    // ---- the cable ---------------------------------------------------------------------------

    ghost method NoteTracked(look: Unplug.Look)
      requires Recorded() && mon.owed.Nothing? && mon.Sees(look.ev) && mon.run.value.checked
      requires look.userPause == (mon.intent.ExplicitZero() && !mon.intent.latched && !mon.intent.stop)
      modifies `journal, `mon
      ensures Recorded()
      ensures mon == old(mon).(
                run := Some(old(mon).run.value.(tracked := true)),
                books := old(mon).books.(track := Unplug.Step(old(mon).track, look)),
                turn := FREE.(adoptable := Unplug.Adopts(old(mon).track, look)))
    {
      Note(Tracked(look));
    }

    ghost method NoteAdopted(a: Intent)
      requires Recorded() && mon.owed.Nothing? && mon.adoptable && a.WellFormed()
      requires a == mon.intent.Next().(enabled := true)
      modifies `journal, `mon
      ensures Recorded()
      ensures mon == old(mon).Plain().(intent := a)
    {
      NoteChange(Adopted, a);
    }

    /** One look at the cable; true if it adopts the session it shows. */
    method MoveCable(ev: Evidence, userPause: bool) returns (adopts: bool)
      modifies `released, `unplugFirst
      ensures Fields() == old(Fields()).(track := Unplug.Step(old(Cable()), Unplug.Look(ev, userPause)))
      ensures adopts == Unplug.Adopts(old(Cable()), Unplug.Look(ev, userPause))
    {
      adopts := false;
      if !userPause {
        released, unplugFirst := false, None;
      } else if released {
        if ev.SessionActive() {
          released := false;
          adopts := true;
        }
      } else if ev.CableOut() {
        if unplugFirst.None? {
          unplugFirst := Some(ev.at);
        } else if ev.at - unplugFirst.value >= OBSERVATION_GAP {
          released, unplugFirst := true, None;
        }
      } else {
        unplugFirst := None;
      }
    }

    ghost function Cable(): Unplug.State
      reads `released, `unplugFirst
    {
      Unplug.State(released, unplugFirst)
    }

    method TrackCable(ev: Evidence) returns (adopts: bool)
      requires Busy() && mon.Sees(ev) && mon.run.value.checked && initialized
      modifies `released, `unplugFirst, `journal, `mon
      ensures Busy()
      ensures mon == old(mon).(
                run := Some(old(mon).run.value.(tracked := true)),
                books := old(mon).books.(track := Unplug.Step(old(mon).track, LookOf(intent, ev))),
                turn := FREE.(adoptable := adopts))
      ensures adopts == Unplug.Adopts(old(mon).track, LookOf(intent, ev))
    {
      var userPause := intent.ExplicitZero() && !(intent.latched || intent.stop);
      NoteTracked(Unplug.Look(ev, userPause));
      adopts := MoveCable(ev, userPause);
    }

    /** Adopt the session: enabled, with the saved limits. */
    method Adopt()
      requires Busy() && mon.adoptable
      modifies `now, `intent, `saving, `journal, `mon, `persisted, `persistPending, `saves
      modifies `commands, `correcting, `spawned
      ensures Busy() && Progress(old(mon), mon)
      ensures mon.run == old(mon).run && mon.books == old(mon).books
      ensures spawned == old(spawned) + [Apply]
      ensures saves == old(saves) + [old(intent).Next().(enabled := true)]
      ensures old(now) <= now
    {
      spawned := spawned + [Apply];
      SetAdopted();
      Persist();
    }

    method SetAdopted()
      requires Busy() && mon.adoptable
      modifies `intent, `journal, `mon
      ensures Busy() && intent == old(intent).Next().(enabled := true)
      ensures mon == old(mon).Plain().(intent := intent)
    {
      intent := intent.Next().(enabled := true);
      NoteAdopted(intent);
    }

    /** Release a user pause on a confirmed unplug, and adopt the next valid session. */
    method TrackUnplug(ev: Evidence)
      requires Busy() && mon.Sees(ev) && mon.run.value.checked && initialized
      modifies `now, `intent, `saving, `journal, `mon, `persisted, `persistPending, `saves
      modifies `commands, `correcting, `spawned
      modifies `released, `unplugFirst
      ensures Busy() && Progress(old(mon), mon)
      ensures mon.run == Some(old(mon).run.value.(tracked := true))
      ensures mon.books == old(mon).books.(track := Unplug.Step(old(mon).track, LookOf(old(intent), ev)))
      ensures spawned == old(spawned) + if Unplug.Adopts(old(mon).track, LookOf(old(intent), ev)) then [Apply] else []
      ensures !Unplug.Adopts(old(mon).track, LookOf(old(intent), ev)) ==> intent == old(intent)
      ensures old(now) <= now
    {
      var adopts := TrackCable(ev);
      ghost var m := mon;
      if adopts {
        Adopt();
        ProgressThen(old(mon), m, mon);
      }
    }

    static ghost function LookOf(i: Intent, ev: Evidence): Unplug.Look {
      Unplug.Look(ev, i.ExplicitZero() && !i.latched && !i.stop)
    }

    // ---- refreshing ----------------------------------------------------------------------------

    ghost method NoteDecided()
      requires Recorded() && mon.owed.Nothing? && MayDecide(mon, now) && !mon.MustHold(now)
      modifies `journal, `mon
      ensures Recorded()
      ensures mon == StepDecided(old(mon), now, old(mon).Ahead()).(turn := Owing(old(mon).Due()))
    {
      Note(Decided(now));
    }

    ghost method NoteHeld()
      requires Recorded() && mon.owed.Nothing? && MayDecide(mon, now) && mon.MustHold(now)
      modifies `journal, `mon
      ensures Recorded()
      ensures mon == StepDecided(old(mon), now, None).(
                books := old(mon).books.(hold := if old(mon).hold.None? then Some(now) else old(mon).hold),
                turn := FREE)
    {
      Note(Held(now));
    }

    /** The link is back and this frame shows the session still running, but the telemetry
        protection lifts only on the next agreeing frame: a zero now would finish a healthy
        session.  Bounded by the telemetry grace. */
    predicate Recovering(ev: Evidence)
      reads `now, `intent, `protect, `released, `holdSince
    {
      && protect == {TelemetryUncertain}
      && !(intent.ExplicitZero() || intent.stop || released)
      && intent.power.GetOr(0) >= MIN_ENABLE_POWER_RAW
      && ev.SessionActive()
      && (holdSince.None? || now - holdSince.value < grace)
    }

    lemma RecoversAlike(ev: Evidence)
      requires Synced() && mon.Sees(ev)
      ensures mon.MustHold(now) == Recovering(ev)
      ensures Recovering(ev) ==> !CurrentWire().Positive()
    {
      if TelemetryUncertain in protect && SafetyUnconfirmed !in protect {
        forall r | r in protect ensures r == TelemetryUncertain {
          assert r.TelemetryUncertain? || r.SafetyUnconfirmed?;
        }
        assert protect == {TelemetryUncertain};
      }
    }

    /** Decide what this refresh writes. */
    method ChoosePlan(ev: Evidence) returns (p: Plan)
      modifies `authorized, `holdSince
      ensures p == PlanFor(CurrentWire(), ev, old(Recovering(ev)))
      ensures Fields() == old(Fields()).(
                hold := if !CurrentWire().Positive() && old(Recovering(ev)) && old(holdSince).None?
                        then Some(now) else old(holdSince))
      ensures authorized == if !(p.power.Some? && p.power.value > 0) then None
                            else Some((CurrentWire(), intent.revision))
    {
      var wire := CurrentWire();
      p := Plan(Some(wire), wire.power, wire.current, false);
      if wire.Positive() && ev.SessionActive() {
        authorized := Some((wire, intent.revision));
      } else if wire.Positive() && !ev.Valid() {
        p := HELD_BACK;
      } else if wire.Positive() {
        p := Plan(None, Some(0), None, false);
      } else if Recovering(ev) {
        if holdSince.None? {
          holdSince := Some(now);
        }
        p := HELD_BACK;
      }
      if p.power.None? || p.power.value == 0 {
        authorized := None;
      }
    }

    ghost method NoteDecision(ev: Evidence)
      requires Busy() && MayDecide(mon, now) && mon.Sees(ev)
      modifies `journal, `mon
      ensures Recorded()
      ensures mon == if old(Recovering(ev))
                     then StepDecided(old(mon), now, None).(
                            books := old(mon).books.(hold := if old(mon).hold.None? then Some(now) else old(mon).hold),
                            turn := FREE)
                     else StepDecided(old(mon), now, old(mon).Ahead()).(turn := Owing(old(mon).Due()))
    {
      RecoversAlike(ev);
      if Recovering(ev) {
        NoteHeld();
      } else {
        NoteDecided();
      }
    }

    /** Settle on a plan, and note it. */
    method Commit(ev: Evidence) returns (p: Plan)
      requires Busy() && MayDecide(mon, now) && mon.Sees(ev)
      modifies `authorized, `holdSince, `journal, `mon
      ensures Valid() && Decides(old(mon), mon)
      ensures p == PlanFor(old(CurrentWire()), ev, old(Recovering(ev)))
      ensures mon.owed == if old(Recovering(ev)) then Nothing else old(mon).Due()
      ensures mon.course.power == if old(Recovering(ev)) then None else old(mon).Ahead()
      ensures old(Recovering(ev)) ==> !old(CurrentWire()).Positive()
    {
      RecoversAlike(ev);
      NoteDecision(ev);
      p := ChoosePlan(ev);
    }

    /** The writes of this plan come next, and none of them was made yet. */
    ghost predicate Planned(p: Plan)
      reads `mon
    {
      && mon.run.Some? && mon.run.value.decided && PlanFits(mon, p) && mon.debt.Clear?
      && mon.owed == FirstWrite(p) && mon.tally == NOTHING_SENT
      && mon.course == Course(mon.commands, PowerOf(p), false)
    }

    /** The decision of a refresh.  Unless it holds its zero back, which is bounded, the
        first setpoint goes out before anything else can happen. */
    method Decide(ev: Evidence) returns (p: Plan)
      requires Busy() && Rests(ev) && mon.run.value.tracked && mon.proof.timed
      modifies `authorized, `holdSince, `journal, `mon
      ensures Valid() && Resolved(old(mon), mon) && Planned(p)
      ensures p == PlanFor(mon.Wire(), ev, old(Recovering(ev)))
    {
      ProtectIsProtected();
      PlanIsFit(mon, ev, Recovering(ev));
      p := Commit(ev);
      DecisionResolved(old(mon), mon, p);
    }

    /** Send one setpoint of the plan, if it has one, and read it back. */
    method RefreshOne(address: nat, value: Option<nat>, wire: Option<Wire>) returns (r: Flow, good: bool)
      requires Valid() && mon.run.Some? && address != REG_CHARGING_CONTROL && mon.debt.Clear?
      requires value.Some? ==> Fits(mon, address, value.value, wire)
      requires if value.None? then mon.owed.Nothing?
               else mon.owed.Nothing? || (mon.owed == Owed.Write(address, value.value) && OnWire(mon, wire))
      modifies `now, `intent, `saving, `journal, `mon, `persisted, `persistPending, `commands, `correcting, `lastRefusal
      ensures Busy() && Written(old(mon), mon)
      ensures r == if value.None? || OnWire(old(mon), wire) then Fine else Flow.Superseded
      ensures value.None? || !r.Fine? ==> mon == old(mon) && good == value.None?
      ensures r.Fine? && value.Some? ==>
                && Answered(address, value.value, good)
                && mon.tally == Tally(Some((address, value.value)), !good, old(mon).tally.missed || old(mon).tally.open)
                && mon.course == old(mon).course.Write(address, value.value)
                && (good ==> Shown(address, value.value))
      ensures old(now) <= now
    {
      if value.None? {
        return Fine, true;
      }
      r, good := WriteOnce(address, value.value, wire);
    }

    /** The power setpoint, after the current one went out. */
    method RefreshPower(p: Plan, ghost before: Mon, first: bool) returns (r: Flow, matched: bool)
      requires Busy() && Written(before, mon) && PlanFits(before, p) && p.wire.Some? && before.debt.Clear?
      requires mon.tally.last.Some? && !mon.tally.missed && first == !mon.tally.open
      requires mon.course == Course(before.commands, PowerOf(p), false) && before.course.commands == before.commands
      modifies `now, `intent, `saving, `journal, `mon, `persisted, `persistPending, `commands, `correcting, `lastRefusal
      ensures Busy() && Steady(before, mon)
      ensures r.Superseded? ==> mon.Overtaken()
      ensures r.Fine? ==> mon.course.power.None? && matched == mon.tally.Clean()
      ensures r.Fine? && matched && p.power == Some(0) ==> mon.quiet.zeroBack
      ensures !r.Raised? && mon.tally.last.Some? && !mon.course.judged
      ensures old(now) <= now
    {
      ghost var m := mon;
      if p.wire.value.Positive() {
        AuthorizedStays(before, m);
      }
      r, matched := RefreshOne(REG_MAX_CHARGING_POWER, p.power, p.wire);
      SteadyThen(before, m, mon);
      matched := matched && first;
    }

    /** Every setpoint is refreshed even if an earlier one failed. */
    method RefreshWrites(p: Plan) returns (r: Flow, matched: bool)
      requires Valid() && Planned(p)
      modifies `now, `intent, `saving, `journal, `mon, `persisted, `persistPending, `commands, `correcting, `lastRefusal
      ensures Busy() && Steady(old(mon), mon)
      ensures r.Superseded? ==> mon.Overtaken()
      ensures r.Fine? ==> mon.course.power.None?
      ensures if Sends(p) then mon.tally.last.Some? && (r.Fine? ==> matched == mon.tally.Clean())
              else mon == old(mon) && r.Fine? && matched
      ensures r.Fine? && matched && p.power == Some(0) ==> mon.quiet.zeroBack
      ensures !r.Raised? && !mon.course.judged
      ensures old(now) <= now
    {
      if p.current.None? {
        r, matched := RefreshOne(REG_MAX_CHARGING_POWER, p.power, p.wire);
        return;
      }
      r, matched := RefreshOne(REG_MAX_CHARGING_CURRENT, p.current, p.wire);
      if r.Fine? {
        r, matched := RefreshPower(p, old(mon), matched);
      }
    }

    static predicate Sends(p: Plan) {
      p.current.Some? || p.power.Some?
    }

    /** Track read-back mismatches (the charger ignoring our cap). */
    method NoteReadback(mismatched: bool)
      modifies `mismatchSince, `mismatchCount
      ensures !mismatched ==> mismatchSince.None? && mismatchCount == 0
      ensures mismatched ==> mismatchCount == old(mismatchCount) + 1
                             && mismatchSince == if old(mismatchSince).None? then Some(now) else old(mismatchSince)
      ensures Fields() == old(Fields()).(missed := Missed(mismatchSince, mismatchCount))
    {
      if !mismatched {
        mismatchSince, mismatchCount := None, 0;
        return;
      }
      mismatchCount := mismatchCount + 1;
      if mismatchSince.None? {
        mismatchSince := Some(now);
      }
    }

    /** Mismatches for at least as long as the firmware would have kept a setpoint. */
    predicate MismatchPersistent()
      requires mismatchCount > 0 ==> mismatchSince.Some?
      reads `now, `validity, `mismatchSince, `mismatchCount
    {
      var window := if validity.Some? && validity.value > 0
                    then Min(validity.value as real, FIRMWARE_EXPIRY) else FIRMWARE_EXPIRY;
      mismatchCount >= 2 && now - mismatchSince.value >= window
    }

    /** Two or more in a row, over the validity the charger reports if that is shorter than
        sixty seconds, and over sixty seconds otherwise. */
    lemma PersistentExactly()
      requires mismatchCount > 0 ==> mismatchSince.Some?
      ensures mismatchCount < 2 ==> !MismatchPersistent()
      ensures mismatchCount >= 2 && validity.Some? && 0 < validity.value < 60 ==>
                (MismatchPersistent() <==> now >= mismatchSince.value + validity.value as real)
      ensures mismatchCount >= 2 && !(validity.Some? && 0 < validity.value < 60) ==>
                (MismatchPersistent() <==> now >= mismatchSince.value + 60.0)
    {
    }

    ghost method NoteAllReadBack()
      requires Recorded() && mon.owed.Nothing? && mon.In(Refresh) && mon.run.value.decided
      requires !mon.course.judged && mon.tally.Clean()
      modifies `journal, `mon
      ensures Recorded()
      ensures mon == old(mon).Plain().(books := old(mon).books.(hold := None, missed := NONE_MISSED),
                                       work := old(mon).work.(course := old(mon).course.(judged := true)))
    {
      Note(AllReadBack);
    }

    ghost method NoteUnmatched()
      requires Recorded() && mon.owed.Nothing? && mon.In(Refresh) && mon.run.value.decided && mon.clock <= now
      requires !mon.course.judged && mon.tally.last.Some? && !mon.tally.Clean()
      modifies `journal, `mon
      ensures Recorded()
      ensures mon == old(mon).Plain().(clock := now, books := old(mon).books.(missed := old(mon).missed.Miss(now)),
                                       work := old(mon).work.(course := old(mon).course.(judged := true)))
    {
      Note(Unmatched(now));
    }

    /** The outcome of the setpoints that were sent; a confirmed write ends any hold. */
    method NoteSent(matched: bool)
      requires Busy() && mon.In(Refresh) && mon.run.value.decided && !mon.course.judged
      requires mon.tally.last.Some? && matched == mon.tally.Clean()
      modifies `mismatchSince, `mismatchCount, `holdSince, `journal, `mon
      ensures Busy() && Judges(old(mon), mon)
      ensures mon.hold == if matched then None else old(mon).hold
      ensures mon.missed == if matched then NONE_MISSED else old(mon).missed.Miss(now)
    {
      if matched {
        NoteAllReadBack();
      } else {
        NoteUnmatched();
      }
      CountReadback(matched);
    }

    method CountReadback(matched: bool)
      modifies `mismatchSince, `mismatchCount, `holdSince
      ensures Fields() == if matched then old(Fields()).(missed := NONE_MISSED, hold := None)
                          else old(Fields()).(missed := Missed(old(mismatchSince), old(mismatchCount)).Miss(now))
      ensures mismatchCount > 0 ==> mismatchSince.Some?
    {
      NoteReadback(!matched);
      if matched {
        holdSince := None;
      }
    }

    /** Send the plan and judge the read-backs. */
    method RefreshSetpoints(p: Plan) returns (ok: bool, zeroConfirmed: bool)
      requires Valid() && mon.In(Refresh) && Planned(p)
      modifies `now, `intent, `saving, `journal, `mon, `persisted, `persistPending, `saves
      modifies `commands, `correcting, `lastRefusal
      modifies `mismatchSince, `mismatchCount, `holdSince
      ensures Busy() && Worked(old(mon), mon)
      ensures mon.Judged() && mon.Through()
      ensures Summed(p, ok, zeroConfirmed)
      ensures old(now) <= now
    {
      var r, matched := RefreshWrites(p);
      ghost var m := mon;
      SteadyWorked(old(mon), m);
      JudgeSent(p, r.Fine?, matched);
      WorkedThen(old(mon), m, mon);
      ok := (r.Superseded? || matched) && !p.held;       // a newer command writes its own value
      zeroConfirmed := p.power == Some(0) && r.Fine? && matched && ok;
    }

    /** What a refresh makes of its writes: all of them were read back, or a command overtook
        them; a zero is confirmed if it was read back. */
    ghost predicate Summed(p: Plan, ok: bool, zeroConfirmed: bool)
      reads `mon
    {
      && (ok ==> !p.held && (mon.Overtaken() || !Sends(p) || mon.tally.Clean()))
      && (!ok ==> p.held || !mon.tally.Clean())
      && (zeroConfirmed ==> p.power == Some(0) && ok && mon.quiet.zeroBack)
      && (!mon.Overtaken() && p.power == Some(0) && !p.held && mon.tally.Clean() ==> zeroConfirmed)
    }

    /** Judge what was read back, unless a command overtook the writes or there were none. */
    method JudgeSent(p: Plan, fine: bool, matched: bool)
      requires Busy() && mon.In(Refresh) && mon.run.value.decided && !mon.course.judged
      requires fine && Sends(p) ==> mon.tally.last.Some? && matched == mon.tally.Clean()
      modifies `mismatchSince, `mismatchCount, `holdSince, `journal, `mon
      ensures Busy() && (mon == old(mon) || Judges(old(mon), mon)) && Worked(old(mon), mon)
      ensures if fine && Sends(p) then mon.Judged() else mon == old(mon)
    {
      if fine && (p.current.Some? || p.power.Some?) {
        NoteSent(matched);
        JudgingWorked(old(mon), mon);
      }
    }

    // ---- the link --------------------------------------------------------------------------------

    ghost method NoteLinked(seen: LinkHealth.Look)
      requires Recorded() && mon.owed.Nothing? && LinkPermitted(mon, seen)
      modifies `journal, `mon
      ensures Recorded()
      ensures mon == old(mon).(
                run := if old(mon).run.Some? then Some(old(mon).run.value.(concluded := true)) else None,
                books := old(mon).books.(link := LinkHealth.Step(old(mon).link, seen)),
                turn := FREE.(releasable := LinkHealth.Fires(old(mon).link, seen)))
    {
      Note(Linked(seen));
    }

    /** The release timer; a poll (`zero` is `None`) can reset it but not advance it. */
    method MoveLinkTimer(ev: Evidence, zero: Option<bool>) returns (release: bool)
      modifies `linkOkSince
      ensures Fields() == old(Fields()).(link := LinkHealth.Step(old(linkOkSince), LinkLook(intent, ev, zero)))
      ensures release == LinkHealth.Fires(old(linkOkSince), LinkLook(intent, ev, zero))
    {
      var healthy := intent.latched && intent.comms && zero != Some(false)
        && ev.Valid() && !ev.Drawing() && ev.status.value != FAULT_STATUS && ev.fault.value == 0;
      release := false;
      if !healthy {
        linkOkSince := None;
      } else if zero.Some? {
        if linkOkSince.None? {
          linkOkSince := Some(ev.at);
        } else if ev.at - linkOkSince.value >= LinkHealth.COMMS_LATCH_RELEASE {
          linkOkSince := None;
          release := true;
        }
      }
    }

    static function LinkLook(i: Intent, ev: Evidence, zero: Option<bool>): LinkHealth.Look {
      if zero.None? then LinkHealth.Polled(ev, i.CommsLatch())
      else LinkHealth.Refreshed(ev, i.CommsLatch(), zero.value)
    }

    method CheckLink(ev: Evidence, zero: Option<bool>) returns (release: bool)
      requires Busy() && mon.Sees(ev)
      requires if zero.None? then mon.In(Poll) else MayClose(mon)
      requires zero == Some(true) ==> mon.quiet.zeroBack
      modifies `linkOkSince, `journal, `mon
      ensures Busy()
      ensures mon == old(mon).(
                run := Some(old(mon).run.value.(concluded := true)),
                books := old(mon).books.(link := LinkHealth.Step(old(mon).link, LinkLook(intent, ev, zero))),
                turn := FREE.(releasable := release))
      ensures release == LinkHealth.Fires(old(mon).link, LinkLook(intent, ev, zero))
    {
      NoteLinked(LinkLook(intent, ev, zero));
      release := MoveLinkTimer(ev, zero);
    }

    ghost method NoteReleased(a: Intent)
      requires Recorded() && mon.owed.Nothing? && mon.releasable && mon.intent.CommsLatch() && mon.intent.WellFormed()
      requires a == mon.intent.Next().(enabled := false, latched := false, comms := false)
      modifies `journal, `mon
      ensures Recorded()
      ensures mon == old(mon).Plain().(intent := a)
    {
      NoteChange(LinkReleased, a);
    }

    method SetReleased()
      requires Busy() && mon.releasable && intent.CommsLatch()
      modifies `intent, `journal, `mon
      ensures Busy() && mon == old(mon).Plain().(intent := intent)
      ensures intent == old(intent).Next().(enabled := false, latched := false, comms := false)
    {
      NoteReleased(intent.Next().(enabled := false, latched := false, comms := false));
      intent := intent.Next().(enabled := false, latched := false, comms := false);
    }

    method ReleaseLatch()
      requires Busy() && mon.releasable && intent.CommsLatch()
      modifies `now, `intent, `saving, `journal, `mon, `persisted, `persistPending, `saves, `commands, `correcting
      ensures Busy() && Progress(old(mon), mon)
      ensures mon.run == old(mon).run && mon.track == old(mon).track && mon.tel == old(mon).tel
      ensures mon.enables == old(mon).enables ==> !intent.enabled
      ensures saves == old(saves) + [old(intent).Next().(enabled := false, latched := false, comms := false)]
      ensures old(now) <= now
    {
      SetReleased();
      ghost var m := mon;
      Persist();
      SteadyWorked(m, mon);
      ProgressThen(old(mon), m, mon);
    }

    /** Release a comms-only fault latch once the link has been healthy long enough; the
        release leaves charging paused. */
    method NoteLinkHealth(ev: Evidence, zero: Option<bool>) returns (release: bool)
      requires Busy() && mon.Sees(ev)
      requires if zero.None? then mon.In(Poll) else MayClose(mon)
      requires zero == Some(true) ==> mon.quiet.zeroBack
      modifies `now, `intent, `saving, `journal, `mon, `persisted, `persistPending, `saves, `commands, `correcting
      modifies `linkOkSince
      ensures Busy() && Progress(old(mon), mon)
      ensures mon.run == Some(old(mon).run.value.(concluded := true))
      ensures mon.track == old(mon).track && mon.tel == old(mon).tel
      ensures release == LinkHealth.Fires(old(mon).link, LinkLook(old(intent), ev, zero))
      ensures if release then mon.enables == old(mon).enables ==> !intent.enabled else intent == old(intent)
      ensures old(now) <= now
    {
      release := CheckLink(ev, zero);
      ghost var m := mon;
      LinkedProgress(old(mon), m);
      if release {
        ReleaseLatch();
        ProgressThen(old(mon), m, mon);
      }
    }

    // ---- the safety configuration ------------------------------------------------------------------

    /** How long until the next refresh: at most half of what the firmware keeps a
        setpoint for, whatever validity it reports. */
    function RefreshInterval(): (d: real)
      reads `validity
      ensures d <= FIRMWARE_EXPIRY / 2.0
      ensures validity.Some? && validity.value > 0 ==> 0.0 < d <= validity.value as real / 2.0
      ensures d == if validity.Some? && 0 < validity.value < 60 then validity.value as real / 2.0
                   else if (validity.Some? && validity.value > 0) || retry > 30.0 then 30.0 else retry
      ensures retry > 0.0 ==> d > 0.0
    {
      if validity.None? || validity.value == 0 then Min(retry, MAX_REFRESH)
      else Min(Min(validity.value as real, FIRMWARE_EXPIRY) / 2.0, MAX_REFRESH)
    }

    /** The validity the charger holds. */
    method ReadHeld() returns (held: Option<nat>)
      requires Busy()
      modifies `now, `intent, `saving, `journal, `mon, `persisted, `persistPending, `commands, `correcting
      ensures Busy() && Steady(old(mon), mon) && OnlyCommands(old(mon), mon)
      ensures held.Some? && 0 < held.value <= MAX_FIXED_VALIDITY ==> mon.proof.validity
      ensures mon.tally.last == old(mon).tally.last && LastEntry(ReadBack(REG_TIME_VALIDITY, held))
      ensures old(now) <= now
    {
      held := Read(REG_TIME_VALIDITY);
    }

    /** 0x3005 is not configurable on this model, and the value it holds is safe. */
    method AcceptFixedValidity() returns (ok: bool, ghost reported: Option<nat>)
      requires Busy()
      modifies `now, `intent, `saving, `journal, `mon, `persisted, `persistPending, `commands, `correcting, `validity
      ensures Busy() && Steady(old(mon), mon)
      ensures lastRefusal == Some((0x3005, Some(3))) ==>
                && LastEntry(ReadBack(0x3005, reported))
                && ok == (reported.Some? && 0 < reported.value <= 180)
      ensures lastRefusal != Some((0x3005, Some(3))) ==> !ok
      ensures ok ==> mon.proof.validity && validity == reported
      ensures !ok ==> validity == old(validity)
      ensures mon.tally.last == old(mon).tally.last
      ensures old(now) <= now
      ensures OnlyCommands(old(mon), mon)
    {
      if lastRefusal != Some((REG_TIME_VALIDITY, Some(MODBUS_ILLEGAL_DATA_VALUE))) {
        return false, None;
      }
      ok, reported := TakeHeld();
    }

    /** What the charger holds is taken over if it is safe to run on. */
    method TakeHeld() returns (ok: bool, ghost reported: Option<nat>)
      requires Busy()
      modifies `now, `intent, `saving, `journal, `mon, `persisted, `persistPending, `commands, `correcting, `validity
      ensures Busy() && Steady(old(mon), mon)
      ensures LastEntry(ReadBack(0x3005, reported))
      ensures ok == (reported.Some? && 0 < reported.value <= 180)
      ensures ok ==> mon.proof.validity && validity == reported
      ensures !ok ==> validity == old(validity)
      ensures mon.tally.last == old(mon).tally.last
      ensures old(now) <= now
      ensures OnlyCommands(old(mon), mon)
    {
      var held := ReadHeld();
      reported := held;
      if held.None? || !(0 < held.value <= MAX_FIXED_VALIDITY) {
        return false, reported;
      }
      validity := held;
      return true, reported;
    }

    /** A validity of 60 s and a fallback current of 6 A, both read back. */
    method ConfigureRegisters(deadline: real) returns (ok: bool)
      requires Busy() && mon.debt.Clear? && lastRefusal.None?
      modifies `now, `intent, `saving, `journal, `mon, `persisted, `persistPending, `commands, `correcting, `lastRefusal
      modifies `validity
      ensures Busy() && Steady(old(mon), mon)
      ensures mon.tally.last == Some((0x3006, 60)) || (!ok && mon.tally.last == Some((0x3005, 60)))
      ensures ok ==> mon.proof.Complete()
      ensures ok == mon.tally.Shows(0x3006, 60)
      ensures !ok ==> now >= Min(deadline, old(now) + timeout)
      ensures old(now) <= now
      ensures OnlyCommands(old(mon), mon)
    {
      ok := ConfigureValidity(Min(deadline, now + timeout));
      if ok {
        ghost var m := mon;
        var r := WriteConfirmed(REG_DEFAULT_CURRENT, SAFETY_FALLBACK_CURRENT_RAW, None, Min(deadline, now + timeout));
        SteadyThen(old(mon), m, mon);
        ok := r.Fine?;
      }
    }

    method ConfigureValidity(deadline: real) returns (ok: bool)
      requires Busy() && mon.debt.Clear?
      modifies `now, `intent, `saving, `journal, `mon, `persisted, `persistPending, `commands, `correcting, `lastRefusal
      modifies `validity
      ensures Busy() && Steady(old(mon), mon) && mon.tally.last == Some((0x3005, 60))
      ensures !ok ==> now >= deadline
      ensures ok ==> mon.proof.validity
      ensures old(now) <= now
      ensures OnlyCommands(old(mon), mon)
    {
      var r := WriteConfirmed(REG_TIME_VALIDITY, SAFETY_VALIDITY, None, deadline);
      ok := r.Fine?;
      if !ok {
        ghost var m := mon;
        ghost var held;
        ok, held := AcceptFixedValidity();
        SteadyThen(old(mon), m, mon);
      }
    }

    ghost method NoteSafetyConfirmed()
      requires Recorded() && mon.owed.Nothing? && mon.run.Some? && mon.proof.Complete()
      modifies `journal, `mon
      ensures Recorded()
      ensures mon == old(mon).Plain().(books := old(mon).books.(safety := false))
    {
      Note(SafetyConfirmed);
    }

    method ConfirmSafety()
      requires Busy() && mon.proof.Complete()
      modifies `protect, `journal, `mon
      ensures Busy() && SafetyUnconfirmed !in protect
      ensures mon == old(mon).Plain().(books := old(mon).books.(safety := false)) && Progress(old(mon), mon)
    {
      protect := protect - {SafetyUnconfirmed};
      NoteSafetyConfirmed();
    }

    method TryRegisters(deadline: real) returns (ok: bool)
      requires Busy() && mon.debt.Clear?
      modifies `now, `intent, `saving, `journal, `mon, `persisted, `persistPending, `commands, `correcting, `lastRefusal
      modifies `validity, `nextSafetyTry
      ensures Busy() && Progress(old(mon), mon) && mon.run == old(mon).run && mon.stopAt == old(mon).stopAt
      ensures mon.tally.last.Some? && ok == mon.tally.Shows(0x3006, 60)
      ensures nextSafetyTry == old(now) + old(RefreshInterval())
      ensures OnlyCommands(old(mon), mon)
      ensures ok ==> mon.proof.Complete()
      ensures old(now) <= now
    {
      nextSafetyTry := now + RefreshInterval();
      lastRefusal := None;
      ok := ConfigureRegisters(deadline);
      SteadyWorked(old(mon), mon);
    }

    /** Configure the safety registers; explicit enables stay blocked until it worked. */
    method ConfigureSafety(deadline: real)
      requires Busy() && mon.debt.Clear?
      modifies `now, `intent, `saving, `journal, `mon, `persisted, `persistPending, `commands, `correcting, `lastRefusal
      modifies `validity, `nextSafetyTry, `protect
      ensures Busy() && Progress(old(mon), mon) && mon.run == old(mon).run && mon.tally.last.Some?
      ensures SafetyUnconfirmed !in protect && SafetyUnconfirmed in old(protect) ==> mon.proof.Complete()
      ensures SafetyUnconfirmed in protect ==> SafetyUnconfirmed in old(protect)
      ensures mon.tally.Shows(0x3006, 60) ==> SafetyUnconfirmed !in protect
      ensures mon.stopAt == old(mon).stopAt && OnlyCommands(old(mon), mon)
      ensures old(now) <= now
    {
      var ok := TryRegisters(deadline);
      if ok {
        ghost var m := mon;
        ConfirmSafety();
        ProgressThen(old(mon), m, mon);
      }
    }

    // ---- a whole refresh -------------------------------------------------------------------------

    /** Retry a save that failed, and the safety configuration when it is due. */
    method Prepare()
      requires Busy() && mon.debt.Clear?
      modifies `now, `intent, `saving, `journal, `mon, `persisted, `persistPending, `saves
      modifies `commands, `correcting, `lastRefusal
      modifies `validity, `nextSafetyTry, `protect
      ensures Busy() && Progress(old(mon), mon) && mon.run == old(mon).run
      ensures old(SafetyUnconfirmed in protect && now >= nextSafetyTry) ==> mon.tally.last.Some?
      ensures old(persistPending) ==> |saves| > |old(saves)|
      ensures old(now) <= now
    {
      if persistPending {
        var _ := SaveIntent();
        SteadyWorked(old(mon), mon);
      }
      if SafetyUnconfirmed in protect && now >= nextSafetyTry {
        ghost var m := mon;
        ConfigureSafety(now);                         // one attempt per interval
        ProgressThen(old(mon), m, mon);
      }
    }

    /** A refresh opens with the frame everything it writes rests on. */
    method OpenRefresh() returns (ev: Evidence)
      requires Idle() && initialized
      modifies `now, `intent, `saving, `journal, `mon, `persisted, `persistPending, `saves
      modifies `commands, `correcting, `lastRefusal
      modifies `validity, `nextSafetyTry, `badSince, `badCount, `goodFirst, `protect, `holdSince
      ensures Busy() && Rests(ev)
      ensures old(SafetyUnconfirmed in protect && now >= nextSafetyTry) ==> mon.tally.last.Some?
      ensures mon.begun == old(mon).begun + [Refresh]
      ensures old(now) <= ev.at <= now
    {
      Begin(Refresh);
      ghost var m := mon;
      Prepare();
      ghost var n := mon;
      ev := Observe();
      ProgressThen(m, n, mon);
    }

    /** A refresh that has not decided yet rests on this frame, has dealt with a fault in it
        and owes nothing. */
    ghost predicate Rests(ev: Evidence)
      reads `mon
    {
      && mon.In(Refresh) && mon.Sees(ev) && FaultHandled(mon)
      && !mon.run.value.decided && mon.debt.Clear? && mon.Through()
    }

    lemma RestsStill(m: Mon, ev: Evidence)
      requires Valid() && Progress(m, mon) && m.In(Refresh) && m.Sees(ev) && FaultHandled(m)
      requires m.run.value.frameEnables <= m.enables
      requires !m.run.value.decided && m.debt.Clear? && m.Through()
      ensures Rests(ev)
    {
      FaultStaysHandled(m, mon);
      ThroughStays(m, mon);
    }

    /** What the frame means for the session and the cable. */
    method ReviewFrame(ev: Evidence) returns (r: Flow)
      requires Busy() && Rests(ev) && initialized
      modifies `now, `intent, `saving, `journal, `mon, `persisted, `persistPending, `saves
      modifies `commands, `correcting, `lastRefusal
      modifies `badSince, `badCount, `goodFirst, `protect, `holdSince, `startingSince
      modifies `lastObs, `awaitPlug, `spawned, `released, `unplugFirst
      ensures Busy() && mon.In(Refresh) && mon.run.value.checked
      ensures Rests(ev)
      ensures if r.Fine? then mon.run.value.tracked else mon.run.value.revoked && ev.Starting()
      ensures mon.begun == old(mon).begun
      ensures old(now) <= now
    {
      r := ReviewSessionOf(ev);
      if r.Fine? {
        ghost var m := mon;
        TrackUnplug(ev);
        RestsStill(m, ev);
      }
    }

    method ReviewSessionOf(ev: Evidence) returns (r: Flow)
      requires Busy() && Rests(ev)
      modifies `now, `intent, `saving, `journal, `mon, `persisted, `persistPending, `saves
      modifies `commands, `correcting, `lastRefusal
      modifies `badSince, `badCount, `goodFirst, `protect, `holdSince, `startingSince, `lastObs, `awaitPlug, `spawned
      ensures Busy() && Rests(ev) && mon.run.value.checked
      ensures !r.Fine? ==> mon.run.value.revoked && ev.Starting()
      ensures r.Fine? ==> mon.run.value.revoked || Counted(ev)
      ensures mon.begun == old(mon).begun
      ensures old(now) <= now
    {
      var ended, stuck;
      r, ended, stuck := ReviewEnable(ev);
      RestsStill(old(mon), ev);
    }

    /** The charger reports how long it keeps a setpoint. */
    method ReadValidity(ev: Evidence) returns (ghost reported: Option<nat>)
      requires Busy() && Rests(ev) && mon.run.value.tracked
      modifies `now, `intent, `saving, `journal, `mon, `persisted, `persistPending, `commands, `correcting, `validity
      ensures Busy() && Rests(ev) && mon.run.value.tracked && mon.proof.timed
      ensures LastEntry(ReadBack(REG_TIME_VALIDITY, reported))
      ensures validity == if reported.Some? then reported else old(validity)
      ensures mon.begun == old(mon).begun
      ensures old(now) <= now
    {
      var back := Read(REG_TIME_VALIDITY);
      SteadyWorked(old(mon), mon);
      RestsStill(old(mon), ev);
      reported := back;
      if back.Some? {
        validity := back;
      }
    }

    /** Decide, send, and latch once the charger has ignored the setpoints long enough. */
    method SendSetpoints(ev: Evidence) returns (ok: bool, zeroConfirmed: bool)
      requires Busy() && Rests(ev) && mon.run.value.tracked && mon.proof.timed
      modifies `now, `intent, `saving, `journal, `mon, `persisted, `persistPending, `saves
      modifies `commands, `correcting, `lastRefusal
      modifies `authorized, `mismatchSince, `mismatchCount, `holdSince
      ensures Busy() && mon.Sees(ev) && MayClose(mon)
      ensures zeroConfirmed ==> mon.quiet.zeroBack
      ensures mon.begun == old(mon).begun
      ensures old(now) <= now
    {
      var p := Decide(ev);
      ghost var n := mon;
      ok, zeroConfirmed := RefreshSetpoints(p);
      ghost var m := mon;
      LatchMismatch();
      WorkedThen(n, m, mon);
    }

    ghost method NoteIgnored()
      requires Recorded() && mon.owed.Nothing? && mon.In(Refresh) && mon.run.value.decided && mon.missed.count >= 2
      modifies `journal, `mon
      ensures Recorded()
      ensures mon == old(mon).(books := old(mon).books.(missed := NONE_MISSED),
                               work := old(mon).work.(course := old(mon).course.(judged := true)),
                               turn := Owing(old(mon).LinkOwed()))
    {
      Note(Ignored);
    }

    /** Latch once the charger has ignored the setpoints long enough. */
    method LatchMismatch()
      requires Busy() && mon.In(Refresh) && mon.run.value.decided && mon.Judged() && mon.Through() && mon.debt.Clear?
      modifies `now, `intent, `saving, `journal, `mon, `persisted, `persistPending, `saves
      modifies `commands, `correcting, `lastRefusal
      modifies `mismatchSince, `mismatchCount
      ensures Busy() && Worked(old(mon), mon) && Kept(old(mon).quiet, mon.quiet) && mon.run == old(mon).run
      ensures MayClose(mon)
      ensures if old(MismatchPersistent())
              then mon.missed == NONE_MISSED && (mon.enables == old(mon).enables ==> intent.latched)
              else mon == old(mon) && intent == old(intent)
      ensures old(now) <= now
    {
      if mismatchCount > 0 && MismatchPersistent() {
        LatchIgnored();
      }
    }

    method LatchIgnored()
      requires Busy() && mon.In(Refresh) && mon.run.value.decided && mon.Through() && mon.debt.Clear?
      requires mismatchCount >= 2
      modifies `now, `intent, `saving, `journal, `mon, `persisted, `persistPending, `saves
      modifies `commands, `correcting, `lastRefusal
      modifies `mismatchSince, `mismatchCount
      ensures Busy() && Worked(old(mon), mon) && Kept(old(mon).quiet, mon.quiet) && mon.run == old(mon).run
      ensures mon.Judged() && mon.Through() && mon.missed == NONE_MISSED
      ensures mon.enables == old(mon).enables ==> intent.latched
      ensures old(now) <= now
    {
      NoteIgnored();
      NoteReadback(false);
      ghost var m := mon;
      LatchFault(true);
      IgnoredThen(old(mon), m, mon);
    }

    lemma IgnoredThen(a: Mon, b: Mon, c: Mon)
      requires a.run.Some? && Steady(b, c)
      requires b == a.(books := a.books.(missed := NONE_MISSED),
                       work := a.work.(course := a.course.(judged := true)), turn := b.turn)
      ensures Worked(a, c) && c.run == a.run && c.missed == NONE_MISSED
      ensures c.Judged() && (a.Through() ==> c.Through())
    {
      SteadyWorked(b, c);
      ThroughStays(b, c);
      WorkedThen(a, b, c);
    }

    /** A refresh that an exception ends never gets to its writes or the link check. */
    method CutShort(ev: Evidence)
      requires Busy() && Rests(ev)
      requires mon.run.value.checked && mon.run.value.revoked && ev.Starting()
      modifies `journal, `mon
      ensures Idle()
      ensures mon.begun == old(mon).begun
    {
      NoteLinked(LinkHealth.CutShort(ev));
      End();
    }

    /** Look, decide, write, and check the link. */
    method OpRefresh() returns (r: Flow, ok: bool, ghost seen: Evidence)
      requires Idle() && initialized
      modifies `now, `intent, `saving, `journal, `mon, `persisted, `persistPending, `saves
      modifies `commands, `correcting, `lastRefusal
      modifies `validity, `nextSafetyTry, `badSince, `badCount, `goodFirst, `protect, `holdSince
      modifies `startingSince, `lastObs, `awaitPlug, `spawned, `released, `unplugFirst
      modifies `authorized, `mismatchSince, `mismatchCount, `linkOkSince
      ensures Idle()
      ensures r.Fine? && !released && seen.Drawing() && intent.ExplicitZero() ==> correcting
      ensures mon.begun == old(mon).begun + [Refresh]
      ensures old(now) <= now
    {
      var ev := OpenRefresh();
      seen := ev;
      r, ok := CarryOut(ev);
      if r.Fine? {
        MaybeCorrect(ev);
      }
    }

    /** Review the frame, then finish the refresh, or break it off. */
    method CarryOut(ev: Evidence) returns (r: Flow, ok: bool)
      requires Busy() && Rests(ev) && initialized
      modifies `now, `intent, `saving, `journal, `mon, `persisted, `persistPending, `saves
      modifies `commands, `correcting, `lastRefusal
      modifies `validity, `badSince, `badCount, `goodFirst, `protect, `holdSince
      modifies `startingSince, `lastObs, `awaitPlug, `spawned, `released, `unplugFirst
      modifies `authorized, `mismatchSince, `mismatchCount, `linkOkSince
      ensures Idle() && mon.begun == old(mon).begun
      ensures old(now) <= now
    {
      r := ReviewFrame(ev);
      if r.Fine? {
        ok := FinishRefresh(ev);
      } else {
        CutShort(ev);
        ok := false;
      }
    }

    method FinishRefresh(ev: Evidence) returns (ok: bool)
      requires Busy() && Rests(ev) && mon.run.value.tracked
      modifies `now, `intent, `saving, `journal, `mon, `persisted, `persistPending, `saves
      modifies `commands, `correcting, `lastRefusal
      modifies `validity, `authorized, `mismatchSince, `mismatchCount, `holdSince, `linkOkSince
      ensures Idle()
      ensures mon.begun == old(mon).begun
      ensures old(now) <= now
    {
      var _ := ReadValidity(ev);
      var zeroConfirmed;
      ok, zeroConfirmed := SendSetpoints(ev);
      CloseRefresh(ev, zeroConfirmed);
    }

    method CloseRefresh(ev: Evidence, zeroConfirmed: bool)
      requires Busy() && mon.Sees(ev) && MayClose(mon)
      requires zeroConfirmed ==> mon.quiet.zeroBack
      modifies `now, `intent, `saving, `journal, `mon, `persisted, `persistPending, `saves, `commands, `correcting
      modifies `linkOkSince
      ensures Idle() && mon.begun == old(mon).begun
      ensures old(now) <= now
    {
      var _ := NoteLinkHealth(ev, Some(zeroConfirmed));
      ThroughStays(old(mon), mon);
      End();
    }

    /** Charging while the intent says off: queue a correction, one at a time. */
    method MaybeCorrect(ev: Evidence)
      requires Idle()
      modifies `correcting, `spawned
      ensures Idle()
      ensures var due := !released && ev.Drawing() && intent.ExplicitZero() && !old(correcting);
              && correcting == (due || old(correcting))
              && spawned == if due then old(spawned) + [Apply] else old(spawned)
    {
      if released || !(ev.Drawing() && intent.ExplicitZero()) || correcting {
        return;
      }
      correcting := true;
      spawned := spawned + [Apply];
    }

    // ---- polling and observing -------------------------------------------------------------------

    /** The snapshot of the status block; a failed block is a missing observation. */
    method ReadSnapshot() returns (ev: Evidence, ghost block: Option<seq<nat>>)
      requires Valid() && mon.owed.Nothing?
      modifies `now, `intent, `saving, `journal, `mon, `persisted, `persistPending, `commands, `correcting
      ensures Valid()
      ensures Steady(old(mon), mon) && mon.work == old(mon).work && mon.owed.Nothing?
      ensures OnlyCommands(old(mon), mon)
      ensures old(now) <= now
      ensures ev == DecodedSnapshot(block, now)
    {
      Await();
      var regs: Option<seq<nat>> := *;
      block := regs;
      if regs.Some? && |regs.value| == REG_STATUS_BLOCK_COUNT {
        ev := FromSnapshot(regs.value, now);
      } else {
        ev := Unread(now);
      }
    }

    /** A poll judges its frame like a command does; it writes no setpoint of its own. */
    method OpenPoll() returns (ev: Evidence, changed: bool)
      requires Idle() && initialized
      modifies `now, `intent, `saving, `journal, `mon, `persisted, `persistPending, `saves
      modifies `commands, `correcting, `lastRefusal
      modifies `badSince, `badCount, `goodFirst, `protect, `holdSince, `linkOkSince
      ensures Busy() && mon.Sees(ev) && mon.In(Poll) && mon.run.value.concluded && mon.debt.Clear?
      ensures mon.begun == old(mon).begun + [Poll]
      ensures old(now) <= ev.at <= now
    {
      Begin(Poll);
      ghost var block;
      ev, block := ReadSnapshot();
      changed := Judge(ev);
      var _ := NoteLinkHealth(ev, None);
    }

    /** Whatever changed what should be on the wire is followed by a refresh. */
    method OpPoll() returns (r: Flow, changed: bool, ghost seen: Evidence)
      requires Idle() && initialized
      modifies `now, `intent, `saving, `journal, `mon, `persisted, `persistPending, `saves
      modifies `commands, `correcting, `lastRefusal
      modifies `badSince, `badCount, `goodFirst, `protect, `holdSince, `linkOkSince, `startingSince
      modifies `lastObs, `awaitPlug, `spawned, `released, `unplugFirst
      ensures Idle()
      ensures r.Fine? && changed ==> Op.Refresh in spawned
      ensures r.Fine? && !released && seen.Drawing() && intent.ExplicitZero() ==> correcting
      ensures mon.begun == old(mon).begun + [Poll]
      ensures old(now) <= now
    {
      var ev;
      r, changed, ev := LookAround();
      seen := ev;
      if r.Fine? {
        FollowUp(ev, changed);
      }
    }

    /** Look, and judge what was seen. */
    method LookAround() returns (r: Flow, changed: bool, ev: Evidence)
      requires Idle() && initialized
      modifies `now, `intent, `saving, `journal, `mon, `persisted, `persistPending, `saves
      modifies `commands, `correcting, `lastRefusal
      modifies `badSince, `badCount, `goodFirst, `protect, `holdSince, `linkOkSince, `startingSince
      modifies `lastObs, `awaitPlug, `spawned, `released, `unplugFirst
      ensures Idle()
      ensures mon.begun == old(mon).begun + [Poll]
      ensures old(now) <= ev.at <= now
    {
      ev, changed := OpenPoll();
      r, changed := ReviewPoll(ev, changed);
    }

    method ReviewPoll(ev: Evidence, already: bool) returns (r: Flow, changed: bool)
      requires Busy() && mon.Sees(ev) && initialized && mon.In(Poll) && mon.run.value.concluded && mon.debt.Clear?
      modifies `now, `intent, `saving, `journal, `mon, `persisted, `persistPending, `saves
      modifies `commands, `correcting, `lastRefusal
      modifies `badSince, `badCount, `goodFirst, `protect, `holdSince, `startingSince
      modifies `lastObs, `awaitPlug, `spawned, `released, `unplugFirst
      ensures Idle()
      ensures already ==> changed
      ensures r.Fine? && !changed && spawned == old(spawned) ==> intent == old(intent)
      ensures mon.begun == old(mon).begun
      ensures old(now) <= now
    {
      r, changed := JudgePoll(ev);
      End();
      changed := already || changed;
    }

    /** What the frame of a poll means for the session and the cable; `changed` if the enable
        was withdrawn. */
    method JudgePoll(ev: Evidence) returns (r: Flow, changed: bool)
      requires Busy() && mon.Sees(ev) && initialized && mon.In(Poll) && mon.run.value.concluded && mon.debt.Clear?
      modifies `now, `intent, `saving, `journal, `mon, `persisted, `persistPending, `saves
      modifies `commands, `correcting, `lastRefusal
      modifies `badSince, `badCount, `goodFirst, `protect, `holdSince, `startingSince
      modifies `lastObs, `awaitPlug, `spawned, `released, `unplugFirst
      ensures Busy() && MayEnd(mon, mon.run.value)
      ensures r.Fine? && !changed && spawned == old(spawned) ==> intent == old(intent)
      ensures mon.begun == old(mon).begun
      ensures old(now) <= now
    {
      var ended, stuck;
      r, ended, stuck := ReviewEnable(ev);
      changed := ended || stuck;
      if r.Fine? {
        TrackUnplug(ev);
      }
    }

    /** What a poll leaves to do: a refresh if the wire may have to change, a correction if
        the charger draws against the intent. */
    method FollowUp(ev: Evidence, changed: bool)
      requires Idle()
      modifies `correcting, `spawned
      ensures Idle()
      ensures changed ==> Op.Refresh in spawned
      ensures !released && ev.Drawing() && intent.ExplicitZero() ==> correcting
      ensures old(spawned) <= spawned
    {
      if changed {
        spawned := spawned + [Op.Refresh];
      }
      MaybeCorrect(ev);
    }

    /** A fresh look for a limit change: may it write a positive value right away? */
    method OpObserve() returns (authorizes: bool, ghost seen: Evidence)
      requires Idle() && initialized
      modifies `now, `intent, `saving, `journal, `mon, `persisted, `persistPending, `saves
      modifies `commands, `correcting, `lastRefusal
      modifies `badSince, `badCount, `goodFirst, `protect, `holdSince, `lastObs, `awaitPlug, `spawned
      ensures Idle()
      ensures authorizes == (seen.SessionActive() && !intent.latched)
      ensures mon.begun == old(mon).begun + [Op.Observe]
      ensures old(now) <= now
    {
      Begin(Op.Observe);
      var ev := Observe();
      seen := ev;
      authorizes := ReviewLook(ev);
    }

    method ReviewLook(ev: Evidence) returns (authorizes: bool)
      requires Busy() && mon.Sees(ev) && mon.In(Op.Observe) && mon.debt.Clear?
      modifies `now, `intent, `saving, `journal, `mon, `persisted, `persistPending, `saves, `commands, `correcting
      modifies `lastObs, `awaitPlug, `spawned
      ensures Idle()
      ensures old(Judged(ev)) && !ev.SessionActive() && !old(awaitPlug) ==> Op.Refresh in spawned
      ensures authorizes == (ev.SessionActive() && !intent.latched)
      ensures mon.begun == old(mon).begun
      ensures old(now) <= now
    {
      var ended := NoteSession(ev);
      if ended {
        spawned := spawned + [Op.Refresh];
      }
      authorizes := ev.SessionActive() && !intent.latched;
      End();
    }

    // ---- plain registers ---------------------------------------------------------------------------

    /** The registers a caller may set directly, with their bounds. */
    static function Allowed(address: nat): Option<(nat, nat)> {
      if address == REG_WORK_MODE then Some((0, 2))
      else if address == REG_ALLOWED_CHARGE_TIME then Some((0, 0xFFFF))
      else if address == REG_ALLOWED_CHARGE_ENERGY then Some((0, 0xFFFF))
      else if address == REG_TIME_VALIDITY then Some((1, 3600))
      else if address == REG_DEFAULT_CURRENT then Some((MIN_CURRENT_RAW, MAX_CURRENT_RAW))
      else if address == REG_LOCK_CONTROL then Some((1, 2))
      else if address == REG_AUTO_PHASE_SWITCH then Some((0, 1))
      else if address == REG_MIN_SWITCH_INTERVAL then Some((5, 30))
      else if address == REG_PHASE_SWITCHING then Some((0, 2))
      else None
    }

    /** Where a write shows: its own register, or the status register a write-only command
        drives, and the value expected there. */
    static function Proof(address: nat, value: nat): (nat, nat)
      requires address == REG_LOCK_CONTROL ==> value >= 1
    {
      if address == REG_LOCK_CONTROL then (REG_LOCK_STATUS, value - 1)
      else if address == REG_PHASE_SWITCHING then (REG_PHASE_SEQUENCE, value)
      else (address, value)
    }

    /** The read-back that confirms a write of a plain register. */
    static function Proves(address: nat, value: nat): Entry
      requires address == REG_LOCK_CONTROL ==> value >= 1
    {
      ReadBack(Proof(address, value).0, Some(Proof(address, value).1))
    }

    /** One attempt at a plain register. */
    method RegisterRound(address: nat, value: nat, deadline: real) returns (good: bool, over: bool)
      requires Busy() && Allowed(address).Some? && (address == REG_LOCK_CONTROL ==> value >= 1) && mon.debt.Clear?
      modifies `now, `intent, `saving, `journal, `mon, `persisted, `persistPending, `commands, `correcting, `lastRefusal
      ensures Busy() && Steady(old(mon), mon) && mon.tally.last == Some((address, value))
      ensures good ==> over && LastEntry(Proves(address, value))
      ensures over && !good ==> now >= deadline
      ensures !over ==> Rounds(deadline - now, retry) < Rounds(deadline - old(now), retry)
      ensures old(now) <= now
    {
      ghost var left := deadline - now;
      good := RegisterOnce(address, value);
      ghost var m := mon;
      over := good || now >= deadline;
      if !over {
        Backoff(deadline, left);
        SteadyThen(old(mon), m, mon);
      }
    }

    /** Attempt after attempt, until the register that proves it says so or time is up. */
    method WriteRegister(address: nat, value: nat) returns (confirmed: bool)
      requires Busy() && Allowed(address).Some? && (address == REG_LOCK_CONTROL ==> value >= 1) && mon.debt.Clear?
      modifies `now, `intent, `saving, `journal, `mon, `persisted, `persistPending, `commands, `correcting, `lastRefusal
      ensures Busy() && Steady(old(mon), mon) && mon.tally.last == Some((address, value))
      ensures if confirmed then LastEntry(Proves(address, value)) else now >= old(now) + timeout
      ensures old(now) <= now
    {
      var deadline, over := now + timeout, false;
      confirmed := false;
      while !over
        invariant Busy() && Steady(old(mon), mon) && old(now) <= now
        invariant over ==> mon.tally.last == Some((address, value))
        invariant over ==> if confirmed then LastEntry(Proves(address, value)) else now >= deadline
        decreases !over, Rounds(deadline - now, retry)
      {
        ghost var m := mon;
        confirmed, over := RegisterRound(address, value, deadline);
        SteadyThen(old(mon), m, mon);
      }
    }

    /** One write of a plain register, and a look at what proves it. */
    method RegisterOnce(address: nat, value: nat) returns (good: bool)
      requires Busy() && Allowed(address).Some? && (address == REG_LOCK_CONTROL ==> value >= 1) && mon.debt.Clear?
      modifies `now, `intent, `saving, `journal, `mon, `persisted, `persistPending, `commands, `correcting, `lastRefusal
      ensures Busy() && Steady(old(mon), mon) && mon.tally.last == Some((address, value))
      ensures good ==> LastEntry(Proves(address, value))
      ensures old(now) <= now
    {
      var r := Send(address, value, None);
      var back := Read(Proof(address, value).0);
      good := back == Some(Proof(address, value).1);
    }

    /** Write an allowed register until the register that proves it says so. */
    method OpRegister(address: nat, value: nat) returns (confirmed: bool)
      requires Idle() && initialized && Allowed(address).Some?
      requires Allowed(address).value.0 <= value <= Allowed(address).value.1
      modifies `now, `intent, `saving, `journal, `mon, `persisted, `persistPending, `commands, `correcting
      modifies `lastRefusal, `validity
      ensures Idle()
      ensures confirmed ==> |journal| >= 2 && journal[|journal| - 2] == Proves(address, value)
      ensures validity == if confirmed && address == REG_TIME_VALIDITY then Some(value) else old(validity)
      ensures mon.begun == old(mon).begun + [Register]
      ensures old(now) <= now
    {
      Begin(Register);
      confirmed := WriteRegister(address, value);
      FinishRegister(address, value, confirmed);
    }

    /** A confirmed validity is what the refresh interval goes by from here on. */
    method FinishRegister(address: nat, value: nat, confirmed: bool)
      requires Busy() && mon.In(Register) && (address == REG_LOCK_CONTROL ==> value >= 1)
      requires mon.debt.Clear? && mon.tally.last.Some?
      requires confirmed ==> LastEntry(Proves(address, value))
      modifies `validity, `journal, `mon
      ensures Idle()
      ensures confirmed ==> |journal| >= 2 && journal[|journal| - 2] == Proves(address, value)
      ensures validity == if confirmed && address == REG_TIME_VALIDITY then Some(value) else old(validity)
      ensures mon.begun == old(mon).begun
    {
      if confirmed && address == REG_TIME_VALIDITY {
        validity := Some(value);
      }
      End();
    }

    /** Anything outside the allowed registers and bounds is refused before any write. */
    method SetRegister(address: nat, value: nat) returns (accepted: bool, confirmed: bool)
      requires Idle() && initialized
      modifies `now, `intent, `saving, `journal, `mon, `persisted, `persistPending, `commands, `correcting
      modifies `lastRefusal, `validity
      ensures Idle()
      ensures accepted == (Allowed(address).Some? && Allowed(address).value.0 <= value <= Allowed(address).value.1)
      ensures !accepted ==> journal == old(journal) && !confirmed
      ensures accepted ==> mon.begun == old(mon).begun + [Register]
      ensures confirmed ==> |journal| >= 2 && journal[|journal| - 2] == Proves(address, value)
      ensures old(now) <= now
    {
      var bounds := Allowed(address);
      accepted := bounds.Some? && bounds.value.0 <= value <= bounds.value.1;
      confirmed := false;
      if accepted {
        confirmed := OpRegister(address, value);
      }
    }

    // ---- starting up -------------------------------------------------------------------------------

    constructor (grace: real, retry: real, timeout: real, startTimeout: real, startingTimeout: real, pauseTimeout: real)
      requires retry > 0.0
      ensures Starting() && intent == INITIAL && maxPower.None? && saving == []
      ensures this.grace == grace && journal == [] && mon == Start(grace)
    {
      this.grace, this.retry, this.timeout := grace, retry, timeout;
      this.startTimeout, this.startingTimeout, this.pauseTimeout := startTimeout, startingTimeout, pauseTimeout;
      now, intent, protect := 0.0, INITIAL, {};
      badSince, badCount, goodFirst, holdSince := None, 0, None, None;
      released, unplugFirst, linkOkSince, startingSince := false, None, None, None;
      nextSafetyTry, mismatchSince, mismatchCount := 0.0, None, 0;
      maxPower, validity, lastRefusal, lastObs := None, None, None, None;
      awaitPlug, authorized, initialized, commands, saving := false, None, false, 0, [];
      persisted, persistPending, correcting, spawned := true, false, false, [];
      saves, journal, mon := [], [], Start(grace);
      LedgerOpens(grace);
    }

    /** Not ready yet: no command is accepted. */
    ghost predicate Starting()
      reads `now, `intent, `protect, `badSince, `badCount, `goodFirst, `holdSince
      reads `released, `unplugFirst, `linkOkSince, `initialized, `commands, `awaitPlug
      reads `mismatchSince, `mismatchCount, `saving, `journal, `mon
    {
      Idle() && !initialized && mon.stopAt.None?
    }

    ghost method NoteRestored(a: Intent)
      requires Recorded() && mon.owed.Nothing? && !mon.ready && mon.stopAt.None? && a.WellFormed()
      modifies `journal, `mon
      ensures Recorded() && journal == old(journal) + [Changed(Restored, a)]
      ensures mon == old(mon).Plain().(intent := a)
    {
      NoteChange(Restored, a);
    }

    method Install(a: Intent)
      requires Starting() && a.WellFormed()
      modifies `intent, `journal, `mon
      ensures Starting() && intent == a
      ensures journal == old(journal) + [Changed(Restored, a)] && mon.begun == old(mon).begun
    {
      NoteRestored(a);
      intent := a;
    }

    /** A register read before the controller is ready. */
    method Inspect(register: nat) returns (result: Option<nat>)
      requires Starting()
      modifies `now, `intent, `saving, `journal, `mon, `persisted, `persistPending, `commands, `correcting
      ensures Starting() && intent == old(intent) && LastEntry(ReadBack(register, result))
      ensures mon.begun == old(mon).begun
    {
      result := Read(register);
    }

    method InspectStatus() returns (ev: Evidence)
      requires Starting()
      modifies `now, `intent, `saving, `journal, `mon, `persisted, `persistPending, `commands, `correcting
      ensures Starting() && intent == old(intent) && LastEntry(Peeked(ev))
    {
      ev := Peek();
    }

    /** First install: authorize only a session the hardware shows is active. */
    method RestoreNothing() returns (seen: Evidence)
      requires Starting()
      modifies `now, `intent, `saving, `journal, `mon, `persisted, `persistPending, `commands, `correcting
      ensures Starting() && intent == INITIAL.(enabled := seen.SessionActive()) && EntryBeforeLast(Peeked(seen))
    {
      seen := InspectStatus();
      Install(INITIAL.(enabled := seen.SessionActive()));
    }

    /** A saved enable is kept only with a saved limit, if the hardware shows a session
        running and does not hold a zero cap. */
    method RestoreSaved(saved: Intent) returns (seen: Option<Evidence>, cap: Option<nat>)
      requires Starting() && saved.WellFormed()
      modifies `now, `intent, `saving, `journal, `mon, `persisted, `persistPending, `commands, `correcting
      ensures Starting() && intent == saved.(enabled := intent.enabled)
      ensures intent.enabled <==>
                && saved.enabled && saved.power.Some?
                && seen.Some? && seen.value.SessionActive()
                && !(saved.power.value >= MIN_ENABLE_POWER_RAW && cap == Some(0))
      ensures seen.Some? <==> saved.enabled && saved.power.Some?
      ensures seen.Some? && seen.value.SessionActive() && saved.power.value >= MIN_ENABLE_POWER_RAW ==>
                var e := ReadBack(REG_MAX_CHARGING_POWER, cap);
                if intent.enabled then LastEntry(e) else EntryBeforeLast(e)
    {
      seen, cap := None, None;
      var parsed := if saved.enabled && saved.power.None? then saved.(enabled := false) else saved;
      Install(parsed);
      if parsed.enabled {
        var ev := InspectStatus();
        seen := Some(ev);
        if !ev.SessionActive() {
          Install(intent.(enabled := false));
        } else if parsed.power.value >= MIN_ENABLE_POWER_RAW {
          cap := CheckCap();
        }
      }
    }

    /** A zero cap still in force contradicts a saved enable. */
    method CheckCap() returns (cap: Option<nat>)
      requires Starting() && intent.enabled
      modifies `now, `intent, `saving, `journal, `mon, `persisted, `persistPending, `commands, `correcting
      ensures Starting() && intent == old(intent).(enabled := cap != Some(0))
      ensures var e := ReadBack(REG_MAX_CHARGING_POWER, cap);
              if intent.enabled then LastEntry(e) else EntryBeforeLast(e)
    {
      cap := Inspect(REG_MAX_CHARGING_POWER);
      if cap == Some(0) {
        Install(intent.(enabled := false));
      }
    }

    /** Whatever the store held, charging stays on only for a session the hardware shows,
        and latches, limits and the Stop fallback come back as they were saved. */
    method Restore(record: Record) returns (seen: Option<Evidence>)
      requires Starting() && (record.Parsed? ==> record.intent.WellFormed())
      modifies `now, `intent, `saving, `journal, `mon, `persisted, `persistPending, `commands, `correcting
      ensures Starting()
      ensures intent.enabled ==> seen.Some? && seen.value.SessionActive()
      ensures record.Parsed? ==> intent == record.intent.(enabled := intent.enabled)
                                 && (intent.enabled ==> record.intent.enabled && intent.power.Some?)
      ensures !record.Parsed? ==> intent == INITIAL.(enabled := intent.enabled)
      ensures record.Malformed? ==> !intent.enabled
    {
      match record
      case Absent =>
        var ev := RestoreNothing();
        seen := Some(ev);
      case Malformed =>
        seen := None;
        Install(INITIAL);
      case Parsed(saved) =>
        var cap;
        seen, cap := RestoreSaved(saved);
    }

    ghost method NoteSafetyPending()
      requires Recorded() && mon.owed.Nothing? && !mon.ready
      modifies `journal, `mon
      ensures Recorded()
      ensures mon == old(mon).Plain().(books := old(mon).books.(safety := true))
    {
      Note(SafetyPending);
    }

    /** From here on the zero is forced until the safety configuration is confirmed. */
    method RequireSafety()
      requires Starting()
      modifies `protect, `journal, `mon
      ensures Starting() && SafetyUnconfirmed in protect
    {
      protect := protect + {SafetyUnconfirmed};
      NoteSafetyPending();
    }

    method SetUpSafety()
      requires Starting()
      modifies `now, `intent, `saving, `journal, `mon, `persisted, `persistPending, `commands, `correcting, `lastRefusal
      modifies `validity, `nextSafetyTry, `protect
      ensures Starting() && intent == old(intent)
      ensures mon.begun != [] && mon.begun[|mon.begun| - 1] == Setup
    {
      RequireSafety();
      Begin(Setup);
      ConfigureSafety(now + 2.0 * timeout);
      End();
    }

    /** What the device can deliver, if it says so credibly. */
    method ReadMaxPower() returns (ghost reported: Option<nat>)
      requires Starting() && maxPower.None?
      modifies `now, `intent, `saving, `journal, `mon, `persisted, `persistPending, `commands, `correcting, `maxPower
      ensures Starting() && intent == old(intent)
      ensures LastEntry(ReadBack(REG_MAX_POWER, reported)) && mon.begun == old(mon).begun
      ensures maxPower == if reported.Some? && 14 <= reported.value <= 1000 then reported else None
    {
      var power := Inspect(REG_MAX_POWER);
      reported := power;
      if power.Some? && MIN_ENABLE_POWER_RAW <= power.value <= MAX_POWER_RAW {
        maxPower := power;
      }
    }

    /** Adopting a running session with no saved limits keeps the cap it already runs
        under, if that is credible, and otherwise writes zero. */
    method AdoptCap() returns (ghost cap: Option<nat>)
      requires Starting() && (maxPower.Some? ==> maxPower.value <= MAX_POWER_RAW)
      modifies `now, `intent, `saving, `journal, `mon, `persisted, `persistPending, `commands, `correcting
      ensures Starting() && EntryBeforeLast(ReadBack(REG_MAX_CHARGING_POWER, cap)) && mon.begun == old(mon).begun
      ensures intent == old(intent).(power := intent.power) && intent.power.Some?
      ensures intent.power ==
                if maxPower.Some? && cap.Some? && 14 <= cap.value <= maxPower.value then cap else Some(0)
    {
      var live := Inspect(REG_MAX_CHARGING_POWER);
      cap := live;
      var credible := maxPower.Some? && live.Some? && MIN_ENABLE_POWER_RAW <= live.value <= maxPower.value;
      Install(intent.(power := if credible then live else Some(0)));
    }

    /** A limit above what the device can deliver pauses; it is never clamped. */
    method LimitToDevice()
      requires Starting()
      modifies `intent, `journal, `mon
      ensures Starting() && mon.begun == old(mon).begun
      ensures maxPower.Some? && intent.power.Some? ==> intent.power.value <= maxPower.value
      ensures intent == old(intent)
              || (intent == old(intent).(enabled := false, power := None)
                  && maxPower.Some? && old(intent).power.Some? && old(intent).power.value > maxPower.value)
    {
      if maxPower.Some? && intent.power.Some? && intent.power.value > maxPower.value {
        Install(intent.(enabled := false, power := None));
      }
    }

    /** Everything up to the moment commands are accepted. */
    method Recover(record: Record, configure: bool) returns (seen: Option<Evidence>)
      requires Starting() && (record.Parsed? ==> record.intent.WellFormed()) && maxPower.None?
      modifies `now, `intent, `saving, `journal, `mon, `persisted, `persistPending, `commands, `correcting, `lastRefusal
      modifies `validity, `nextSafetyTry, `protect, `maxPower
      ensures Starting()
      ensures intent.enabled ==> seen.Some? && seen.value.SessionActive() && intent.power.Some?
      ensures record.Parsed? ==>
                && intent == record.intent.(enabled := intent.enabled, power := intent.power)
                && (intent.enabled ==> record.intent.enabled && intent.power == record.intent.power)
      ensures record.Malformed? ==> !intent.enabled
      ensures maxPower.Some? && intent.power.Some? ==> intent.power.value <= maxPower.value
      ensures configure ==> mon.begun != [] && mon.begun[|mon.begun| - 1] == Setup
    {
      seen := RestoreSafely(record, configure);
      FitLimits(record.Absent?);
    }

    method RestoreSafely(record: Record, configure: bool) returns (seen: Option<Evidence>)
      requires Starting() && (record.Parsed? ==> record.intent.WellFormed())
      modifies `now, `intent, `saving, `journal, `mon, `persisted, `persistPending, `commands, `correcting, `lastRefusal
      modifies `validity, `nextSafetyTry, `protect
      ensures Starting()
      ensures intent.enabled ==> seen.Some? && seen.value.SessionActive()
      ensures record.Parsed? ==> intent == record.intent.(enabled := intent.enabled)
                                 && (intent.enabled ==> record.intent.enabled && intent.power.Some?)
      ensures !record.Parsed? ==> intent == INITIAL.(enabled := intent.enabled)
      ensures record.Malformed? ==> !intent.enabled
      ensures configure ==> mon.begun != [] && mon.begun[|mon.begun| - 1] == Setup
    {
      seen := Restore(record);
      EnsureSafety(configure);
    }

    method EnsureSafety(configure: bool)
      requires Starting()
      modifies `now, `intent, `saving, `journal, `mon, `persisted, `persistPending, `commands, `correcting, `lastRefusal
      modifies `validity, `nextSafetyTry, `protect
      ensures Starting() && intent == old(intent)
      ensures configure ==> mon.begun != [] && mon.begun[|mon.begun| - 1] == Setup
    {
      if configure {
        SetUpSafety();
      }
    }

    /** The device's maximum, and the limits that go with it. */
    method FitLimits(first: bool)
      requires Starting() && maxPower.None?
      modifies `now, `intent, `saving, `journal, `mon, `persisted, `persistPending, `commands, `correcting, `maxPower
      ensures Starting()
      ensures intent == old(intent).(enabled := intent.enabled, power := intent.power)
      ensures intent.enabled ==> old(intent).enabled && (first ==> intent.power.Some?)
      ensures intent.enabled && !first ==> intent.power == old(intent).power
      ensures maxPower.Some? && intent.power.Some? ==> intent.power.value <= maxPower.value
      ensures mon.begun == old(mon).begun
    {
      var _ := ReadMaxPower();
      if first && intent.enabled {
        var _ := AdoptCap();
      }
      LimitToDevice();
    }

    ghost method NoteReady()
      requires Recorded() && mon.owed.Nothing? && !mon.ready
      modifies `journal, `mon
      ensures Recorded()
      ensures mon == old(mon).Plain().(books := old(mon).books.(ready := true))
    {
      Note(Ready);
    }

    ghost method NoteSettled(a: Intent)
      requires Recorded() && mon.owed.Nothing? && a == mon.intent.Next() && a.WellFormed()
      modifies `journal, `mon
      ensures Recorded()
      ensures mon == old(mon).Plain().(intent := a)
    {
      NoteChange(Settled, a);
    }

    /** Commands are accepted from now on; the restored intent becomes a new revision. */
    method GetReady()
      requires Starting()
      modifies `initialized, `intent, `journal, `mon
      ensures Idle() && initialized
      ensures intent == old(intent).Next()
    {
      initialized := true;
      NoteReady();
      intent := intent.Next();
      NoteSettled(intent);
    }

    // ---- any run -------------------------------------------------------------------------------------

    /** Time passes, and commands come and go, with nothing holding the lock. */
    method Rest()
      requires Idle() && initialized
      modifies `now, `intent, `saving, `journal, `mon, `persisted, `persistPending, `commands, `correcting
      ensures Idle() && initialized
    {
      Await();
    }

    /** Some operation gets the lock, runs to its end and lets it go. */
    method Serve()
      requires Idle() && initialized
      modifies `now, `intent, `saving, `journal, `mon, `persisted, `persistPending, `saves
      modifies `commands, `correcting, `lastRefusal
      modifies `validity, `nextSafetyTry, `badSince, `badCount, `goodFirst, `protect, `holdSince
      modifies `startingSince, `lastObs, `awaitPlug, `spawned, `released, `unplugFirst
      modifies `authorized, `mismatchSince, `mismatchCount, `linkOkSince
      ensures Idle() && initialized
    {
      var op: Op, revision: Option<nat>, address: nat, value: nat := *, *, *, *;
      match op
      case Setup => Rest();
      case Apply => var _ := OpApply(revision);
      case Refresh => var _, _, _ := OpRefresh();
      case Poll => var _, _, _ := OpPoll();
      case Observe => var _, _ := OpObserve();
      case Register => var _, _ := SetRegister(address, value);
    }

    /** Any number of operations, one after the other. */
    method ServeSome(steps: nat)
      requires Idle() && initialized
      modifies this
      ensures Idle() && initialized
    {
      for n := 0 to steps
        invariant Idle() && initialized
      {
        Rest();
        Serve();
      }
    }

    /** The restored intent is saved and put on the wire.  Other operations are accepted
        already, and may get the lock first. */
    method Settle(before: nat, between: nat) returns (r: Flow)
      requires Starting()
      modifies this
      ensures Idle() && initialized
      ensures mon.begun != [] && mon.begun[|mon.begun| - 1] == Refresh
    {
      GetReady();
      ServeSome(before);
      Persist();
      ServeSome(between);
      r := FirstRefresh();
    }

    method FirstRefresh() returns (r: Flow)
      requires Idle() && initialized
      modifies this
      ensures Idle() && initialized
      ensures mon.begun == old(mon).begun + [Refresh]
    {
      var ok;
      ghost var seen;
      r, ok, seen := OpRefresh();
    }

    method Initialize(record: Record, configure: bool, before: nat, between: nat) returns (r: Flow)
      requires Starting() && (record.Parsed? ==> record.intent.WellFormed()) && maxPower.None?
      modifies this
      ensures Idle() && initialized
      ensures mon.begun != [] && mon.begun[|mon.begun| - 1] == Refresh
    {
      var seen := Recover(record, configure);
      r := Settle(before, between);
    }

    /** Whatever was saved, whatever the charger answers and whenever the commands arrive,
        every entry of the journal was permitted when it was made. */
    method Run(record: Record, configure: bool, before: nat, between: nat, steps: nat)
      requires Starting() && (record.Parsed? ==> record.intent.WellFormed()) && maxPower.None?
      modifies this
      ensures Idle() && Accepted(journal, grace)
    {
      var _ := Initialize(record, configure, before, between);
      ServeSome(steps);
      LedgerIsAccepted(journal, mon, grace);
    }
  }
}
