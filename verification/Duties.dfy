/**
  What an operation that was begun owes before it ends: the setpoints a refresh decided on,
  the zero of a withdrawn enable or of a pause, the latch for what could not be confirmed,
  the Stop for what still draws.
 */
module Duties {
  import opened Prelude
  import opened Evidence
  import opened Intents
  import opened Journal
  import opened JournalTheorems
  import opened Obligations
  import opened Reports
  import Telemetry
  import Unplug

  // ---- a refresh writes all it decided on ------------------------------------------

  lemma CourseStep(m: Mon, e: Entry)
    requires !e.Began?
    ensures Step(m, e).course.commands == if IsDecision(e) then m.commands else m.course.commands
    ensures Step(m, e).course.power ==
              match e
              case Decided(_) => m.Ahead()
              case Held(_) => None
              case Wrote(address, value) => m.course.Write(address, value).power
              case _ => m.course.power
    ensures Step(m, e).course.judged ==
              if IsDecision(e) then false
              else m.course.judged || e.AllReadBack? || e.Unmatched? || e.Ignored?
  {
  }

  lemma DecidedOnce(m: Mon, e: Entry)
    requires Permitted(m, e) && m.run.Some? && m.run.value.decided
    ensures !IsDecision(e)
  {
  }

  /** The refresh has decided at d, and has yet to write what its course says. */
  ghost predicate OnCourse(j: seq<Entry>, d: nat, n: nat, m: Mon, power: nat, commands: nat) {
    && d < n <= |j| && m.run.Some? && m.run.value.decided && m.course.commands == commands
    && (m.course.power == Some(power)
        || (m.course.power.None? && exists y :: d < y < n && j[y] == Wrote(REG_MAX_CHARGING_POWER, power)))
  }

  lemma StaysOnCourse(j: seq<Entry>, d: nat, n: nat, m: Mon, power: nat, commands: nat)
    requires 0 < n <= |j| && OnCourse(j, d, n - 1, m, power, commands)
    requires Permitted(m, j[n - 1]) && !j[n - 1].Began? && !j[n - 1].Ended?
    ensures OnCourse(j, d, n, Step(m, j[n - 1]), power, commands)
  {
    CourseStep(m, j[n - 1]);
    StepIsRecorded(m, j[n - 1]);
    DecidedOnce(m, j[n - 1]);
  }

  lemma StartsOnCourse(j: seq<Entry>, d: nat, m: Mon)
    requires d < |j| && j[d].Decided? && m.run.Some? && m.Ahead().Some?
    ensures OnCourse(j, d, d + 1, Step(m, j[d]), m.Ahead().value, m.commands)
  {
  }

  ghost predicate CourseAt(j: seq<Entry>, d: nat, n: nat, power: nat, commands: nat, grace: real) {
    n <= |j| && OnCourse(j, d, n, At(j, n, grace), power, commands)
  }

  lemma CourseGoesOn(j: seq<Entry>, d: nat, n: nat, power: nat, commands: nat, grace: real)
    requires Accepted(j, grace) && d < n - 1 < |j| && CourseAt(j, d, n - 1, power, commands, grace)
    requires !j[n - 1].Began? && !j[n - 1].Ended?
    ensures CourseAt(j, d, n, power, commands, grace)
  {
    assert PermittedAt(j, n - 1, grace);
    StaysOnCourse(j, d, n, At(j, n - 1, grace), power, commands);
  }

  lemma CourseBegins(j: seq<Entry>, k: nat, d: nat, power: nat, commands: nat, grace: real)
    requires k < d < |j| && SameOperation(j, k, d) && j[d].Decided?
    requires At(j, d, grace).Ahead() == Some(power) && At(j, d, grace).commands == commands
    ensures CourseAt(j, d, d + 1, power, commands, grace)
  {
    RunBegan(j, k, d, grace);
    StartsOnCourse(j, d, At(j, d, grace));
  }

  lemma {:induction false} CourseMeans(j: seq<Entry>, k: nat, d: nat, n: nat, power: nat, commands: nat, grace: real)
    requires Accepted(j, grace) && k < d < n <= |j| && SameOperation(j, k, n)
    requires CourseAt(j, d, d + 1, power, commands, grace)
    ensures CourseAt(j, d, n, power, commands, grace)
    decreases n
  {
    if d < n - 1 {
      CourseMeans(j, k, d, n - 1, power, commands, grace);
      CourseGoesOn(j, d, n, power, commands, grace);
    }
  }

  lemma EndsThrough(m: Mon)
    requires Permitted(m, Ended) && m.In(Refresh)
    ensures m.course.power.Some? ==> m.commands > m.course.commands
  {
  }

  lemma AheadOf(m: Mon, ev: Evidence)
    requires m.Sees(ev) && ev.SessionActive() && m.Wire().Positive()
    ensures m.Ahead() == m.Wire().power
  {
  }

  /** A refresh that decides on a positive value, on a frame showing the session, writes the
      current at once and then the power, before it ends, whatever it reads back in between;
      only a command can keep it from that. */
  lemma PositiveRefreshWritesAll(j: seq<Entry>, k: nat, f: nat, d: nat, e: nat, grace: real) returns (y: nat)
    requires Accepted(j, grace) && k < d < e < |j| && SameOperation(j, k, e)
    requires j[k] == Began(Refresh) && j[d].Decided? && j[e].Ended? && NoCommand(j, d, e)
    requires RestsOn(j, k, f, d) && j[f].ev.SessionActive() && WireAt(j, d, grace).Positive()
    ensures d < y < e && j[y] == Wrote(REG_MAX_CHARGING_POWER, WireAt(j, d, grace).power.value)
    ensures WireAt(j, d, grace).current.Some? ==>
              d + 1 < y && j[d + 1] == Wrote(REG_MAX_CHARGING_CURRENT, WireAt(j, d, grace).current.value)
  {
    DecidedOn(j, k, f, d, grace);
    y := PowerIsWritten(j, k, d, e, grace);
    PositiveDecisionIsWritten(j, k, f, d, grace);
  }

  lemma DecidedOn(j: seq<Entry>, k: nat, f: nat, d: nat, grace: real)
    requires Accepted(j, grace) && d < |j| && SameOperation(j, k, d) && RestsOn(j, k, f, d)
    requires j[f].ev.SessionActive() && WireAt(j, d, grace).Positive()
    ensures At(j, d, grace).Ahead() == WireAt(j, d, grace).power && WireAt(j, d, grace).power.Some?
  {
    WireIsHistory(j, d, grace);
    TheFrame(j, k, f, d, grace);
    AheadOf(At(j, d, grace), j[f].ev);
  }

  lemma PowerIsWritten(j: seq<Entry>, k: nat, d: nat, e: nat, grace: real) returns (y: nat)
    requires Accepted(j, grace) && k < d < e < |j| && SameOperation(j, k, e)
    requires j[k] == Began(Refresh) && j[d].Decided? && j[e].Ended? && NoCommand(j, d, e)
    requires At(j, d, grace).Ahead().Some?
    ensures d < y < e && j[y] == Wrote(REG_MAX_CHARGING_POWER, At(j, d, grace).Ahead().value)
  {
    var power, commands := At(j, d, grace).Ahead().value, At(j, d, grace).commands;
    CourseBegins(j, k, d, power, commands, grace);
    CourseMeans(j, k, d, e, power, commands, grace);
    RunBegan(j, k, e, grace);
    assert PermittedAt(j, e, grace);
    EndsThrough(At(j, e, grace));
    CountsStay(j, d, e, grace);
    y :| d < y < e && j[y] == Wrote(REG_MAX_CHARGING_POWER, At(j, d, grace).Ahead().value);
  }

  lemma CurrentAlone(m: Mon, at: real)
    requires m.Wire().power.None? && m.Wire().current.Some?
    ensures Step(m, Decided(at)).owed == Owed.Write(REG_MAX_CHARGING_CURRENT, m.Wire().current.value)
  {
  }

  /** A refresh with a current to write and no power writes the current at once. */
  lemma CurrentDecisionIsWritten(j: seq<Entry>, d: nat, grace: real)
    requires Accepted(j, grace) && d + 1 < |j| && j[d].Decided?
    requires WireAt(j, d, grace).power.None? && WireAt(j, d, grace).current.Some?
    ensures j[d + 1] == Wrote(REG_MAX_CHARGING_CURRENT, WireAt(j, d, grace).current.value)
  {
    WireIsHistory(j, d, grace);
    CurrentAlone(At(j, d, grace), j[d].at);
    assert PermittedAt(j, d + 1, grace);
    WriteIsOwed(At(j, d + 1, grace), j[d + 1]);
  }

  // ---- what is owed at once --------------------------------------------------------

  lemma LatchFollows(m: Mon, e: Entry)
    requires m.owed.LinkLatch? && Permitted(m, e)
    ensures e == Changed(Latch, m.intent.Next().(latched := true, comms := true))
    ensures !e.intent.stop ==> Step(m, e).owed == Owed.Write(REG_MAX_CHARGING_POWER, 0)
  {
  }

  lemma OwedAfterFailure(m: Mon, e: Entry)
    requires e.Unconfirmed? || e.Ignored?
    ensures Step(m, e).owed == m.LinkOwed() && Step(m, e).intent == m.intent
  {
  }

  /** A write that was never confirmed, or a cap that the charger ignores, is followed at once
      by a latch, if there is none yet, and by a zero, unless a Stop silences the setpoints. */
  ghost predicate LatchedNext(j: seq<Entry>, u: nat)
    requires u + 2 < |j|
  {
    var i := IntentAt(j, u);
    if i.latched then i.stop || j[u + 1] == Wrote(REG_MAX_CHARGING_POWER, 0)
    else && j[u + 1] == Changed(Latch, i.Next().(latched := true, comms := true))
         && (i.stop || j[u + 2] == Wrote(REG_MAX_CHARGING_POWER, 0))
  }

  lemma FailureIsLatched(j: seq<Entry>, u: nat, grace: real)
    requires Accepted(j, grace) && u + 2 < |j| && (j[u].Unconfirmed? || j[u].Ignored?)
    ensures LatchedNext(j, u)
  {
    IntentIsHistory(j, u, grace);
    OwedAfterFailure(At(j, u, grace), j[u]);
    assert PermittedAt(j, u + 1, grace);
    if !IntentAt(j, u).latched {
      LatchFollows(At(j, u + 1, grace), j[u + 1]);
      assert PermittedAt(j, u + 2, grace);
      if !IntentAt(j, u).stop {
        WriteIsOwed(At(j, u + 2, grace), j[u + 2]);
      }
    } else if !IntentAt(j, u).stop {
      WriteIsOwed(At(j, u + 1, grace), j[u + 1]);
    }
  }

  lemma LatchNeedsReason(m: Mon, e: Entry)
    requires Permitted(m, e) && e.Changed? && e.cause == Latch
    ensures if e.intent.comms then m.owed.LinkLatch? else m.owed.FaultLatch?
  {
  }

  lemma OwedLatchComesFrom(m: Mon, e: Entry)
    ensures Step(m, e).owed.FaultLatch? ==> e.Frame? && e.ev.Faulted()
    ensures Step(m, e).owed.LinkLatch? ==> e.Unconfirmed? || e.Ignored?
  {
  }

  /** A latch is never set but right after its cause: a fault frame for a permanent one, a
      failed confirmation for one that may be released. */
  lemma LatchFollowsItsCause(j: seq<Entry>, i: nat, grace: real)
    requires Accepted(j, grace) && i < |j| && j[i].Changed? && j[i].cause == Latch
    ensures i > 0
    ensures if j[i].intent.comms then j[i - 1].Unconfirmed? || j[i - 1].Ignored?
            else j[i - 1].Frame? && j[i - 1].ev.Faulted()
  {
    assert PermittedAt(j, i, grace);
    LatchNeedsReason(At(j, i, grace), j[i]);
    OwedLatchComesFrom(At(j, i - 1, grace), j[i - 1]);
  }

  lemma OwedAfterPeek(m: Mon, ev: Evidence)
    requires m.run.Some? && ev.Drawing() && m.intent.ExplicitZero()
    ensures Step(m, Peeked(ev)).owed == Owed.Write(REG_CHARGING_CONTROL, STOP_COMMAND)
  {
  }

  /** An operation that looks and sees the charger drawing against the intent sends Stop. */
  lemma DrawingIsStopped(j: seq<Entry>, k: nat, p: nat, grace: real)
    requires Accepted(j, grace) && p + 1 < |j| && SameOperation(j, k, p)
    requires j[p].Peeked? && j[p].ev.Drawing() && IntentAt(j, p).ExplicitZero()
    ensures j[p + 1] == Wrote(REG_CHARGING_CONTROL, STOP_COMMAND)
  {
    IntentIsHistory(j, p, grace);
    RunBegan(j, k, p, grace);
    OwedAfterPeek(At(j, p, grace), j[p].ev);
    assert PermittedAt(j, p + 1, grace);
    WriteIsOwed(At(j, p + 1, grace), j[p + 1]);
  }

  // ---- a zero that is due reaches the charger ----------------------------------------

  /** The first write after x is the zero at w. */
  ghost predicate ZeroNext(j: seq<Entry>, x: nat, w: nat, n: nat) {
    && x < w < n <= |j| && IsZero(j[w])
    && forall y :: x < y < w ==> !j[y].Wrote?
  }

  /** It was read back, ... */
  ghost predicate ReadBackAfter(j: seq<Entry>, w: nat, n: nat) {
    n <= |j| && exists r :: w < r < n && IsZeroBack(j[r])
  }

  /** ... or given up, ... */
  ghost predicate GivenUp(j: seq<Entry>, w: nat, u: nat, n: nat) {
    w < u < n <= |j| && j[u].Unconfirmed?
  }

  predicate IsLook(e: Entry) {
    e.Peeked? || e.Spared?
  }

  /** ... and then the charger was looked at. */
  ghost predicate LookedAt(j: seq<Entry>, w: nat, n: nat) {
    n <= |j| && exists u: nat, p: nat :: GivenUp(j, w, u, p) && p < n && IsLook(j[p])
  }

  ghost predicate Settles(j: seq<Entry>, w: nat, n: nat) {
    ReadBackAfter(j, w, n) || LookedAt(j, w, n)
  }

  /** How far the zero owed since x is. */
  ghost predicate Phase(j: seq<Entry>, x: nat, n: nat, d: Debt) {
    && x < n <= |j|
    && match d
       case ZeroDue => forall y :: x < y < n ==> !j[y].Wrote?
       case ProofDue => exists w: nat :: ZeroNext(j, x, w, n)
       case LookDue => exists w: nat, u: nat :: ZeroNext(j, x, w, n) && GivenUp(j, w, u, n)
       case Clear => Paid(j, x, n)
  }

  ghost predicate Paid(j: seq<Entry>, x: nat, n: nat) {
    exists w: nat :: ZeroNext(j, x, w, n) && Settles(j, w, n)
  }

  lemma DebtStep(m: Mon, e: Entry)
    requires Permitted(m, e) && m.run.Some? && !e.Began? && !e.Ended?
    ensures Step(m, e).debt ==
              match e
              case Changed(cause, _) => if cause == Revoked then ZeroDue else m.debt
              case Wrote(address, value) => m.debt.Write(address, value)
              case ReadBack(register, result) => m.debt.Read(register, result)
              case Unconfirmed => m.debt.GiveUp()
              case Peeked(_) => m.debt.Look()
              case Spared => m.debt.Look()
              case _ => m.debt
    ensures e.Changed? && e.cause == Revoked ==> m.debt.Clear?
    ensures e.Wrote? && m.debt.ZeroDue? ==> IsZero(e)
  {
  }

  lemma PaidStays(j: seq<Entry>, x: nat, n: nat)
    requires 0 < n <= |j| && Paid(j, x, n - 1)
    ensures Paid(j, x, n)
  {
    var w: nat :| ZeroNext(j, x, w, n - 1) && Settles(j, w, n - 1);
    assert ZeroNext(j, x, w, n);
    if ReadBackAfter(j, w, n - 1) {
      assert ReadBackAfter(j, w, n);
    } else {
      assert LookedAt(j, w, n);
    }
  }

  lemma PhaseMoves(j: seq<Entry>, x: nat, n: nat, d: Debt)
    requires 0 < n <= |j| && Phase(j, x, n - 1, d) && !d.Clear?
    requires j[n - 1].Wrote? && d.ZeroDue? ==> IsZero(j[n - 1])
    ensures Phase(j, x, n,
              match j[n - 1]
              case Wrote(address, value) => d.Write(address, value)
              case ReadBack(register, result) => d.Read(register, result)
              case Unconfirmed => d.GiveUp()
              case Peeked(_) => d.Look()
              case Spared => d.Look()
              case _ => d)
  {
    match d
    case ZeroDue =>
      if j[n - 1].Wrote? {
        assert ZeroNext(j, x, n - 1, n);
      }
    case ProofDue =>
      var w: nat :| ZeroNext(j, x, w, n - 1);
      assert ZeroNext(j, x, w, n);
      if IsZeroBack(j[n - 1]) {
        assert ReadBackAfter(j, w, n);
      } else if j[n - 1].Unconfirmed? {
        assert GivenUp(j, w, n - 1, n);
      }
    case LookDue =>
      var w: nat, u: nat :| ZeroNext(j, x, w, n - 1) && GivenUp(j, w, u, n - 1);
      assert ZeroNext(j, x, w, n) && GivenUp(j, w, u, n);
      if IsLook(j[n - 1]) {
        assert GivenUp(j, w, u, n - 1) && LookedAt(j, w, n);
      }
  }

  /** Entry x made a zero due in the operation begun at k. */
  ghost predicate MakesDue(j: seq<Entry>, k: nat, x: nat, grace: real) {
    && k <= x < |j|
    && if x == k then j[k] == Began(Apply) && WireAt(j, k, grace) == ZERO else IsRevocation(j[x])
  }

  lemma DueBegins(j: seq<Entry>, k: nat, x: nat, grace: real)
    requires Accepted(j, grace) && MakesDue(j, k, x, grace)
    ensures At(j, x + 1, grace).debt.ZeroDue?
  {
    WireIsHistory(j, x, grace);
    DueFrom(At(j, x, grace), j[x]);
  }

  lemma DueFrom(m: Mon, e: Entry)
    requires (e == Began(Apply) && m.Wire() == ZERO) || IsRevocation(e)
    ensures Step(m, e).debt.ZeroDue?
  {
  }

  ghost predicate Follows(j: seq<Entry>, x: nat, n: nat, m: Mon) {
    x < n <= |j| && (Paid(j, x, n) || Phase(j, x, n, m.debt))
  }

  lemma DebtGoesOn(j: seq<Entry>, x: nat, n: nat, m: Mon)
    requires 0 < n <= |j| && Follows(j, x, n - 1, m)
    requires Permitted(m, j[n - 1]) && m.run.Some? && !j[n - 1].Began? && !j[n - 1].Ended?
    ensures Follows(j, x, n, Step(m, j[n - 1]))
  {
    if Paid(j, x, n - 1) {
      PaidStays(j, x, n);
    } else {
      DebtStep(m, j[n - 1]);
      PhaseMoves(j, x, n, m.debt);
    }
  }

  lemma {:induction false} DebtMeans(j: seq<Entry>, k: nat, x: nat, n: nat, grace: real)
    requires Accepted(j, grace) && x < n <= |j| && SameOperation(j, k, n) && MakesDue(j, k, x, grace)
    ensures Follows(j, x, n, At(j, n, grace))
    decreases n
  {
    if x == n - 1 {
      DueBegins(j, k, x, grace);
    } else {
      DebtMeans(j, k, x, n - 1, grace);
      assert PermittedAt(j, n - 1, grace);
      RunBegan(j, k, n - 1, grace);
      DebtGoesOn(j, x, n, At(j, n - 1, grace));
    }
  }

  lemma PaidAtTheEnd(m: Mon, e: Entry)
    requires Permitted(m, e) && (e.Ended? || e.Reported?) && m.run.Some?
    ensures m.run.value.revoked ==> m.debt.Clear?
    ensures e.Reported? ==> !m.debt.ZeroDue? && !m.debt.LookDue? && (e.outcome != Superseded ==> m.debt.Clear?)
  {
  }

  lemma {:induction false} RevokedStays(j: seq<Entry>, k: nat, x: nat, n: nat, grace: real)
    requires k < x < n <= |j| && SameOperation(j, k, n) && IsRevocation(j[x])
    ensures At(j, n, grace).run.Some? && At(j, n, grace).run.value.revoked
    decreases n
  {
    RunBegan(j, k, n - 1, grace);
    StepIsRecorded(At(j, n - 1, grace), j[n - 1]);
    if x < n - 1 {
      RevokedStays(j, k, x, n - 1, grace);
    }
  }

  /** An operation that withdraws the enable, and then reports or ends, puts a zero on the
      wire before it writes anything else.  That zero is read back; or it is given up, which
      latches (`FailureIsLatched`), and the charger is looked at, which stops it if it still
      draws (`DrawingIsStopped`), unless a Stop is in force already. */
  lemma WithdrawalIsPaid(j: seq<Entry>, k: nat, x: nat, e: nat, grace: real)
    requires Accepted(j, grace) && k < x < e < |j| && SameOperation(j, k, e)
    requires IsRevocation(j[x]) && (j[e].Ended? || j[e].Reported?)
    ensures Paid(j, x, e)
  {
    RevokedStays(j, k, x, e, grace);
    assert PermittedAt(j, e, grace);
    PaidAtTheEnd(At(j, e, grace), j[e]);
    DebtMeans(j, k, x, e, grace);
  }

  /** A look is spared only while a Stop is in force. */
  lemma SparedNeedsStop(j: seq<Entry>, p: nat, grace: real)
    requires Accepted(j, grace) && p < |j| && j[p].Spared?
    ensures IntentAt(j, p).stop
  {
    IntentIsHistory(j, p, grace);
    assert PermittedAt(j, p, grace);
    SparedStep(At(j, p, grace));
  }

  lemma SparedStep(m: Mon)
    requires Permitted(m, Spared)
    ensures m.intent.stop
  {
  }

  // ---- an apply does what it was started for -----------------------------------------

  lemma OverrunReport(m: Mon)
    requires Permitted(m, Reported(Superseded)) && m.run.Some?
    ensures m.run.value.asked != SILENT ==> m.commands > m.run.value.commands
  {
  }

  /** An apply reports that it was superseded only if a command was issued meanwhile. */
  lemma SupersededByCommand(j: seq<Entry>, k: nat, i: nat, grace: real)
    requires Accepted(j, grace) && i < |j| && SameOperation(j, k, i)
    requires j[i] == Reported(Superseded) && WireAt(j, k, grace) != SILENT
    ensures !NoCommand(j, k, i)
  {
    WireIsHistory(j, k, grace);
    RunBegan(j, k, i, grace);
    CountsStay(j, k, i, grace);
    assert PermittedAt(j, i, grace);
    OverrunReport(At(j, i, grace));
  }

  /** An apply that finds zero to be what it should put on the wire writes it before anything
      else, and reports only when the zero was read back, or given up and followed up; only a
      command can cut that short, and not before the zero went out. */
  lemma ZeroApplyIsPaid(j: seq<Entry>, k: nat, i: nat, grace: real)
    requires Accepted(j, grace) && k < i < |j| && SameOperation(j, k, i)
    requires j[k] == Began(Apply) && j[i].Reported? && WireAt(j, k, grace) == ZERO
    ensures exists w: nat :: ZeroNext(j, k, w, i)
    ensures j[i].outcome == Superseded || Paid(j, k, i)
  {
    RunBegan(j, k, i, grace);
    assert PermittedAt(j, i, grace);
    PaidAtTheEnd(At(j, i, grace), j[i]);
    DebtMeans(j, k, k, i, grace);
    if Paid(j, k, i) {
      var w: nat :| ZeroNext(j, k, w, i) && Settles(j, w, i);
    }
  }

  // ---- giving up -------------------------------------------------------------------

  lemma FailedStep(m: Mon, e: Entry)
    requires m.run.Some? && !e.Began? && !e.Ended?
    ensures Step(m, e).work.failed == (m.work.failed || e.Unconfirmed?)
    ensures Step(m, e).halt.sent == (m.halt.sent || IsStop(e))
  {
  }

  lemma FreshWork(m: Mon, op: Op)
    ensures var n := Step(m, Began(op)); !n.work.failed && n.halt == NO_STOP && !n.run.value.revoked
  {
  }

  /** Why an apply may fail, read off its entries. */
  ghost predicate Tried(j: seq<Entry>, k: nat, n: nat, m: Mon) {
    && n <= |j|
    && (m.work.failed ==> exists u :: k < u < n && j[u].Unconfirmed?)
    && (m.halt.sent ==> exists s :: k < s < n && IsStop(j[s]))
  }

  lemma {:induction false} FailureIsHistory(j: seq<Entry>, k: nat, n: nat, grace: real)
    requires n <= |j| && SameOperation(j, k, n)
    ensures Tried(j, k, n, At(j, n, grace))
    decreases n
  {
    if n == k + 1 {
      FreshWork(At(j, k, grace), j[k].op);
    } else {
      FailureIsHistory(j, k, n - 1, grace);
      RunBegan(j, k, n - 1, grace);
      FailedStep(At(j, n - 1, grace), j[n - 1]);
    }
  }

  lemma FailReport(m: Mon)
    requires Permitted(m, Reported(Failed)) && m.run.Some?
    ensures var r := m.run.value;
            r.asked.Positive() ==> r.revoked || m.work.failed
  {
  }

  /** A start that failed was withdrawn (`WithdrawalIsPaid`), or one of its writes was given
      up (`FailureIsLatched`). */
  lemma FailedStartIsWithdrawn(j: seq<Entry>, k: nat, i: nat, grace: real)
    requires Accepted(j, grace) && i < |j| && SameOperation(j, k, i)
    requires j[i] == Reported(Failed) && WireAt(j, k, grace).Positive()
    ensures exists x :: k < x < i && (IsRevocation(j[x]) || j[x].Unconfirmed?)
  {
    WireIsHistory(j, k, grace);
    RunBegan(j, k, i, grace);
    StepsHappened(j, k, i, grace);
    FailureIsHistory(j, k, i, grace);
    assert PermittedAt(j, i, grace);
    FailReport(At(j, i, grace));
  }

  lemma PauseBegan(j: seq<Entry>, k: nat, i: nat, grace: real)
    requires Accepted(j, grace) && i < |j| && SameOperation(j, k, i) && NoCommand(j, k, i)
    requires WireAt(j, k, grace) == ZERO && IntentAt(j, k).ExplicitZero()
    ensures var m := At(j, i, grace);
            m.run.Some? && m.run.value.pause && m.run.value.asked == ZERO && m.commands == m.run.value.commands
  {
    WireIsHistory(j, k, grace);
    IntentIsHistory(j, k, grace);
    RunBegan(j, k, i, grace);
    CountsStay(j, k, i, grace);
  }

  lemma PauseReported(m: Mon, outcome: Outcome)
    requires Permitted(m, Reported(outcome)) && m.run.Some?
    requires m.run.value.pause && m.run.value.asked == ZERO && m.commands == m.run.value.commands
    ensures outcome == Confirmed || (outcome == Failed && m.intent.latched && (m.work.failed || m.halt.sent))
  {
  }

  /** A pause that no command interrupts either took effect (`ConfirmedPause`), or failed:
      then it is latched, after its zero was given up or Stop was tried. */
  lemma PauseIsCarriedOut(j: seq<Entry>, k: nat, i: nat, grace: real)
    requires Accepted(j, grace) && i < |j| && SameOperation(j, k, i)
    requires j[k] == Began(Apply) && j[i].Reported? && NoCommand(j, k, i)
    requires WireAt(j, k, grace) == ZERO && IntentAt(j, k).ExplicitZero()
    ensures Paid(j, k, i)
    ensures j[i].outcome == Confirmed
            || (&& j[i].outcome == Failed && IntentAt(j, i).latched
                && exists x :: k < x < i && (j[x].Unconfirmed? || IsStop(j[x])))
  {
    PauseBegan(j, k, i, grace);
    assert PermittedAt(j, i, grace);
    PauseReported(At(j, i, grace), j[i].outcome);
    ZeroApplyIsPaid(j, k, i, grace);
    if j[i].outcome == Failed {
      IntentIsHistory(j, i, grace);
      FailureIsHistory(j, k, i, grace);
    }
  }

  // ---- Stop ------------------------------------------------------------------------

  /** Stop was written at s, and from the frame a on every frame shows the charger stopped. */
  ghost predicate StoppedSince(j: seq<Entry>, k: nat, s: nat, a: nat, n: nat) {
    k < s < a && a < n <= |j| && IsStop(j[s]) && CalmSince(j, a, n, true)
  }

  ghost predicate HaltMeans(j: seq<Entry>, k: nat, n: nat, h: Halt) {
    && n <= |j|
    && (h.sent ==> exists s :: k < s < n && IsStop(j[s]))
    && (h.since.Some? ==> exists s: nat, a: nat :: StoppedSince(j, k, s, a, n) && h.since == Some(j[a].ev.at))
    && (h.settled ==> h.since.Some? && StillSince(j, n, h.since.value))
  }

  /** The last frame came a second or more after `since`. */
  ghost predicate StillSince(j: seq<Entry>, n: nat, since: real) {
    exists b: nat :: LastFrame(j, b, n) && j[b].ev.at - since >= OBSERVATION_GAP
  }

  lemma HaltStep(m: Mon, e: Entry)
    ensures Step(m, e).halt ==
              match e
              case Began(_) => NO_STOP
              case Frame(ev) => m.halt.See(ev)
              case Wrote(address, _) => m.halt.Write(address)
              case _ => m.halt
  {
  }

  lemma HaltStays(j: seq<Entry>, k: nat, n: nat, h: Halt)
    requires 0 < n <= |j| && HaltMeans(j, k, n - 1, h) && !j[n - 1].Frame?
    ensures HaltMeans(j, k, n, h)
  {
    if h.sent {
      var s :| k < s < n - 1 && IsStop(j[s]);
    }
    if h.since.Some? {
      var s: nat, a: nat :| StoppedSince(j, k, s, a, n - 1) && h.since == Some(j[a].ev.at);
      assert StoppedSince(j, k, s, a, n);
    }
    if h.settled {
      var b: nat :| LastFrame(j, b, n - 1) && j[b].ev.at - h.since.value >= OBSERVATION_GAP;
      assert LastFrame(j, b, n);
    }
  }

  lemma HaltSees(j: seq<Entry>, k: nat, n: nat, h: Halt)
    requires 0 < n <= |j| && HaltMeans(j, k, n - 1, h) && j[n - 1].Frame?
    ensures HaltMeans(j, k, n, h.See(j[n - 1].ev))
  {
    if h.sent {
      var s: nat :| k < s < n - 1 && IsStop(j[s]);
      if j[n - 1].ev.StoppedQuiet() {
        if h.since.None? {
          assert StoppedSince(j, k, s, n - 1, n);
        } else {
          var t: nat, a: nat :| StoppedSince(j, k, t, a, n - 1) && h.since == Some(j[a].ev.at);
          assert StoppedSince(j, k, t, a, n);
          assert LastFrame(j, n - 1, n);
        }
      }
    }
  }

  lemma {:induction false} HaltIsHistory(j: seq<Entry>, k: nat, n: nat, grace: real)
    requires n <= |j| && SameOperation(j, k, n)
    ensures HaltMeans(j, k, n, At(j, n, grace).halt)
    decreases n
  {
    HaltStep(At(j, n - 1, grace), j[n - 1]);
    if k < n - 1 {
      HaltIsHistory(j, k, n - 1, grace);
      var h := At(j, n - 1, grace).halt;
      if j[n - 1].Frame? {
        HaltSees(j, k, n, h);
      } else {
        HaltStays(j, k, n, h);
      }
    }
  }

  lemma StopIsProven(m: Mon, e: Entry)
    requires Permitted(m, e) && e.Changed?
    ensures e.cause == StopConfirmed ==> m.halt.settled
    ensures e.cause == Unstoppable ==> m.halt.sent
  {
  }

  /** A Stop counts as confirmed only after it was sent, and after frames that all show the
      charger stopped, over a second or more and up to the latest one. */
  lemma StopIsSeen(j: seq<Entry>, k: nat, i: nat, grace: real) returns (s: nat, a: nat, b: nat)
    requires Accepted(j, grace) && i < |j| && SameOperation(j, k, i)
    requires j[i].Changed? && j[i].cause == StopConfirmed
    ensures StoppedSince(j, k, s, a, i) && LastFrame(j, b, i) && Spans(j, a, b)
  {
    assert PermittedAt(j, i, grace);
    StopIsProven(At(j, i, grace), j[i]);
    HaltIsHistory(j, k, i, grace);
    var h := At(j, i, grace).halt;
    s, a :| StoppedSince(j, k, s, a, i) && h.since == Some(j[a].ev.at);
    b :| LastFrame(j, b, i) && j[b].ev.at - h.since.value >= OBSERVATION_GAP;
  }

  lemma StopReason(m: Mon, e: Entry)
    requires Permitted(m, e) && IsStop(e) && !m.halt.sent
    ensures m.owed.Write? ==> m.owed.address == REG_CHARGING_CONTROL
    ensures !m.owed.Write? ==> m.In(Apply) && m.quiet.zeroBack && !m.quiet.settled
  {
  }

  lemma OwedStopComesFrom(m: Mon, e: Entry)
    requires Step(m, e).owed.Write? && Step(m, e).owed.address == REG_CHARGING_CONTROL
    requires Permitted(m, e)
    ensures e.Peeked? && e.ev.Drawing()
  {
  }

  /** The first Stop of an operation comes right after a look at a drawing charger, or in an
      apply whose zero was read back. */
  lemma FirstStopHasReason(j: seq<Entry>, k: nat, s: nat, grace: real)
    requires Accepted(j, grace) && s < |j| && SameOperation(j, k, s) && IsStop(j[s])
    requires forall x :: k < x < s ==> !IsStop(j[x])
    ensures || (j[s - 1].Peeked? && j[s - 1].ev.Drawing())
            || (j[k].op == Apply && exists w: nat, r: nat :: ZeroHeld(j, k, w, r, s))
  {
    FailureIsHistory(j, k, s, grace);
    assert PermittedAt(j, s, grace);
    var m := At(j, s, grace);
    StopReason(m, j[s]);
    if m.owed.Write? {
      assert PermittedAt(j, s - 1, grace);
      OwedStopComesFrom(At(j, s - 1, grace), j[s - 1]);
    } else {
      RunBegan(j, k, s, grace);
      SettlingIsHistory(j, k, s, grace);
    }
  }

  // ---- no zero without a reason --------------------------------------------------------

  lemma ZeroReason(m: Mon, e: Entry)
    requires Permitted(m, e) && IsZero(e)
    ensures m.owed.Write? || m.Wire() == ZERO || (m.run.Some? && m.run.value.revoked)
  {
  }

  lemma OwedWriteComesFrom(m: Mon, e: Entry)
    requires Step(m, e).owed.Write? && Permitted(m, e)
    ensures e.Decided? || e.Unconfirmed? || e.Ignored? || e.Peeked? || (e.Changed? && e.cause == Latch)
  {
  }

  /** A zero is never left over from an older intent: it is what the intent derives at that
      moment; or it comes right after a latch, a failed confirmation or the decision of a
      refresh; or its operation withdrew the enable. */
  lemma ZeroHasReason(j: seq<Entry>, k: nat, i: nat, grace: real)
    requires Accepted(j, grace) && i < |j| && SameOperation(j, k, i) && IsZero(j[i])
    ensures || WireAt(j, i, grace) == ZERO
            || (exists x :: k < x < i && IsRevocation(j[x]))
            || (j[i - 1].Changed? && j[i - 1].cause == Latch)
            || j[i - 1].Unconfirmed? || j[i - 1].Ignored? || j[i - 1].Decided?
  {
    assert PermittedAt(j, i, grace);
    WireIsHistory(j, i, grace);
    ZeroReason(At(j, i, grace), j[i]);
    if At(j, i, grace).owed.Write? {
      assert PermittedAt(j, i - 1, grace);
      OwedWriteComesFrom(At(j, i - 1, grace), j[i - 1]);
      OwedWriteIsIt(At(j, i, grace), j[i]);
      OwedAfterLook(At(j, i - 1, grace), j[i - 1]);
    } else {
      StepsHappened(j, k, i, grace);
    }
  }

  lemma OwedWriteIsIt(m: Mon, e: Entry)
    requires Permitted(m, e) && m.owed.Write? && IsZero(e)
    ensures m.owed.address == REG_MAX_CHARGING_POWER
  {
  }

  lemma OwedAfterLook(m: Mon, e: Entry)
    ensures e.Peeked? && Step(m, e).owed.Write? ==> Step(m, e).owed.address == REG_CHARGING_CONTROL
  {
  }

  // ---- a charger that ignores the setpoints ------------------------------------------

  lemma MissedStep(m: Mon, e: Entry)
    requires Permitted(m, e)
    ensures Step(m, e).missed ==
              match e
              case AllReadBack => NONE_MISSED
              case Ignored => NONE_MISSED
              case Unmatched(at) => m.missed.Miss(at)
              case _ => m.missed
    ensures Step(m, e).clock >= m.clock && (e.Unmatched? ==> Step(m, e).clock >= e.at)
  {
  }

  /** Between x and n no refresh read back all it wrote, and none answered for that. */
  ghost predicate Unanswered(j: seq<Entry>, x: nat, n: nat) {
    x < n <= |j| && forall y :: x < y < n ==> !j[y].AllReadBack? && !j[y].Ignored?
  }

  /** The run of ignored refreshes dates back to the one at x at least. */
  ghost predicate MissedSince(j: seq<Entry>, x: nat, n: nat, m: Mon) {
    && x < n <= |j| && j[x].Unmatched?
    && m.missed.since.Some? && m.missed.since.value <= j[x].at && m.missed.count >= 1
    && forall y: nat :: x < y < n && j[y].Unmatched? ==> m.missed.count >= 2 && m.clock >= j[y].at
  }

  lemma MissedGoesOn(j: seq<Entry>, x: nat, n: nat, m: Mon)
    requires 0 < n <= |j| && MissedSince(j, x, n - 1, m)
    requires Permitted(m, j[n - 1]) && !j[n - 1].AllReadBack? && !j[n - 1].Ignored?
    ensures MissedSince(j, x, n, Step(m, j[n - 1]))
  {
    MissedStep(m, j[n - 1]);
  }

  lemma {:induction false} MissedMeans(j: seq<Entry>, x: nat, n: nat, grace: real)
    requires Accepted(j, grace) && Unanswered(j, x, n) && j[x].Unmatched?
    requires At(j, x, grace).missed.since.Some? ==> At(j, x, grace).missed.since.value <= j[x].at
    ensures MissedSince(j, x, n, At(j, n, grace))
    decreases n
  {
    assert PermittedAt(j, n - 1, grace);
    if x < n - 1 {
      MissedMeans(j, x, n - 1, grace);
      MissedGoesOn(j, x, n, At(j, n - 1, grace));
    } else {
      MissedStep(At(j, x, grace), j[x]);
    }
  }

  /** A run of ignored refreshes began no later than anything stamped since. */
  lemma {:induction false} MissedStarted(j: seq<Entry>, n: nat, grace: real)
    requires Accepted(j, grace) && n <= |j|
    ensures var m := At(j, n, grace);
            m.missed.since.Some? ==> m.missed.since.value <= m.clock
    decreases n
  {
    if n > 0 {
      MissedStarted(j, n - 1, grace);
      assert PermittedAt(j, n - 1, grace);
      MissedStep(At(j, n - 1, grace), j[n - 1]);
    }
  }

  lemma MissIsStamped(m: Mon, e: Entry)
    requires Permitted(m, e) && e.Unmatched?
    ensures e.at >= m.clock && m.In(Refresh) && m.run.value.decided
  {
  }

  ghost predicate HasJudged(m: Mon) {
    m.run.Some? && m.run.value.decided && m.course.judged
  }

  lemma JudgedGoesOn(m: Mon, e: Entry)
    requires Permitted(m, e) && !e.Began? && !e.Ended?
    requires HasJudged(m) || e.Unmatched?
    ensures HasJudged(Step(m, e)) && (HasJudged(m) ==> !e.AllReadBack?)
  {
  }

  lemma {:induction false} JudgedStays(j: seq<Entry>, k: nat, y: nat, n: nat, grace: real)
    requires Accepted(j, grace) && k < y < n <= |j| && SameOperation(j, k, n) && j[y].Unmatched?
    ensures HasJudged(At(j, n, grace))
    ensures forall z :: y < z < n ==> !j[z].AllReadBack?
    decreases n
  {
    assert PermittedAt(j, n - 1, grace);
    if y < n - 1 {
      JudgedStays(j, k, y, n - 1, grace);
    }
    JudgedGoesOn(At(j, n - 1, grace), j[n - 1]);
  }

  lemma ClosesInTime(m: Mon, e: Entry)
    requires Permitted(m, e) && e.Linked? && e.seen.Refreshed?
    ensures !m.missed.Overdue(m.clock)
  {
  }

  /** Two refreshes that did not read back what they wrote, sixty seconds or more apart and
      with none between that did: the later one, if it gets as far as its link check, takes
      the charger to ignore the setpoints, which latches (`FailureIsLatched`). */
  lemma IgnoredSetpointsLatch(j: seq<Entry>, k: nat, x: nat, y: nat, l: nat, grace: real) returns (g: nat)
    requires Accepted(j, grace) && k < y < l < |j| && SameOperation(j, k, l)
    requires j[l].Linked? && j[l].seen.Refreshed?
    requires x < y && j[x].Unmatched? && j[y].Unmatched? && j[y].at - j[x].at >= IGNORED_AFTER
    requires Unanswered(j, x, y)
    ensures y < g < l && j[g].Ignored?
  {
    MissedStarted(j, x, grace);
    assert PermittedAt(j, x, grace);
    MissIsStamped(At(j, x, grace), j[x]);
    JudgedStays(j, k, y, l, grace);
    if forall z :: y < z < l ==> !j[z].Ignored? {
      assert Unanswered(j, x, l);
      MissedMeans(j, x, l, grace);
      assert PermittedAt(j, l, grace);
      ClosesInTime(At(j, l, grace), j[l]);
      assert false;
    }
    g :| y < g < l && j[g].Ignored?;
  }

  lemma JudgesAll(m: Mon, e: Entry)
    requires Permitted(m, e) && e.Linked? && e.seen.Refreshed?
    ensures m.tally.last.Some? ==> m.course.judged || m.commands > m.course.commands
  {
  }

  /** Judged, and told: some entry after d says what became of the read-backs. */
  predicate IsJudgement(e: Entry) {
    e.AllReadBack? || e.Unmatched? || e.Ignored?
  }

  ghost predicate JudgedFrom(j: seq<Entry>, d: nat, n: nat, m: Mon, commands: nat) {
    && d < n <= |j| && m.run.Some? && m.run.value.decided && m.course.commands == commands
    && (m.course.judged ==> exists x :: d < x < n && IsJudgement(j[x]))
    && (m.tally.last.None? ==> forall x :: d < x < n ==> !j[x].Wrote?)
  }

  lemma JudgementGoesOn(j: seq<Entry>, d: nat, n: nat, m: Mon, commands: nat)
    requires 0 < n <= |j| && JudgedFrom(j, d, n - 1, m, commands)
    requires Permitted(m, j[n - 1]) && !j[n - 1].Began? && !j[n - 1].Ended?
    ensures JudgedFrom(j, d, n, Step(m, j[n - 1]), commands)
  {
    CourseStep(m, j[n - 1]);
    TallyStep(m, j[n - 1]);
    StepIsRecorded(m, j[n - 1]);
    DecidedOnce(m, j[n - 1]);
  }

  ghost predicate DecidedAt(j: seq<Entry>, d: nat, n: nat, commands: nat, grace: real) {
    n <= |j| && JudgedFrom(j, d, n, At(j, n, grace), commands)
  }

  lemma JudgementStep(j: seq<Entry>, d: nat, n: nat, commands: nat, grace: real)
    requires Accepted(j, grace) && d < n - 1 < |j| && DecidedAt(j, d, n - 1, commands, grace)
    requires !j[n - 1].Began? && !j[n - 1].Ended?
    ensures DecidedAt(j, d, n, commands, grace)
  {
    assert PermittedAt(j, n - 1, grace);
    JudgementGoesOn(j, d, n, At(j, n - 1, grace), commands);
  }

  lemma JudgementBegins(j: seq<Entry>, k: nat, d: nat, grace: real)
    requires k < d < |j| && SameOperation(j, k, d) && IsDecision(j[d])
    ensures DecidedAt(j, d, d + 1, At(j, d, grace).commands, grace)
  {
    RunBegan(j, k, d, grace);
  }

  lemma {:induction false} JudgementMeans(j: seq<Entry>, k: nat, d: nat, n: nat, commands: nat, grace: real)
    requires Accepted(j, grace) && k < d < n <= |j| && SameOperation(j, k, n)
    requires DecidedAt(j, d, d + 1, commands, grace)
    ensures DecidedAt(j, d, n, commands, grace)
    decreases n
  {
    if d < n - 1 {
      JudgementMeans(j, k, d, n - 1, commands, grace);
      JudgementStep(j, d, n, commands, grace);
    }
  }

  /** A refresh that wrote anything says, before its link check, whether all of it was read
      back (`ConfirmedWrites`) or not; only a command can excuse it. */
  lemma RefreshIsJudged(j: seq<Entry>, k: nat, d: nat, w: nat, l: nat, grace: real)
    requires Accepted(j, grace) && k < d < w < l < |j| && SameOperation(j, k, l)
    requires IsDecision(j[d]) && j[w].Wrote? && j[l].Linked? && j[l].seen.Refreshed? && NoCommand(j, d, l)
    ensures exists x :: d < x < l && IsJudgement(j[x])
  {
    JudgementBegins(j, k, d, grace);
    JudgementMeans(j, k, d, l, At(j, d, grace).commands, grace);
    CountsStay(j, d, l, grace);
    assert PermittedAt(j, l, grace);
    JudgesAll(At(j, l, grace), j[l]);
  }

  // ---- when a refresh holds its zero back --------------------------------------------

  /** The start of the hold that runs after the first n entries. */
  ghost function HoldStart(j: seq<Entry>, n: nat, grace: real): Option<real>
    requires n <= |j|
  {
    if n == 0 then None
    else if EndsHold(j, n - 1, grace) then None
    else if j[n - 1].Held? && HoldStart(j, n - 1, grace).None? then Some(j[n - 1].at)
    else HoldStart(j, n - 1, grace)
  }

  lemma HoldStep(m: Mon, e: Entry)
    ensures Step(m, e).hold ==
              if e.AllReadBack? || (m.tel.protected && !Step(m, e).tel.protected) then None
              else if e.Held? && m.hold.None? then Some(e.at) else m.hold
  {
  }

  lemma HoldEndsAlike(j: seq<Entry>, n: nat, grace: real)
    requires n < |j|
    ensures var m := At(j, n, grace);
            EndsHold(j, n, grace) <==> j[n].AllReadBack? || (m.tel.protected && !Step(m, j[n]).tel.protected)
  {
    ProtectedExactly(j, n, grace);
    ProtectedExactly(j, n + 1, grace);
  }

  lemma ProtectedExactly(j: seq<Entry>, n: nat, grace: real)
    requires n <= |j|
    ensures At(j, n, grace).tel.protected <==> Telemetry.Protected(Frames(j, n), grace)
  {
    TelemetryIsHistory(j, n, grace);
    Telemetry.ProtectionIsHistorical(Frames(j, n), grace);
  }

  lemma {:induction false} HoldIsHistory(j: seq<Entry>, n: nat, grace: real)
    requires n <= |j|
    ensures At(j, n, grace).hold == HoldStart(j, n, grace)
  {
    if n > 0 {
      HoldIsHistory(j, n - 1, grace);
      HoldGoesOn(j, n, grace);
    }
  }

  lemma HoldGoesOn(j: seq<Entry>, n: nat, grace: real)
    requires 0 < n <= |j| && At(j, n - 1, grace).hold == HoldStart(j, n - 1, grace)
    ensures At(j, n, grace).hold == HoldStart(j, n, grace)
  {
    HoldStep(At(j, n - 1, grace), j[n - 1]);
    HoldEndsAlike(j, n - 1, grace);
  }

  /** Only the telemetry protection stands between the session that frame f shows and an
      intent that permits it, and no hold has lasted the telemetry grace. */
  ghost predicate RecoversAt(j: seq<Entry>, f: nat, d: nat, at: real, grace: real)
    requires f < d <= |j| && j[f].Frame?
  {
    var i := IntentAt(j, d);
    && Telemetry.Protected(Frames(j, d), grace) && !SafetyPendingAt(j, d)
    && j[f].ev.SessionActive()
    && i.enabled && !i.latched && !i.stop && i.power.Some? && i.power.value >= MIN_ENABLE_POWER_RAW
    && !Unplug.Run(Looks(j, d)).released
    && (HoldStart(j, d, grace).Some? ==> at - HoldStart(j, d, grace).value < grace)
  }

  lemma HoldsExactly(m: Mon, e: Entry)
    requires Permitted(m, e) && IsDecision(e)
    ensures e.Held? <==> m.MustHold(e.at)
  {
  }

  /** A refresh holds its zero back exactly when the session is there, the intent permits it,
      only the telemetry protection is in the way, and no hold is overdue. */
  lemma HeldExactly(j: seq<Entry>, k: nat, f: nat, d: nat, grace: real)
    requires Accepted(j, grace) && d < |j| && SameOperation(j, k, d) && RestsOn(j, k, f, d) && IsDecision(j[d])
    ensures j[d].Held? <==> RecoversAt(j, f, d, j[d].at, grace)
  {
    StateIsHistory(j, d, grace);
    HoldIsHistory(j, d, grace);
    Telemetry.ProtectionIsHistorical(Frames(j, d), grace);
    TheFrame(j, k, f, d, grace);
    assert PermittedAt(j, d, grace);
    HoldsExactly(At(j, d, grace), j[d]);
  }

  // ---- the set-up of the safety registers --------------------------------------------

  lemma SetUpNeedsPending(m: Mon)
    requires Permitted(m, Began(Setup))
    ensures m.safety
  {
  }

  lemma {:induction false} PendingStays(j: seq<Entry>, k: nat, n: nat)
    requires k <= n <= |j| && SafetyPendingAt(j, k)
    requires forall c :: k <= c < n ==> !j[c].SafetyConfirmed?
    ensures SafetyPendingAt(j, n)
    decreases n
  {
    if k < n {
      PendingStays(j, k, n - 1);
    }
  }

  /** Once the set-up of the safety registers has begun, no explicit enable is accepted
      before the configuration is confirmed (`SafetyNeedsReadBack`). */
  lemma SetUpComesFirst(j: seq<Entry>, k: nat, i: nat, grace: real)
    requires Accepted(j, grace) && k < i < |j| && j[k] == Began(Setup) && IsEnable(j[i])
    ensures exists c :: k < c < i && j[c].SafetyConfirmed?
  {
    assert PermittedAt(j, k, grace);
    SafetyIsHistory(j, k, grace);
    SetUpNeedsPending(At(j, k, grace));
    EnableNeedsSafety(j, i, grace);
    if forall c :: k <= c < i ==> !j[c].SafetyConfirmed? {
      PendingStays(j, k, i);
    }
  }
}
