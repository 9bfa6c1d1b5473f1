/**
  What an accepted journal means for a whole run: statements about the entries
  themselves, for journals of any length and any interleaving.
 */
module JournalTheorems {
  import opened Prelude
  import opened Evidence
  import opened Intents
  import opened Journal
  import Telemetry
  import Unplug
  import LinkHealth

  // ---- the histories inside a journal ----------------------------------------------

  /** The status frames judged in the first n entries. */
  function Frames(j: seq<Entry>, n: nat): seq<Evidence>
    requires n <= |j|
  {
    if n == 0 then []
    else if j[n - 1].Frame? then Frames(j, n - 1) + [j[n - 1].ev]
    else Frames(j, n - 1)
  }

  /** The unplug looks in the first n entries. */
  function Looks(j: seq<Entry>, n: nat): seq<Unplug.Look>
    requires n <= |j|
  {
    if n == 0 then []
    else if j[n - 1].Tracked? then Looks(j, n - 1) + [j[n - 1].look]
    else Looks(j, n - 1)
  }

  /** The link looks in the first n entries. */
  function Links(j: seq<Entry>, n: nat): seq<LinkHealth.Look>
    requires n <= |j|
  {
    if n == 0 then []
    else if j[n - 1].Linked? then Links(j, n - 1) + [j[n - 1].seen]
    else Links(j, n - 1)
  }

  /** The intent current after the first n entries. */
  function IntentAt(j: seq<Entry>, n: nat): Intent
    requires n <= |j|
  {
    if n == 0 then INITIAL
    else if j[n - 1].Changed? then j[n - 1].intent
    else IntentAt(j, n - 1)
  }

  /** Whether the safety configuration is unconfirmed after the first n entries. */
  predicate SafetyPendingAt(j: seq<Entry>, n: nat)
    requires n <= |j|
  {
    n > 0 && (j[n - 1].SafetyPending? || (!j[n - 1].SafetyConfirmed? && SafetyPendingAt(j, n - 1)))
  }

  /** Whether initialization is over after the first n entries. */
  predicate ReadyAt(j: seq<Entry>, n: nat)
    requires n <= |j|
  {
    n > 0 && (j[n - 1].Ready? || ReadyAt(j, n - 1))
  }

  /** The state the journal implies is nothing but the histories in it. */
  lemma StateIsHistory(j: seq<Entry>, n: nat, grace: real)
    requires n <= |j|
    ensures var m := At(j, n, grace);
            && m.grace == grace
            && m.intent == IntentAt(j, n)
            && m.safety == SafetyPendingAt(j, n)
            && m.ready == ReadyAt(j, n)
            && m.tel == Telemetry.Run(Frames(j, n), grace)
            && m.track == Unplug.Run(Looks(j, n))
            && m.link == LinkHealth.Run(Links(j, n))
  {
    IntentIsHistory(j, n, grace);
    GraceIsConstant(j, n, grace);
    SafetyIsHistory(j, n, grace);
    ReadyIsHistory(j, n, grace);
    TelemetryIsHistory(j, n, grace);
    TrackIsHistory(j, n, grace);
    LinkIsHistory(j, n, grace);
  }

  /** What one entry moves, field by field. */
  lemma OneStep(m: Mon, e: Entry)
    ensures Step(m, e).intent == if e.Changed? then e.intent else m.intent
    ensures Step(m, e).tel == if e.Frame? then Telemetry.Step(m.tel, e.ev, m.grace) else m.tel
    ensures Step(m, e).track == if e.Tracked? then Unplug.Step(m.track, e.look) else m.track
    ensures Step(m, e).link == if e.Linked? then LinkHealth.Step(m.link, e.seen) else m.link
    ensures Step(m, e).safety == (e.SafetyPending? || (!e.SafetyConfirmed? && m.safety))
    ensures Step(m, e).ready == (e.Ready? || m.ready)
    ensures Step(m, e).grace == m.grace
  {
  }

  /** The one-step permissions last for one step. */
  lemma OneStepFlags(m: Mon, e: Entry)
    ensures Step(m, e).adoptable == (e.Tracked? && Unplug.Adopts(m.track, e.look))
    ensures Step(m, e).releasable == (e.Linked? && LinkHealth.Fires(m.link, e.seen))
  {
  }

  lemma {:induction false} IntentIsHistory(j: seq<Entry>, n: nat, grace: real)
    requires n <= |j|
    ensures At(j, n, grace).intent == IntentAt(j, n)
  {
    if n > 0 {
      IntentIsHistory(j, n - 1, grace);
      OneStep(At(j, n - 1, grace), j[n - 1]);
    }
  }

  lemma {:induction false} GraceIsConstant(j: seq<Entry>, n: nat, grace: real)
    requires n <= |j|
    ensures At(j, n, grace).grace == grace
  {
    if n > 0 {
      GraceIsConstant(j, n - 1, grace);
      OneStep(At(j, n - 1, grace), j[n - 1]);
    }
  }

  lemma {:induction false} SafetyIsHistory(j: seq<Entry>, n: nat, grace: real)
    requires n <= |j|
    ensures At(j, n, grace).safety == SafetyPendingAt(j, n)
  {
    if n > 0 {
      SafetyIsHistory(j, n - 1, grace);
      OneStep(At(j, n - 1, grace), j[n - 1]);
    }
  }

  lemma {:induction false} ReadyIsHistory(j: seq<Entry>, n: nat, grace: real)
    requires n <= |j|
    ensures At(j, n, grace).ready == ReadyAt(j, n)
  {
    if n > 0 {
      ReadyIsHistory(j, n - 1, grace);
      OneStep(At(j, n - 1, grace), j[n - 1]);
    }
  }

  lemma RunSnoc(h: seq<Evidence>, ev: Evidence, grace: real)
    ensures Telemetry.Run(h + [ev], grace) == Telemetry.Step(Telemetry.Run(h, grace), ev, grace)
  {
    assert (h + [ev])[..|h|] == h;
  }

  lemma {:induction false} TelemetryIsHistory(j: seq<Entry>, n: nat, grace: real)
    requires n <= |j|
    ensures At(j, n, grace).tel == Telemetry.Run(Frames(j, n), grace)
  {
    if n > 0 {
      TelemetryIsHistory(j, n - 1, grace);
      GraceIsConstant(j, n - 1, grace);
      OneStep(At(j, n - 1, grace), j[n - 1]);
      if j[n - 1].Frame? {
        RunSnoc(Frames(j, n - 1), j[n - 1].ev, grace);
      }
    }
  }

  lemma {:induction false} TrackIsHistory(j: seq<Entry>, n: nat, grace: real)
    requires n <= |j|
    ensures At(j, n, grace).track == Unplug.Run(Looks(j, n))
  {
    if n > 0 {
      TrackIsHistory(j, n - 1, grace);
      OneStep(At(j, n - 1, grace), j[n - 1]);
      var h := Looks(j, n - 1);
      if j[n - 1].Tracked? {
        assert (h + [j[n - 1].look])[..|h|] == h;
      }
    }
  }

  lemma {:induction false} LinkIsHistory(j: seq<Entry>, n: nat, grace: real)
    requires n <= |j|
    ensures At(j, n, grace).link == LinkHealth.Run(Links(j, n))
  {
    if n > 0 {
      LinkIsHistory(j, n - 1, grace);
      OneStep(At(j, n - 1, grace), j[n - 1]);
      var h := Links(j, n - 1);
      if j[n - 1].Linked? {
        assert (h + [j[n - 1].seen])[..|h|] == h;
      }
    }
  }

  // ---- setpoints follow the latest intent ------------------------------------------

  /** Nothing protective stands in the way after the first n entries: telemetry judged
      over its whole history, the safety configuration, and the unplug release. */
  ghost predicate Unhindered(j: seq<Entry>, n: nat, grace: real)
    requires n <= |j|
  {
    && !Telemetry.Protected(Frames(j, n), grace)
    && !SafetyPendingAt(j, n)
    && !Unplug.Run(Looks(j, n)).released
  }

  /** In every interleaving, a dispatched 0x3002 value is zero or the limit of the
      intent current at that very moment, and that intent then allows it; likewise for
      0x3001.  So a value of an older intent never follows a newer one. */
  lemma SetpointsFollowIntent(j: seq<Entry>, i: nat, grace: real)
    requires Accepted(j, grace) && i < |j| && j[i].Wrote?
    ensures var now := IntentAt(j, i);
            && (j[i].address == REG_MAX_CHARGING_POWER && j[i].value > 0 ==>
                  && now.power == Some(j[i].value) && j[i].value >= MIN_ENABLE_POWER_RAW
                  && now.enabled && !now.latched && !now.stop
                  && Unhindered(j, i, grace))
            && (j[i].address == REG_MAX_CHARGING_CURRENT ==>
                  && now.current == Some(j[i].value)
                  && now.enabled && !now.latched && !now.stop
                  && (now.power.Some? ==> now.power.value >= MIN_ENABLE_POWER_RAW)
                  && Unhindered(j, i, grace))
  {
    assert PermittedAt(j, i, grace);
    StateIsHistory(j, i, grace);
    Telemetry.ProtectionIsHistorical(Frames(j, i), grace);
  }

  // ---- positive setpoints rest on a fresh frame ------------------------------------

  predicate IsEnable(e: Entry) {
    e.Changed? && e.cause == Enable
  }

  /** Entry k began an operation that is still running before entry i. */
  ghost predicate SameOperation(j: seq<Entry>, k: nat, i: nat) {
    && k < i <= |j| && j[k].Began?
    && forall x :: k < x < i ==> !j[x].Began? && !j[x].Ended?
  }

  ghost predicate EnabledBetween(j: seq<Entry>, f: nat, i: nat) {
    exists x :: f < x < i <= |j| && IsEnable(j[x])
  }

  /** Entry f is the frame the operation begun at k rests on: the first one of a refresh
      or a poll, the latest one of any other operation. */
  ghost predicate RestsOn(j: seq<Entry>, k: nat, f: nat, i: nat) {
    && k < f < i <= |j| && j[k].Began? && j[f].Frame?
    && (j[k].op in {Refresh, Poll} ==> forall x :: k < x < f ==> !j[x].Frame?)
    && (j[k].op !in {Refresh, Poll} ==> forall x :: f < x < i ==> !j[x].Frame?)
  }

  /** Entry f is the frame of the running operation r. */
  ghost predicate FrameIs(j: seq<Entry>, n: nat, f: nat, r: Running, enables: nat) {
    && f < n <= |j| && j[f].Frame? && r.frame == Some(j[f].ev)
    && r.frameEnables <= enables
    && (enables > r.frameEnables ==> EnabledBetween(j, f, n))
  }

  /** The running operation and the frame it rests on, read off the first n entries. */
  ghost predicate Runs(j: seq<Entry>, n: nat, k: nat, r: Running, enables: nat) {
    && n <= |j| && SameOperation(j, k, n) && r.op == j[k].op
    && (r.frame.None? ==> forall x :: k < x < n ==> !j[x].Frame?)
    && (r.frame.Some? ==> exists f: nat :: RestsOn(j, k, f, n) && FrameIs(j, n, f, r, enables))
  }

  lemma {:induction false} OperationMeans(j: seq<Entry>, n: nat, grace: real)
    requires Accepted(j, grace) && n <= |j|
    ensures var m := At(j, n, grace);
            m.run.Some? ==> exists k: nat :: Runs(j, n, k, m.run.value, m.enables)
  {
    if n > 0 {
      OperationMeans(j, n - 1, grace);
      var m, q, e := At(j, n - 1, grace), At(j, n, grace), j[n - 1];
      if e.Began? {
        assert Runs(j, n, n - 1, q.run.value, q.enables);
      } else if q.run.Some? {
        RunStep(m, e);
        var k: nat :| Runs(j, n - 1, k, m.run.value, m.enables);
        RunsOn(j, n, k, m.run.value, q.run.value, m.enables, q.enables);
      }
    }
  }

  /** One entry inside an operation moves only what the operation rests on. */
  lemma RunStep(m: Mon, e: Entry)
    requires !e.Began? && Step(m, e).run.Some?
    ensures m.run.Some? && !e.Ended?
    ensures var r, q := m.run.value, Step(m, e).run.value;
            q.op == r.op
            && q.frame == (if e.Frame? then r.See(e.ev, m.enables).frame else r.frame)
            && q.frameEnables == (if e.Frame? then r.See(e.ev, m.enables).frameEnables else r.frameEnables)
    ensures Step(m, e).enables == m.enables + if IsEnable(e) then 1 else 0
  {
  }

  lemma RunsOn(j: seq<Entry>, n: nat, k: nat, r: Running, q: Running, before: nat, after: nat)
    requires 0 < n <= |j| && Runs(j, n - 1, k, r, before)
    requires !j[n - 1].Began? && !j[n - 1].Ended? && q.op == r.op
    requires var s := if j[n - 1].Frame? then r.See(j[n - 1].ev, before) else r;
             q.frame == s.frame && q.frameEnables == s.frameEnables
    requires after == before + if IsEnable(j[n - 1]) then 1 else 0
    ensures Runs(j, n, k, q, after)
  {
    if q.frame.Some? {
      if j[n - 1].Frame? && !r.Keeps() {
        assert RestsOn(j, k, n - 1, n) && FrameIs(j, n, n - 1, q, after);
      } else {
        var f: nat :| RestsOn(j, k, f, n - 1) && FrameIs(j, n - 1, f, r, before);
        assert RestsOn(j, k, f, n);
        if after > q.frameEnables {
          var x :| f < x < n && IsEnable(j[x]);
          assert EnabledBetween(j, f, n);
        }
        assert FrameIs(j, n, f, q, after);
      }
    }
  }

  /** Every positive 0x3002 write is preceded, inside the same lock-holding operation,
      by a valid frame: in a refresh the frame it opened with, showing a plugged-in
      active session; in an apply the latest frame, showing no refusing status.  That
      frame's fault code is zero unless an explicit enable was issued after it. */
  lemma PositiveWritesRestOnFrames(j: seq<Entry>, i: nat, grace: real)
    requires Accepted(j, grace)
    requires i < |j| && j[i].Wrote? && j[i].address == REG_MAX_CHARGING_POWER && j[i].value > 0
    ensures exists k: nat, f: nat ::
              && SameOperation(j, k, i) && RestsOn(j, k, f, i)
              && j[f].ev.Valid()
              && (j[f].ev.fault == Some(0) || EnabledBetween(j, f, i))
              && ((j[k].op == Refresh && j[f].ev.SessionActive())
                  || (j[k].op == Apply && j[f].ev.status.value !in REFUSING_STATUS))
  {
    var m := At(j, i, grace);
    assert PermittedAt(j, i, grace);
    assert m.Authorized();
    OperationMeans(j, i, grace);
    var k: nat :| Runs(j, i, k, m.run.value, m.enables);
    var f: nat :| RestsOn(j, k, f, i) && FrameIs(j, i, f, m.run.value, m.enables);
    assert SameOperation(j, k, i) && RestsOn(j, k, f, i);
  }

  /** At most one operation holds the lock, and every register write is made under it. */
  lemma WritesHoldTheLock(j: seq<Entry>, i: nat, grace: real)
    requires Accepted(j, grace) && i < |j| && j[i].Wrote?
    ensures exists k: nat :: SameOperation(j, k, i)
  {
    assert PermittedAt(j, i, grace);
    OperationMeans(j, i, grace);
    var k: nat :| Runs(j, i, k, At(j, i, grace).run.value, At(j, i, grace).enables);
    assert SameOperation(j, k, i);
  }

  // ---- charging is switched on only on request -------------------------------------

  /** The entry before i saw a session in a pause released by a confirmed unplug. */
  ghost predicate AdoptsSession(j: seq<Entry>, i: nat) {
    && 0 < i < |j| && j[i - 1].Tracked?
    && j[i - 1].look.userPause && j[i - 1].look.ev.SessionActive()
    && Unplug.Released(Looks(j, i - 1))
  }

  /** Once initialization is over, `enabled` goes from false to true only by an explicit
      enable, or by adopting a valid session after a confirmed unplug: an unbroken run of
      valid cable-out looks spanning at least a second, and at every look since (the
      adopting one included) an ordinary pause with neither fault latch nor Stop. */
  lemma EnabledOnlyOnRequest(j: seq<Entry>, i: nat, grace: real)
    requires Accepted(j, grace) && i < |j| && j[i].Changed? && ReadyAt(j, i)
    requires !IntentAt(j, i).enabled && j[i].intent.enabled
    ensures j[i].cause == Enable || (j[i].cause == Adopted && AdoptsSession(j, i))
  {
    assert PermittedAt(j, i, grace);
    StateIsHistory(j, i, grace);
    EnablingChange(At(j, i, grace), j[i].cause, j[i].intent);
    if j[i].cause == Adopted {
      AdoptionIsSeen(j, i, grace);
    }
  }

  lemma AdoptionIsSeen(j: seq<Entry>, i: nat, grace: real)
    requires i < |j| && At(j, i, grace).adoptable
    ensures AdoptsSession(j, i)
  {
    assert i > 0;
    OneStepFlags(At(j, i - 1, grace), j[i - 1]);
    TrackIsHistory(j, i - 1, grace);
    Unplug.ReleaseNeedsUnplug(Looks(j, i - 1));
  }

  lemma EnablingChange(m: Mon, cause: Cause, a: Intent)
    requires ChangePermitted(m, cause, a) && m.ready && !m.intent.enabled && a.enabled
    ensures cause == Enable || (cause == Adopted && m.adoptable)
  {
  }

  lemma UnlatchingChange(m: Mon, cause: Cause, a: Intent)
    requires ChangePermitted(m, cause, a) && m.ready && m.intent.CommsLatch() && !a.latched
    ensures cause == Enable || (cause == LinkReleased && m.releasable && !a.enabled)
  {
  }

  // ---- latches ---------------------------------------------------------------------

  /** No explicit enable among entries a..b-1. */
  ghost predicate NoEnable(j: seq<Entry>, a: nat, b: nat) {
    a <= b <= |j| && forall x :: a <= x < b ==> !IsEnable(j[x])
  }

  /** A latch with any cause but lost communications survives every step until an
      explicit enable; so does a Stop fallback. */
  lemma {:induction false} LatchSurvives(j: seq<Entry>, a: nat, b: nat, grace: real)
    requires Accepted(j, grace) && NoEnable(j, a, b) && ReadyAt(j, a)
    ensures ReadyAt(j, b)
    ensures IntentAt(j, a).PermanentLatch() ==> IntentAt(j, b).PermanentLatch()
    ensures IntentAt(j, a).stop ==> IntentAt(j, b).stop
    decreases b - a
  {
    if a < b {
      LatchSurvives(j, a, b - 1, grace);
      assert PermittedAt(j, b - 1, grace);
      StateIsHistory(j, b - 1, grace);
      assert !IsEnable(j[b - 1]);
      LatchSurvivesStep(At(j, b - 1, grace), j[b - 1]);
    }
  }

  lemma LatchSurvivesStep(m: Mon, e: Entry)
    requires Permitted(m, e) && m.ready && !IsEnable(e)
    ensures e.Changed? && m.intent.PermanentLatch() ==> e.intent.PermanentLatch()
    ensures e.Changed? && m.intent.stop ==> e.intent.stop
  {
  }

  // ---- Stop ------------------------------------------------------------------------

  /** After a confirmed Stop latched the fallback, neither setpoint register is written
      again until the next explicit enable. */
  lemma NoSetpointAfterStop(j: seq<Entry>, s: nat, i: nat, grace: real)
    requires Accepted(j, grace)
    requires s < i < |j| && j[s].Changed? && j[s].cause == StopConfirmed
    requires NoEnable(j, s, i) && j[i].Wrote?
    ensures j[i].address !in {REG_MAX_CHARGING_CURRENT, REG_MAX_CHARGING_POWER}
  {
    StoppedPersists(j, s, i, grace);
    assert PermittedAt(j, i, grace);
  }

  lemma {:induction false} StoppedPersists(j: seq<Entry>, s: nat, i: nat, grace: real)
    requires s < i <= |j| && j[s].Changed? && j[s].cause == StopConfirmed
    requires NoEnable(j, s, i)
    ensures At(j, i, grace).Stopped()
    decreases i
  {
    if s < i - 1 {
      StoppedPersists(j, s, i - 1, grace);
      StopStays(At(j, i - 1, grace), j[i - 1]);
    } else {
      StopBegins(At(j, s, grace), j[s].intent);
    }
  }

  lemma StopStays(m: Mon, e: Entry)
    requires m.Stopped() && !IsEnable(e)
    ensures Step(m, e).Stopped()
  {
  }

  lemma StopBegins(m: Mon, intent: Intent)
    ensures StepChanged(m, StopConfirmed, intent).Stopped()
  {
  }

  /** 0x4001 is only ever written with Stop, and only while the intent itself asks for
      zero. */
  lemma StopOnlyWhilePaused(j: seq<Entry>, i: nat, grace: real)
    requires Accepted(j, grace) && i < |j|
    requires j[i].Wrote? && j[i].address == REG_CHARGING_CONTROL
    ensures j[i].value == STOP_COMMAND && IntentAt(j, i).ExplicitZero()
  {
    assert PermittedAt(j, i, grace);
    StateIsHistory(j, i, grace);
  }

  // ---- the recovery hold -----------------------------------------------------------

  /** Entry x ends a recovery hold: a refresh confirmed its writes, or the frame lifted
      the telemetry protection. */
  ghost predicate EndsHold(j: seq<Entry>, x: nat, grace: real) {
    && x < |j|
    && (j[x].AllReadBack?
        || (Telemetry.Protected(Frames(j, x), grace)
            && !Telemetry.Protected(Frames(j, x + 1), grace)))
  }

  ghost predicate Unended(j: seq<Entry>, a: nat, b: nat, grace: real) {
    a < b <= |j| && forall x :: a < x < b ==> !EndsHold(j, x, grace)
  }

  /** From the first held refresh to any later one without an end of the hold between
      them, less than the telemetry grace has passed. */
  lemma HoldIsBounded(j: seq<Entry>, a: nat, b: nat, grace: real)
    requires Accepted(j, grace)
    requires Unended(j, a, b, grace) && b < |j| && j[a].Held? && j[b].Held?
    ensures j[b].at - j[a].at < grace
  {
    HoldPersists(j, a, b, grace);
    assert PermittedAt(j, b, grace);
    StateIsHistory(j, b, grace);
  }

  lemma {:induction false} HoldPersists(j: seq<Entry>, a: nat, b: nat, grace: real)
    requires Accepted(j, grace) && Unended(j, a, b, grace) && j[a].Held?
    ensures At(j, b, grace).hold.Some? && At(j, b, grace).hold.value <= j[a].at
    decreases b
  {
    if a < b - 1 {
      HoldPersists(j, a, b - 1, grace);
      assert !EndsHold(j, b - 1, grace);
      NothingEndsHold(j, b - 1, grace);
      HoldStays(At(j, b - 1, grace), j[b - 1]);
    } else {
      HoldStarted(j, a, grace);
      assert PermittedAt(j, a, grace);
    }
  }

  lemma NothingEndsHold(j: seq<Entry>, x: nat, grace: real)
    requires x < |j| && !EndsHold(j, x, grace)
    ensures !j[x].AllReadBack?
    ensures At(j, x + 1, grace) == Step(At(j, x, grace), j[x])
    ensures !(At(j, x, grace).tel.protected && !At(j, x + 1, grace).tel.protected)
  {
    TelemetryIsHistory(j, x, grace);
    TelemetryIsHistory(j, x + 1, grace);
    Telemetry.ProtectionIsHistorical(Frames(j, x), grace);
    Telemetry.ProtectionIsHistorical(Frames(j, x + 1), grace);
  }

  lemma HoldStays(m: Mon, e: Entry)
    requires m.hold.Some? && !e.AllReadBack? && !(m.tel.protected && !Step(m, e).tel.protected)
    ensures Step(m, e).hold == m.hold
  {
  }

  /** A running hold began no later than anything stamped since. */
  lemma {:induction false} HoldStarted(j: seq<Entry>, n: nat, grace: real)
    requires n <= |j|
    ensures var m := At(j, n, grace); m.hold.Some? ==> m.hold.value <= m.clock
  {
    if n > 0 {
      HoldStarted(j, n - 1, grace);
      HoldMoves(At(j, n - 1, grace), j[n - 1]);
    }
  }

  lemma HoldMoves(m: Mon, e: Entry)
    ensures m.clock <= Step(m, e).clock
    ensures Step(m, e).hold in {None, m.hold} || (e.Held? && Step(m, e).hold == Some(e.at) && e.at <= Step(m, e).clock)
  {
  }
}
