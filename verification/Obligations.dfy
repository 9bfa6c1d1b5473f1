/**
  What has to follow: the entries an accepted journal cannot leave out.

  A fault is answered by a latch and a zero, a decision by its write, an ended session by
  the end of the enable; an operation that ends has gone all its way; charging is not
  enabled before the safety registers were read back.
 */
module Obligations {
  import opened Prelude
  import opened Evidence
  import opened Intents
  import opened Journal
  import opened JournalTheorems
  import Telemetry
  import Unplug
  import LinkHealth

  // ---- answers that come at once ---------------------------------------------------

  /** What the intent derives after the first n entries, protective reasons and the
      unplug release taken from the whole history. */
  ghost function WireAt(j: seq<Entry>, n: nat, grace: real): Wire
    requires n <= |j|
  {
    WireOf(IntentAt(j, n),
           Telemetry.Protected(Frames(j, n), grace) || SafetyPendingAt(j, n),
           Unplug.Run(Looks(j, n)).released)
  }

  lemma WireIsHistory(j: seq<Entry>, n: nat, grace: real)
    requires n <= |j|
    ensures At(j, n, grace).Wire() == WireAt(j, n, grace)
  {
    StateIsHistory(j, n, grace);
    Telemetry.ProtectionIsHistorical(Frames(j, n), grace);
  }

  lemma OwedAfterFrame(m: Mon, ev: Evidence)
    requires ev.Faulted() && !m.intent.PermanentLatch()
    ensures Step(m, Frame(ev)).owed.FaultLatch? && Step(m, Frame(ev)).intent == m.intent
  {
  }

  lemma LatchIsOwed(m: Mon, e: Entry)
    requires m.owed.FaultLatch? && Permitted(m, e)
    ensures e.Changed? && e.cause == Latch && e.intent == m.intent.Next().(latched := true, comms := false)
    ensures !e.intent.stop ==> Step(m, e).owed == Owed.Write(REG_MAX_CHARGING_POWER, 0)
  {
  }

  lemma WriteIsOwed(m: Mon, e: Entry)
    requires m.owed.Write? && Permitted(m, e)
    ensures e == Wrote(m.owed.address, m.owed.value)
  {
  }

  /** Nothing comes between a fault frame and its latch, nor between the latch and the
      protective zero (unless a Stop fallback silences the setpoints). */
  lemma FaultIsAnswered(j: seq<Entry>, f: nat, grace: real)
    requires Accepted(j, grace) && f + 2 < |j|
    requires j[f].Frame? && j[f].ev.Faulted() && !IntentAt(j, f).PermanentLatch()
    ensures j[f + 1] == Changed(Latch, IntentAt(j, f).Next().(latched := true, comms := false))
    ensures !IntentAt(j, f).stop ==> j[f + 2] == Wrote(REG_MAX_CHARGING_POWER, 0)
  {
    StateIsHistory(j, f, grace);
    OwedAfterFrame(At(j, f, grace), j[f].ev);
    assert PermittedAt(j, f + 1, grace);
    LatchIsOwed(At(j, f + 1, grace), j[f + 1]);
    assert PermittedAt(j, f + 2, grace);
    if !IntentAt(j, f).stop {
      WriteIsOwed(At(j, f + 2, grace), j[f + 2]);
    }
  }

  lemma OwedAfterDecision(m: Mon, at: real)
    ensures Step(m, Decided(at)).owed == m.Due()
  {
  }

  /** A refresh that decides on zero writes zero, right then. */
  lemma ZeroDecisionIsWritten(j: seq<Entry>, d: nat, grace: real)
    requires Accepted(j, grace) && d + 1 < |j|
    requires j[d].Decided? && WireAt(j, d, grace) == ZERO
    ensures j[d + 1] == Wrote(REG_MAX_CHARGING_POWER, 0)
  {
    WireIsHistory(j, d, grace);
    OwedAfterDecision(At(j, d, grace), j[d].at);
    assert PermittedAt(j, d + 1, grace);
    WriteIsOwed(At(j, d + 1, grace), j[d + 1]);
  }

  /** A refresh that decides on a positive value starts writing it if its frame shows the
      session; a valid frame without one gets a zero; after an unreadable frame nothing is
      due. */
  lemma PositiveDecisionIsWritten(j: seq<Entry>, k: nat, f: nat, d: nat, grace: real)
    requires Accepted(j, grace) && d + 1 < |j|
    requires SameOperation(j, k, d) && RestsOn(j, k, f, d)
    requires j[d].Decided? && WireAt(j, d, grace).Positive()
    ensures var wire, ev := WireAt(j, d, grace), j[f].ev;
            if !ev.Valid() then true
            else if !ev.SessionActive() then j[d + 1] == Wrote(REG_MAX_CHARGING_POWER, 0)
            else if wire.current.Some? then j[d + 1] == Wrote(REG_MAX_CHARGING_CURRENT, wire.current.value)
            else j[d + 1] == Wrote(REG_MAX_CHARGING_POWER, wire.power.value)
  {
    WireIsHistory(j, d, grace);
    TheFrame(j, k, f, d, grace);
    OwedAfterDecision(At(j, d, grace), j[d].at);
    assert PermittedAt(j, d + 1, grace);
    if At(j, d + 1, grace).owed.Write? {
      WriteIsOwed(At(j, d + 1, grace), j[d + 1]);
    }
  }

  /** The frame an operation rests on is unique. */
  lemma TheFrame(j: seq<Entry>, k: nat, f: nat, n: nat, grace: real)
    requires Accepted(j, grace) && n <= |j|
    requires SameOperation(j, k, n) && RestsOn(j, k, f, n)
    ensures At(j, n, grace).Sees(j[f].ev)
  {
    RunBegan(j, k, n, grace);
    OperationMeans(j, n, grace);
    var m := At(j, n, grace);
    var q: nat :| Runs(j, n, q, m.run.value, m.enables);
    assert q == k by {
      assert !(q < k) && !(k < q);
    }
    assert m.run.value.frame.Some?;
    var g: nat :| RestsOn(j, k, g, n) && FrameIs(j, n, g, m.run.value, m.enables);
    assert g == f;
  }

  // ---- an enable ends with its session ---------------------------------------------

  /** How many explicit enables are in flight after the first n entries. */
  function InFlight(j: seq<Entry>, n: nat): int
    requires n <= |j|
  {
    if n == 0 then 0
    else InFlight(j, n - 1) + if IsEnable(j[n - 1]) then 1 else if j[n - 1].EnableDone? then -1 else 0
  }

  /** An enabled intent that permits output, with no explicit enable in flight. */
  predicate JudgedAt(j: seq<Entry>, n: nat)
    requires n <= |j|
  {
    var i := IntentAt(j, n);
    i.enabled && !i.ExplicitZero() && !i.stop && InFlight(j, n) == 0
  }

  /** Whether a start waits for the plug after the first n entries: it was staged, and no
      session check since has seen the cable plugged in with no enable in flight. */
  predicate StagedAt(j: seq<Entry>, n: nat)
    requires n <= |j|
  {
    && n > 0
    && match j[n - 1]
       case Started(session) => !session
       case SessionChecked(ev) =>
         StagedAt(j, n - 1) && !(ev.Valid() && ev.cable == Some(1) && JudgedAt(j, n - 1))
       case _ => StagedAt(j, n - 1)
  }

  lemma FlyingStep(m: Mon, e: Entry)
    requires Permitted(m, e)
    ensures Step(m, e).flying == m.flying + if IsEnable(e) then 1 else if e.EnableDone? then -1 else 0
  {
  }

  lemma {:induction false} FlyingIsHistory(j: seq<Entry>, n: nat, grace: real)
    requires Accepted(j, grace) && n <= |j|
    ensures At(j, n, grace).flying == InFlight(j, n)
  {
    if n > 0 {
      FlyingIsHistory(j, n - 1, grace);
      assert PermittedAt(j, n - 1, grace);
      FlyingStep(At(j, n - 1, grace), j[n - 1]);
    }
  }

  lemma StagedStep(m: Mon, e: Entry)
    ensures Step(m, e).staged ==
              match e
              case Started(session) => !session
              case SessionChecked(ev) => m.staged && !(m.Judges(ev) && ev.cable == Some(1))
              case _ => m.staged
  {
  }

  /** What decides about a staged start is what the entries say. */
  ghost predicate StagedAlike(j: seq<Entry>, n: nat, m: Mon) {
    n <= |j| && m.staged == StagedAt(j, n) && m.flying == InFlight(j, n) && m.intent == IntentAt(j, n)
  }

  lemma StagedMoves(j: seq<Entry>, n: nat, m: Mon)
    requires 0 < n <= |j| && StagedAlike(j, n - 1, m)
    ensures Step(m, j[n - 1]).staged == StagedAt(j, n)
  {
    StagedStep(m, j[n - 1]);
  }

  lemma {:induction false} StagedIsHistory(j: seq<Entry>, n: nat, grace: real)
    requires Accepted(j, grace) && n <= |j|
    ensures StagedAlike(j, n, At(j, n, grace))
  {
    FlyingIsHistory(j, n, grace);
    IntentIsHistory(j, n, grace);
    if n > 0 {
      StagedIsHistory(j, n - 1, grace);
      StagedMoves(j, n, At(j, n - 1, grace));
    }
  }

  lemma OwedAfterCheck(m: Mon, ev: Evidence)
    ensures Step(m, SessionChecked(ev)).owed.SessionEnd? <==> m.Outlives(ev)
    ensures Step(m, SessionChecked(ev)).owed in {SessionEnd, Nothing}
    ensures Step(m, SessionChecked(ev)).intent == m.intent
  {
  }

  lemma SessionEndIsOwed(m: Mon, e: Entry)
    requires Permitted(m, e)
    ensures m.owed.SessionEnd? <==> e == Changed(SessionEnded, m.intent.Next().(enabled := false))
    ensures e.Changed? && e.cause == SessionEnded ==> m.owed.SessionEnd?
  {
  }

  /** The check at c saw that the enable outlived its session: a valid frame without a
      session, an intent that permits output, no explicit enable in flight and no start
      staged for the next plug. */
  predicate OutlivesAt(j: seq<Entry>, c: nat)
    requires c < |j|
  {
    j[c].SessionChecked? && j[c].ev.Valid() && !j[c].ev.SessionActive() && JudgedAt(j, c) && !StagedAt(j, c)
  }

  /** A session check is followed at once by the end of the enable exactly if the enable
      outlived its session: no explicit enable in flight and none staged for the next plug
      answers for it. */
  lemma EndedSessionIsRevoked(j: seq<Entry>, c: nat, grace: real)
    requires Accepted(j, grace) && c + 1 < |j| && j[c].SessionChecked?
    ensures OutlivesAt(j, c) <==> j[c + 1] == Changed(SessionEnded, IntentAt(j, c).Next().(enabled := false))
    ensures OutlivesAt(j, c) <==> j[c + 1].Changed? && j[c + 1].cause == SessionEnded
  {
    StateIsHistory(j, c, grace);
    FlyingIsHistory(j, c, grace);
    StagedIsHistory(j, c, grace);
    OwedAfterCheck(At(j, c, grace), j[c].ev);
    assert PermittedAt(j, c + 1, grace);
    SessionEndIsOwed(At(j, c + 1, grace), j[c + 1]);
  }

  // ---- operations go all their way -------------------------------------------------

  /** What an operation begun at k is known to have begun with. */
  ghost predicate BeganAs(r: Running, j: seq<Entry>, k: nat, grace: real)
    requires k < |j|
  {
    && j[k].Began? && r.op == j[k].op
    && r == At(j, k, grace).Opening(j[k].op).(
              frame := r.frame, frameEnables := r.frameEnables, checked := r.checked, tracked := r.tracked,
              decided := r.decided, revoked := r.revoked, concluded := r.concluded)
  }

  lemma RunGoesOn(m: Mon, e: Entry)
    requires m.run.Some? && !e.Began? && !e.Ended?
    ensures Step(m, e).run.Some?
    ensures var r, q := m.run.value, Step(m, e).run.value;
            && q.op == r.op && q.asked == r.asked && q.pause == r.pause
            && q.enables == r.enables && q.commands == r.commands
  {
  }

  lemma StepIsRecorded(m: Mon, e: Entry)
    requires m.run.Some? && !e.Began? && !e.Ended?
    ensures Step(m, e).run.Some?
    ensures var r, q := m.run.value, Step(m, e).run.value;
            && q.checked == (r.checked || e.SessionChecked?)
            && q.tracked == (r.tracked || e.Tracked?)
            && q.decided == (r.decided || e.Decided? || e.Held?)
            && q.revoked == (r.revoked || (e.Changed? && e.cause == Revoked))
            && q.concluded == (r.concluded || e.Linked? || e.Reported?)
  {
    match e
    case Changed(cause, intent) =>
    case Frame(ev) =>
    case _ =>
  }

  lemma RunStarts(m: Mon, op: Op)
    ensures Step(m, Began(op)).run == Some(m.Opening(op))
  {
  }

  lemma {:induction false} RunBegan(j: seq<Entry>, k: nat, n: nat, grace: real)
    requires n <= |j| && SameOperation(j, k, n)
    ensures At(j, n, grace).run.Some? && BeganAs(At(j, n, grace).run.value, j, k, grace)
    decreases n
  {
    if n == k + 1 {
      RunStarts(At(j, k, grace), j[k].op);
    } else {
      RunBegan(j, k, n - 1, grace);
      RunGoesOn(At(j, n - 1, grace), j[n - 1]);
    }
  }

  predicate IsDecision(e: Entry) {
    e.Decided? || e.Held?
  }

  predicate IsConclusion(e: Entry) {
    e.Linked? || e.Reported?
  }

  predicate IsRevocation(e: Entry) {
    e.Changed? && e.cause == Revoked
  }

  /** Every step the running operation k has behind it is in the journal. */
  ghost predicate Went(j: seq<Entry>, k: nat, n: nat, r: Running) {
    && n <= |j|
    && (r.checked ==> exists x :: k < x < n && j[x].SessionChecked?)
    && (r.tracked ==> exists x :: k < x < n && j[x].Tracked?)
    && (r.decided ==> exists x :: k < x < n && IsDecision(j[x]))
    && (r.revoked ==> exists x :: k < x < n && IsRevocation(j[x]))
    && (r.concluded ==> exists x :: k < x < n && IsConclusion(j[x]))
  }

  lemma {:induction false} StepsHappened(j: seq<Entry>, k: nat, n: nat, grace: real)
    requires n <= |j| && SameOperation(j, k, n)
    ensures At(j, n, grace).run.Some? && Went(j, k, n, At(j, n, grace).run.value)
    decreases n
  {
    if n == k + 1 {
      RunStarts(At(j, k, grace), j[k].op);
    } else {
      StepsHappened(j, k, n - 1, grace);
      StepIsRecorded(At(j, n - 1, grace), j[n - 1]);
    }
  }

  /** Entry x of the operation begun at k was made on frame f. */
  ghost predicate MadeOn(j: seq<Entry>, k: nat, f: nat, x: nat) {
    && k < f < x < |j| && RestsOn(j, k, f, x)
    && match j[x]
       case SessionChecked(ev) => ev == j[f].ev
       case Tracked(look) => look.ev == j[f].ev
       case Linked(seen) => seen.ev == j[f].ev
       case _ => true
  }

  /** Session checks, cable looks and link checks are about the operation's own frame. */
  lemma JudgedOnItsFrame(j: seq<Entry>, k: nat, x: nat, grace: real)
    requires Accepted(j, grace) && x < |j| && SameOperation(j, k, x)
    requires j[x].SessionChecked? || j[x].Tracked? || j[x].Linked?
    ensures exists f: nat :: MadeOn(j, k, f, x)
  {
    assert PermittedAt(j, x, grace);
    OperationMeans(j, x, grace);
    var m := At(j, x, grace);
    SeesItsFrame(m, j[x]);
    var q: nat :| Runs(j, x, q, m.run.value, m.enables);
    assert q == k by {
      assert !(q < k) && !(k < q);
    }
    var f: nat :| RestsOn(j, k, f, x) && FrameIs(j, x, f, m.run.value, m.enables);
    assert MadeOn(j, k, f, x);
  }

  lemma SeesItsFrame(m: Mon, e: Entry)
    requires Permitted(m, e)
    ensures e.SessionChecked? ==> m.Sees(e.ev)
    ensures e.Tracked? ==> m.Sees(e.look.ev)
    ensures e.Linked? ==> m.Sees(e.seen.ev)
  {
  }

  /** The refresh begun at k looked, checked the session and the cable, decided and
      checked the link, in that order and on the one frame it opened with. */
  ghost predicate WentThrough(j: seq<Entry>, f: nat, e: nat) {
    exists c: nat, t: nat, d: nat, l: nat :: InOrder(j, f, c, t, d, l, e)
  }

  ghost predicate InOrder(j: seq<Entry>, f: nat, c: nat, t: nat, d: nat, l: nat, e: nat) {
    && f < c < t < d < l < e <= |j|
    && j[f].Frame?
    && j[c].SessionChecked? && j[c].ev == j[f].ev
    && j[t].Tracked? && j[t].look.ev == j[f].ev
    && IsDecision(j[d])
    && j[l].Linked? && j[l].seen.Refreshed? && j[l].seen.ev == j[f].ev
  }

  /** Or it withdrew the enable after the session check, and that failed. */
  ghost predicate WasCutShort(j: seq<Entry>, k: nat, f: nat, e: nat) {
    exists c: nat, x: nat, l: nat :: CutAt(j, k, f, c, x, l, e)
  }

  ghost predicate CutAt(j: seq<Entry>, k: nat, f: nat, c: nat, x: nat, l: nat, e: nat) {
    && f < c < l < e <= |j| && k < x < l
    && j[f].Frame?
    && j[c].SessionChecked? && j[c].ev == j[f].ev
    && IsRevocation(j[x])
    && j[l] == Linked(LinkHealth.CutShort(j[f].ev))
  }

  lemma ConclusionOfRefresh(m: Mon, e: Entry)
    requires Permitted(m, e) && (m.In(Refresh) || m.In(Poll)) && IsConclusion(e)
    ensures e.Linked? && (e.seen.Polled? <==> m.In(Poll))
    ensures e.seen.Refreshed? ==> m.run.value.decided
    ensures e.seen.CutShort? ==> m.run.value.checked && m.run.value.revoked
  {
  }

  lemma DecisionOfRefresh(m: Mon, e: Entry)
    requires Permitted(m, e) && IsDecision(e)
    ensures m.In(Refresh) && m.run.value.tracked
  {
  }

  lemma TrackedAfterCheck(m: Mon, e: Entry)
    requires Permitted(m, e) && e.Tracked?
    ensures m.run.Some? && m.run.value.checked
  {
  }

  /** A refresh or a poll that ends has checked the link on its frame. */
  lemma ConcludedOn(j: seq<Entry>, k: nat, e: nat, grace: real) returns (f: nat, l: nat)
    requires Accepted(j, grace) && e < |j| && SameOperation(j, k, e)
    requires j[k] in {Began(Refresh), Began(Poll)} && j[e].Ended?
    ensures k < l < e && MadeOn(j, k, f, l) && j[l].Linked? && (j[l].seen.Polled? <==> j[k] == Began(Poll))
  {
    RunBegan(j, k, e, grace);
    StepsHappened(j, k, e, grace);
    assert PermittedAt(j, e, grace);
    EndsConcluded(At(j, e, grace));
    l :| k < l < e && IsConclusion(j[l]);
    RunBegan(j, k, l, grace);
    assert PermittedAt(j, l, grace);
    ConclusionOfRefresh(At(j, l, grace), j[l]);
    JudgedOnItsFrame(j, k, l, grace);
    f :| MadeOn(j, k, f, l);
  }

  lemma EndsConcluded(m: Mon)
    requires Permitted(m, Ended) && (m.In(Refresh) || m.In(Poll))
    ensures m.run.value.concluded
    ensures m.In(Poll) ==> m.run.value.checked && (m.run.value.tracked || m.run.value.revoked)
  {
  }

  /** Every poll that ends has checked the link and the session, both on its own frame, and
      tracked the cable on it, unless it withdrew the enable. */
  lemma PollIsWhole(j: seq<Entry>, k: nat, e: nat, grace: real) returns (f: nat, l: nat, c: nat)
    requires Accepted(j, grace) && e < |j| && SameOperation(j, k, e)
    requires j[k] == Began(Poll) && j[e].Ended?
    ensures RestsOn(j, k, f, e) && f < l < e && f < c < e
    ensures j[l].Linked? && j[l].seen.Polled? && j[l].seen.ev == j[f].ev
    ensures j[c].SessionChecked? && j[c].ev == j[f].ev
    ensures exists x :: k < x < e && (IsRevocation(j[x]) || (j[x].Tracked? && j[x].look.ev == j[f].ev))
  {
    f, l := ConcludedOn(j, k, e, grace);
    c := PollChecked(j, k, f, e, grace);
    PollTracked(j, k, f, e, grace);
  }

  lemma PollChecked(j: seq<Entry>, k: nat, f: nat, e: nat, grace: real) returns (c: nat)
    requires Accepted(j, grace) && e < |j| && SameOperation(j, k, e) && RestsOn(j, k, f, e)
    requires j[k] == Began(Poll) && j[e].Ended?
    ensures f < c < e && j[c].SessionChecked? && j[c].ev == j[f].ev
  {
    StepsHappened(j, k, e, grace);
    RunBegan(j, k, e, grace);
    assert PermittedAt(j, e, grace);
    EndsConcluded(At(j, e, grace));
    c :| k < c < e && j[c].SessionChecked?;
    JudgedOnItsFrame(j, k, c, grace);
    var g: nat :| MadeOn(j, k, g, c);
    assert g == f;
  }

  lemma PollTracked(j: seq<Entry>, k: nat, f: nat, e: nat, grace: real)
    requires Accepted(j, grace) && e < |j| && SameOperation(j, k, e) && RestsOn(j, k, f, e)
    requires j[k] == Began(Poll) && j[e].Ended?
    ensures exists x :: k < x < e && (IsRevocation(j[x]) || (j[x].Tracked? && j[x].look.ev == j[f].ev))
  {
    StepsHappened(j, k, e, grace);
    RunBegan(j, k, e, grace);
    assert PermittedAt(j, e, grace);
    EndsConcluded(At(j, e, grace));
    if At(j, e, grace).run.value.revoked {
      var x :| k < x < e && IsRevocation(j[x]);
    } else {
      var t: nat :| k < t < e && j[t].Tracked?;
      JudgedOnItsFrame(j, k, t, grace);
      var g: nat :| MadeOn(j, k, g, t);
      assert g == f;
    }
  }

  /** Every refresh that ends has gone all its way, or a failed withdrawal of the enable
      cut it short. */
  lemma RefreshIsWhole(j: seq<Entry>, k: nat, e: nat, grace: real)
    requires Accepted(j, grace) && e < |j| && SameOperation(j, k, e)
    requires j[k] == Began(Refresh) && j[e].Ended?
    ensures exists f: nat :: RestsOn(j, k, f, e) && (WentThrough(j, f, e) || WasCutShort(j, k, f, e))
  {
    var f, l := ConcludedOn(j, k, e, grace);
    assert RestsOn(j, k, f, e);
    if j[l].seen.Refreshed? {
      RefreshWentThrough(j, k, f, l, e, grace);
    } else {
      RefreshWasCut(j, k, f, l, e, grace);
    }
  }

  lemma RefreshWasCut(j: seq<Entry>, k: nat, f: nat, l: nat, e: nat, grace: real)
    requires Accepted(j, grace) && l < e < |j| && SameOperation(j, k, e)
    requires j[k] == Began(Refresh) && MadeOn(j, k, f, l)
    requires j[l].Linked? && j[l].seen.CutShort?
    ensures WasCutShort(j, k, f, e)
  {
    assert SameOperation(j, k, l);
    RunBegan(j, k, l, grace);
    StepsHappened(j, k, l, grace);
    assert PermittedAt(j, l, grace);
    ConclusionOfRefresh(At(j, l, grace), j[l]);
    var x: nat :| k < x < l && IsRevocation(j[x]);
    var c: nat :| k < c < l && j[c].SessionChecked?;
    OnTheSameFrame(j, k, f, c, l, grace);
    assert CutAt(j, k, f, c, x, l, e);
  }

  /** A refresh never changes the frame it rests on. */
  lemma OnTheSameFrame(j: seq<Entry>, k: nat, f: nat, x: nat, n: nat, grace: real)
    requires Accepted(j, grace) && x < n < |j| && SameOperation(j, k, n) && k < x
    requires j[k] == Began(Refresh) && RestsOn(j, k, f, n)
    requires j[x].SessionChecked? || j[x].Tracked? || j[x].Linked?
    ensures MadeOn(j, k, f, x)
  {
    JudgedOnItsFrame(j, k, x, grace);
    var g: nat :| MadeOn(j, k, g, x);
    assert g == f;
  }

  lemma RefreshWentThrough(j: seq<Entry>, k: nat, f: nat, l: nat, e: nat, grace: real)
    requires Accepted(j, grace) && l < e < |j| && SameOperation(j, k, e)
    requires j[k] == Began(Refresh) && MadeOn(j, k, f, l)
    requires j[l].Linked? && j[l].seen.Refreshed?
    ensures WentThrough(j, f, e)
  {
    assert SameOperation(j, k, l);
    DecisionBefore(j, k, l, grace);
    var d: nat :| k < d < l && IsDecision(j[d]);
    TrackBefore(j, k, d, grace);
    var t: nat :| k < t < d && j[t].Tracked?;
    CheckBefore(j, k, t, grace);
    var c: nat :| k < c < t && j[c].SessionChecked?;
    OnTheSameFrame(j, k, f, c, l, grace);
    OnTheSameFrame(j, k, f, t, l, grace);
    assert InOrder(j, f, c, t, d, l, e);
  }

  lemma DecisionBefore(j: seq<Entry>, k: nat, l: nat, grace: real)
    requires Accepted(j, grace) && l < |j| && SameOperation(j, k, l) && j[k] == Began(Refresh)
    requires j[l].Linked? && j[l].seen.Refreshed?
    ensures exists d: nat :: k < d < l && IsDecision(j[d])
  {
    RunBegan(j, k, l, grace);
    StepsHappened(j, k, l, grace);
    assert PermittedAt(j, l, grace);
    ConclusionOfRefresh(At(j, l, grace), j[l]);
  }

  lemma TrackBefore(j: seq<Entry>, k: nat, d: nat, grace: real)
    requires Accepted(j, grace) && d < |j| && SameOperation(j, k, d) && IsDecision(j[d])
    ensures exists t: nat :: k < t < d && j[t].Tracked?
  {
    StepsHappened(j, k, d, grace);
    assert PermittedAt(j, d, grace);
    DecisionOfRefresh(At(j, d, grace), j[d]);
  }

  lemma CheckBefore(j: seq<Entry>, k: nat, t: nat, grace: real)
    requires Accepted(j, grace) && t < |j| && SameOperation(j, k, t) && j[t].Tracked?
    ensures exists c: nat :: k < c < t && j[c].SessionChecked?
  {
    StepsHappened(j, k, t, grace);
    assert PermittedAt(j, t, grace);
    TrackedAfterCheck(At(j, t, grace), j[t]);
  }
  // ---- a hold that is over ---------------------------------------------------------

  lemma ClockStep(m: Mon, e: Entry)
    ensures Step(m, e).clock >= m.clock
    ensures e.Frame? ==> Step(m, e).clock >= e.ev.at
  {
  }

  lemma {:induction false} ClockRuns(j: seq<Entry>, f: nat, n: nat, grace: real)
    requires f < n <= |j| && j[f].Frame?
    ensures At(j, n, grace).clock >= j[f].ev.at
    decreases n
  {
    ClockStep(At(j, n - 1, grace), j[n - 1]);
    if f < n - 1 {
      ClockRuns(j, f, n - 1, grace);
    }
  }

  /** The telemetry protection that a held refresh saw lasts as long as its hold. */
  lemma {:induction false} ProtectionPersists(j: seq<Entry>, a: nat, b: nat, grace: real)
    requires Accepted(j, grace) && Unended(j, a, b, grace) && j[a].Held?
    ensures Telemetry.Protected(Frames(j, b), grace)
    decreases b
  {
    if a < b - 1 {
      ProtectionPersists(j, a, b - 1, grace);
      assert !EndsHold(j, b - 1, grace);
    } else {
      assert PermittedAt(j, a, grace);
      StateIsHistory(j, a, grace);
      Telemetry.ProtectionIsHistorical(Frames(j, a), grace);
      assert Frames(j, b) == Frames(j, a);
    }
  }

  lemma HoldIsStamped(m: Mon, e: Entry)
    requires Permitted(m, e) && e.Held?
    ensures e.at >= m.clock
  {
  }

  /** A refresh whose frame arrives the telemetry grace after the hold began, with nothing
      confirmed and the protection still on, is not held: it writes the protective zero
      (unless Stop or the unplug release silences the setpoints). */
  lemma OverdueHoldGivesZero(j: seq<Entry>, a: nat, f: nat, d: nat, grace: real)
    requires Accepted(j, grace)
    requires a < f < d && d + 1 < |j|
    requires j[a].Held? && Unended(j, a, d, grace) && IsDecision(j[d])
    requires j[f].Frame? && j[f].ev.at >= j[a].at + grace
    ensures j[d].Decided?
    ensures || IntentAt(j, d).stop || Unplug.Run(Looks(j, d)).released
            || j[d + 1] == Wrote(REG_MAX_CHARGING_POWER, 0)
  {
    if j[d].Held? {
      HoldIsBounded(j, a, d, grace);
      ClockRuns(j, f, d, grace);
      assert PermittedAt(j, d, grace);
      HoldIsStamped(At(j, d, grace), j[d]);
      assert false;
    }
    ProtectionPersists(j, a, d, grace);
    if WireAt(j, d, grace) == ZERO {
      ZeroDecisionIsWritten(j, d, grace);
    }
  }

  // ---- the safety configuration comes first ----------------------------------------

  /** No explicit enable is accepted while the safety configuration is unconfirmed. */
  lemma EnableNeedsSafety(j: seq<Entry>, i: nat, grace: real)
    requires Accepted(j, grace) && i < |j| && IsEnable(j[i])
    ensures !SafetyPendingAt(j, i) && ReadyAt(j, i)
  {
    assert PermittedAt(j, i, grace);
    StateIsHistory(j, i, grace);
  }

  predicate SafeValidity(e: Entry) {
    e.ReadBack? && e.register == REG_TIME_VALIDITY && e.result.Some? && 0 < e.result.value <= MAX_FIXED_VALIDITY
  }

  predicate SafeFallback(e: Entry) {
    e == ReadBack(REG_DEFAULT_CURRENT, Some(SAFETY_FALLBACK_CURRENT_RAW))
  }

  lemma ProofStep(m: Mon, e: Entry)
    ensures Step(m, e).proof ==
              if e.Began? then UNPROVEN
              else if e.ReadBack? then m.Proven(e.register, e.result)
              else m.proof
  {
  }

  lemma {:induction false} ProofMeans(j: seq<Entry>, k: nat, n: nat, grace: real)
    requires n <= |j| && SameOperation(j, k, n)
    ensures var p := At(j, n, grace).proof;
            && (p.validity ==> exists x :: k < x < n && SafeValidity(j[x]))
            && (p.fallback ==> exists x :: k < x < n && SafeFallback(j[x]))
    decreases n
  {
    ProofStep(At(j, n - 1, grace), j[n - 1]);
    if k < n - 1 {
      ProofMeans(j, k, n - 1, grace);
    }
  }

  lemma ConfirmationIsProven(m: Mon)
    requires Permitted(m, SafetyConfirmed)
    ensures m.proof.Complete()
  {
  }

  /** The safety configuration counts as confirmed only after, in the same operation, a
      validity of at most 180 s and the 6 A fallback were both read back. */
  lemma SafetyNeedsReadBack(j: seq<Entry>, i: nat, grace: real)
    requires Accepted(j, grace) && i < |j| && j[i].SafetyConfirmed?
    ensures exists k: nat, x: nat, y: nat ::
              && SameOperation(j, k, i) && k < x < i && k < y < i
              && SafeValidity(j[x]) && SafeFallback(j[y])
  {
    assert PermittedAt(j, i, grace);
    var m := At(j, i, grace);
    ConfirmationIsProven(m);
    OperationMeans(j, i, grace);
    var k: nat :| Runs(j, i, k, m.run.value, m.enables);
    ProofMeans(j, k, i, grace);
    var x: nat :| k < x < i && SafeValidity(j[x]);
    var y: nat :| k < y < i && SafeFallback(j[y]);
    assert SameOperation(j, k, i);
  }
}
