/**
  What the result of an apply can be relied on for: a confirmed pause, a confirmed or
  staged start, a failed start.
 */
module Reports {
  import opened Prelude
  import opened Evidence
  import opened Intents
  import opened Journal
  import opened JournalTheorems
  import opened Obligations

  /** No command changed the intent among entries a..b-1. */
  ghost predicate NoCommand(j: seq<Entry>, a: nat, b: nat) {
    a <= b <= |j| && forall x :: a <= x < b ==> !(j[x].Changed? && IsCommand(j[x].cause))
  }

  lemma CountStep(m: Mon, e: Entry)
    ensures Step(m, e).enables == m.enables + if IsEnable(e) then 1 else 0
    ensures Step(m, e).commands == m.commands + if e.Changed? && IsCommand(e.cause) then 1 else 0
  {
  }

  lemma {:induction false} CountsStay(j: seq<Entry>, a: nat, b: nat, grace: real)
    requires a <= b <= |j|
    ensures NoEnable(j, a, b) ==> At(j, b, grace).enables == At(j, a, grace).enables
    ensures NoCommand(j, a, b) ==> At(j, b, grace).commands == At(j, a, grace).commands
    decreases b
  {
    if a < b {
      CountsStay(j, a, b - 1, grace);
      CountStep(At(j, b - 1, grace), j[b - 1]);
    }
  }

  // ---- a confirmed pause -----------------------------------------------------------

  predicate IsZero(e: Entry) {
    e == Wrote(REG_MAX_CHARGING_POWER, 0)
  }

  predicate IsOutput(e: Entry) {
    e.Wrote? && e.address == REG_MAX_CHARGING_POWER && e.value > 0
  }

  predicate IsStop(e: Entry) {
    e.Wrote? && e.address == REG_CHARGING_CONTROL
  }

  predicate IsZeroBack(e: Entry) {
    e == ReadBack(REG_MAX_CHARGING_POWER, Some(0))
  }

  /** Zero was written at w, read back at r, and no output was written since w. */
  ghost predicate ZeroHeld(j: seq<Entry>, k: nat, w: nat, r: nat, n: nat) {
    && k < w < r < n <= |j|
    && IsZero(j[w]) && IsZeroBack(j[r])
    && forall x :: w < x < n ==> !IsOutput(j[x])
  }

  ghost predicate ZeroSent(j: seq<Entry>, k: nat, w: nat, n: nat) {
    && k < w < n <= |j| && IsZero(j[w])
    && forall x :: w < x < n ==> !IsOutput(j[x])
  }

  /** The state a quiet charger must show: stricter once Stop had to be sent. */
  predicate Calm(ev: Evidence, stopped: bool) {
    if stopped then ev.StoppedQuiet() else ev.PausedQuiet()
  }

  /** From the frame a on, every frame is calm. */
  ghost predicate CalmSince(j: seq<Entry>, a: nat, n: nat, stopped: bool) {
    && a < n <= |j| && j[a].Frame?
    && forall x :: a <= x < n && j[x].Frame? ==> Calm(j[x].ev, stopped)
  }

  /** Stop was written before entry a (when it had to be). */
  ghost predicate StoppedBefore(j: seq<Entry>, k: nat, a: nat, stopped: bool) {
    a <= |j| && (stopped ==> exists s :: k < s < a && IsStop(j[s]))
  }

  /** The evidence behind `Settling`, read off the entries. */
  ghost predicate Window(j: seq<Entry>, k: nat, n: nat, q: Settling, w: nat, r: nat, a: nat) {
    && ZeroHeld(j, k, w, r, n) && r < a < n && CalmSince(j, a, n, q.stopSent)
    && StoppedBefore(j, k, a, q.stopSent)
    && q.since == Some(j[a].ev.at)
  }

  ghost predicate LastFrame(j: seq<Entry>, b: nat, n: nat) {
    b < n <= |j| && j[b].Frame? && forall x :: b < x < n ==> !j[x].Frame?
  }

  ghost predicate Spans(j: seq<Entry>, a: nat, b: nat) {
    a <= b < |j| && j[a].Frame? && j[b].Frame? && j[b].ev.at - j[a].ev.at >= OBSERVATION_GAP
  }

  ghost predicate SettlingMeans(j: seq<Entry>, k: nat, n: nat, q: Settling) {
    && n <= |j|
    && (q.zeroSent ==> exists w: nat :: ZeroSent(j, k, w, n))
    && (q.zeroBack ==> exists w: nat, r: nat :: ZeroHeld(j, k, w, r, n))
    && StoppedBefore(j, k, n, q.stopSent)
    && (q.since.Some? ==> exists w: nat, r: nat, a: nat :: Window(j, k, n, q, w, r, a))
    && (q.settled ==> q.zeroBack && q.since.Some? && SettledOn(j, n, q))
  }

  /** The last frame came a second or more after the quiet began. */
  ghost predicate SettledOn(j: seq<Entry>, n: nat, q: Settling)
    requires q.since.Some?
  {
    exists b: nat :: LastFrame(j, b, n) && j[b].ev.at - q.since.value >= OBSERVATION_GAP
  }

  lemma QuietStep(m: Mon, e: Entry)
    ensures Step(m, e).quiet ==
              match e
              case Began(_) => UNSETTLED
              case Frame(ev) => m.quiet.See(ev)
              case Wrote(address, value) => m.quiet.Write(address, value)
              case ReadBack(register, result) => m.quiet.Read(register, result)
              case _ => m.quiet
  {
  }

  lemma {:induction false} SettlingIsHistory(j: seq<Entry>, k: nat, n: nat, grace: real)
    requires n <= |j| && SameOperation(j, k, n)
    ensures SettlingMeans(j, k, n, At(j, n, grace).quiet)
    decreases n
  {
    QuietStep(At(j, n - 1, grace), j[n - 1]);
    if k < n - 1 {
      SettlingIsHistory(j, k, n - 1, grace);
      var q := At(j, n - 1, grace).quiet;
      match j[n - 1]
      case Frame(_) => SeeMeans(j, k, n, q);
      case Wrote(_, _) => WriteMeans(j, k, n, q);
      case ReadBack(_, _) => ReadMeans(j, k, n, q);
      case _ => OtherMeans(j, k, n, q);
    }
  }

  /** Zeroes, read-backs and Stops stay where they are as entries are added. */
  lemma ZerosStay(j: seq<Entry>, k: nat, n: nat, q: Settling)
    requires 0 < n <= |j| && SettlingMeans(j, k, n - 1, q) && !IsOutput(j[n - 1])
    ensures q.zeroSent ==> exists w: nat :: ZeroSent(j, k, w, n)
    ensures q.zeroBack ==> exists w: nat, r: nat :: ZeroHeld(j, k, w, r, n)
    ensures StoppedBefore(j, k, n, q.stopSent)
  {
    if q.zeroSent {
      var w: nat :| ZeroSent(j, k, w, n - 1);
      assert ZeroSent(j, k, w, n);
    }
    if q.zeroBack {
      var w: nat, r: nat :| ZeroHeld(j, k, w, r, n - 1);
      assert ZeroHeld(j, k, w, r, n);
    }
    if q.stopSent {
      var s :| k < s < n - 1 && IsStop(j[s]);
    }
  }

  lemma WindowStays(j: seq<Entry>, k: nat, n: nat, q: Settling)
    requires 0 < n <= |j| && SettlingMeans(j, k, n - 1, q) && !IsOutput(j[n - 1])
    requires q.since.Some? && (j[n - 1].Frame? ==> Calm(j[n - 1].ev, q.stopSent))
    ensures exists w: nat, r: nat, a: nat :: Window(j, k, n, q, w, r, a)
  {
    var w: nat, r: nat, a: nat :| Window(j, k, n - 1, q, w, r, a);
    assert Window(j, k, n, q, w, r, a);
  }

  lemma OtherMeans(j: seq<Entry>, k: nat, n: nat, q: Settling)
    requires 0 < n <= |j| && SettlingMeans(j, k, n - 1, q)
    requires !j[n - 1].Frame? && !j[n - 1].Wrote?
    ensures SettlingMeans(j, k, n, q)
  {
    ZerosStay(j, k, n, q);
    if q.since.Some? { WindowStays(j, k, n, q); }
    if q.settled {
      var b: nat :| LastFrame(j, b, n - 1) && j[b].ev.at - q.since.value >= OBSERVATION_GAP;
      assert LastFrame(j, b, n);
    }
  }

  lemma ReadMeans(j: seq<Entry>, k: nat, n: nat, q: Settling)
    requires 0 < n <= |j| && SettlingMeans(j, k, n - 1, q) && j[n - 1].ReadBack?
    ensures SettlingMeans(j, k, n, q.Read(j[n - 1].register, j[n - 1].result))
  {
    OtherMeans(j, k, n, q);
    if q.Read(j[n - 1].register, j[n - 1].result) != q {
      var w: nat :| ZeroSent(j, k, w, n - 1);
      assert ZeroHeld(j, k, w, n - 1, n);
    }
  }

  lemma WriteMeans(j: seq<Entry>, k: nat, n: nat, q: Settling)
    requires 0 < n <= |j| && k < n - 1 && SettlingMeans(j, k, n - 1, q) && j[n - 1].Wrote?
    ensures SettlingMeans(j, k, n, q.Write(j[n - 1].address, j[n - 1].value))
  {
    var p := q.Write(j[n - 1].address, j[n - 1].value);
    if IsOutput(j[n - 1]) {
      StopStays(j, k, n, q);
    } else {
      ZerosStay(j, k, n, q);
      if IsZero(j[n - 1]) { assert ZeroSent(j, k, n - 1, n); }
      if p.since.Some? {
        WindowAfterWrite(j, k, n, q, p);
      }
    }
  }

  lemma StopStays(j: seq<Entry>, k: nat, n: nat, q: Settling)
    requires 0 < n <= |j| && SettlingMeans(j, k, n - 1, q)
    ensures StoppedBefore(j, k, n, q.stopSent)
  {
    if q.stopSent {
      var s :| k < s < n - 1 && IsStop(j[s]);
    }
  }

  lemma WindowAfterWrite(j: seq<Entry>, k: nat, n: nat, q: Settling, p: Settling)
    requires 0 < n <= |j| && SettlingMeans(j, k, n - 1, q) && j[n - 1].Wrote? && !IsOutput(j[n - 1])
    requires q.since.Some? && p == q.(zeroSent := p.zeroSent)
    ensures exists w: nat, r: nat, a: nat :: Window(j, k, n, p, w, r, a)
    ensures p.settled ==> SettledOn(j, n, p)
  {
    WindowStays(j, k, n, q);
    var w: nat, r: nat, a: nat :| Window(j, k, n, q, w, r, a);
    assert Window(j, k, n, p, w, r, a);
    if q.settled {
      var b: nat :| LastFrame(j, b, n - 1) && j[b].ev.at - q.since.value >= OBSERVATION_GAP;
      assert LastFrame(j, b, n);
    }
  }

  lemma SeeMeans(j: seq<Entry>, k: nat, n: nat, q: Settling)
    requires 0 < n <= |j| && k < n - 1 && SettlingMeans(j, k, n - 1, q) && j[n - 1].Frame?
    ensures SettlingMeans(j, k, n, q.See(j[n - 1].ev))
  {
    var ev := j[n - 1].ev;
    ZerosStay(j, k, n, q);
    assert LastFrame(j, n - 1, n);
    if q.Quiet(ev) {
      if q.since.Some? {
        WindowSeen(j, k, n, q, q.See(ev));
      } else {
        WindowOpens(j, k, n, q, q.See(ev));
      }
    }
  }

  lemma WindowSeen(j: seq<Entry>, k: nat, n: nat, q: Settling, p: Settling)
    requires 0 < n <= |j| && SettlingMeans(j, k, n - 1, q) && j[n - 1].Frame?
    requires q.since.Some? && Calm(j[n - 1].ev, q.stopSent) && p == q.(settled := p.settled)
    ensures exists w: nat, r: nat, a: nat :: Window(j, k, n, p, w, r, a)
  {
    WindowStays(j, k, n, q);
    var w: nat, r: nat, a: nat :| Window(j, k, n, q, w, r, a);
    assert Window(j, k, n, p, w, r, a);
  }

  lemma WindowOpens(j: seq<Entry>, k: nat, n: nat, q: Settling, p: Settling)
    requires 0 < n <= |j| && SettlingMeans(j, k, n - 1, q) && j[n - 1].Frame?
    requires q.zeroBack && Calm(j[n - 1].ev, q.stopSent)
    requires p == q.(since := Some(j[n - 1].ev.at), settled := false)
    ensures exists w: nat, r: nat, a: nat :: Window(j, k, n, p, w, r, a)
  {
    var w: nat, r: nat :| ZeroHeld(j, k, w, r, n - 1);
    assert ZeroHeld(j, k, w, r, n);
    assert Window(j, k, n, p, w, r, n - 1);
  }

  /** What a confirmed pause rests on: zero written and then read back, no output written
      since, and after that calm frames only, a second or more of them, the last of them
      the latest frame of all; if Stop was sent, it was sent before they began and they
      are calm by the stricter measure. */
  ghost predicate PauseEvidence(j: seq<Entry>, k: nat, i: nat, w: nat, r: nat, a: nat, b: nat, stopped: bool) {
    && ZeroHeld(j, k, w, r, i) && r < a && CalmSince(j, a, i, stopped)
    && StoppedBefore(j, k, a, stopped)
    && LastFrame(j, b, i) && Spans(j, a, b)
  }

  lemma PauseReport(m: Mon)
    requires Permitted(m, Reported(Confirmed)) && m.run.Some?
    requires m.run.value.pause && m.commands == m.run.value.commands
    ensures m.quiet.settled
  {
  }

  /** A pause that is reported as confirmed, with no command interleaved, from a state
      neither released nor in Stop fallback, had its effect on the charger. */
  lemma ConfirmedPause(j: seq<Entry>, k: nat, i: nat, grace: real)
    requires Accepted(j, grace) && i < |j| && SameOperation(j, k, i)
    requires j[k] == Began(Apply) && j[i] == Reported(Confirmed) && NoCommand(j, k, i)
    requires WireAt(j, k, grace) == ZERO && IntentAt(j, k).ExplicitZero()
    ensures exists w: nat, r: nat, a: nat, b: nat, stopped: bool :: PauseEvidence(j, k, i, w, r, a, b, stopped)
  {
    WireIsHistory(j, k, grace);
    StateIsHistory(j, k, grace);
    RunBegan(j, k, i, grace);
    CountsStay(j, k, i, grace);
    assert PermittedAt(j, i, grace);
    PauseReport(At(j, i, grace));
    SettlingIsHistory(j, k, i, grace);
    WindowIsEvidence(j, k, i, At(j, i, grace).quiet);
  }

  lemma WindowIsEvidence(j: seq<Entry>, k: nat, i: nat, q: Settling)
    requires i <= |j| && SettlingMeans(j, k, i, q) && q.settled
    ensures exists w: nat, r: nat, a: nat, b: nat, stopped: bool :: PauseEvidence(j, k, i, w, r, a, b, stopped)
  {
    var w: nat, r: nat, a: nat :| Window(j, k, i, q, w, r, a);
    var b: nat :| LastFrame(j, b, i) && j[b].ev.at - q.since.value >= OBSERVATION_GAP;
    assert PauseEvidence(j, k, i, w, r, a, b, q.stopSent);
  }

  // ---- starting --------------------------------------------------------------------

  lemma FailureReport(m: Mon)
    requires Permitted(m, Reported(Failed)) && m.run.Some?
    requires m.run.value.asked.Positive() && m.enables == m.run.value.enables
    ensures !m.Wire().Positive()
  {
  }

  /** A positive apply that raises, with no explicit enable interleaved, leaves an intent
      from which nothing positive derives. */
  lemma FailedStartLeavesNothing(j: seq<Entry>, k: nat, i: nat, grace: real)
    requires Accepted(j, grace) && i < |j| && SameOperation(j, k, i)
    requires j[k] == Began(Apply) && j[i] == Reported(Failed) && NoEnable(j, k, i)
    requires WireAt(j, k, grace).Positive()
    ensures !WireAt(j, i, grace).Positive()
  {
    WireIsHistory(j, k, grace);
    WireIsHistory(j, i, grace);
    RunBegan(j, k, i, grace);
    CountsStay(j, k, i, grace);
    assert PermittedAt(j, i, grace);
    FailureReport(At(j, i, grace));
  }

  // ---- a refresh that confirmed its writes -------------------------------------------

  lemma ZeroConfirmation(m: Mon, e: Entry)
    requires Permitted(m, e) && e.Linked? && e.seen.Refreshed? && e.seen.zeroConfirmed
    ensures m.quiet.zeroBack
  {
  }

  /** A refresh that counts as confirming its zero, for the release of a comms latch, wrote
      zero and read zero back, with no output written since. */
  lemma ConfirmedZero(j: seq<Entry>, k: nat, l: nat, grace: real)
    requires Accepted(j, grace) && l < |j| && SameOperation(j, k, l)
    requires j[l].Linked? && j[l].seen.Refreshed? && j[l].seen.zeroConfirmed
    ensures exists w: nat, r: nat :: ZeroHeld(j, k, w, r, l)
  {
    assert PermittedAt(j, l, grace);
    ZeroConfirmation(At(j, l, grace), j[l]);
    SettlingIsHistory(j, k, l, grace);
  }

  /** The write at x is followed by its read-back before entry n. */
  ghost predicate Answered(j: seq<Entry>, x: nat, n: nat) {
    && x < n <= |j| && j[x].Wrote?
    && exists y :: x < y < n && j[y] == ReadBack(j[x].address, Some(j[x].value))
  }

  /** w is the last write among the entries after d and before n. */
  ghost predicate LastWrite(j: seq<Entry>, d: nat, w: nat, n: nat) {
    d < w < n <= |j| && j[w].Wrote? && forall x :: w < x < n ==> !j[x].Wrote?
  }

  ghost predicate AnsweredAll(j: seq<Entry>, d: nat, n: nat, but: int) {
    n <= |j| && forall x: nat :: d < x < n && x != but && j[x].Wrote? ==> Answered(j, x, n)
  }

  /** What the tally says about the writes since entry d. */
  ghost predicate TallyMeans(j: seq<Entry>, d: nat, n: nat, t: Tally) {
    && d < n <= |j|
    && (t.last.None? ==> !t.open && !t.missed && AnsweredAll(j, d, n, -1))
    && (t.last.Some? ==> exists w: nat :: TallyOf(j, d, w, n, t))
  }

  ghost predicate TallyOf(j: seq<Entry>, d: nat, w: nat, n: nat, t: Tally) {
    && LastWrite(j, d, w, n) && t.last == Some((j[w].address, j[w].value))
    && (!t.missed ==> AnsweredAll(j, d, n, w))
    && (!t.open ==> Answered(j, w, n))
  }

  lemma AnswersStay(j: seq<Entry>, d: nat, n: nat, but: int)
    requires 0 < n <= |j| && d < n - 1 && AnsweredAll(j, d, n - 1, but) && !j[n - 1].Wrote?
    ensures AnsweredAll(j, d, n, but)
  {
    forall x: nat | d < x < n && x != but && j[x].Wrote? ensures Answered(j, x, n) {
      assert Answered(j, x, n - 1);
    }
  }

  lemma TallyIdle(j: seq<Entry>, d: nat, n: nat, t: Tally)
    requires 0 < n <= |j| && d < n - 1 && TallyMeans(j, d, n - 1, t) && !j[n - 1].Wrote?
    ensures TallyMeans(j, d, n, t)
  {
    if t.last.None? {
      AnswersStay(j, d, n, -1);
    } else {
      var w: nat :| TallyOf(j, d, w, n - 1, t);
      if !t.missed { AnswersStay(j, d, n, w); }
      assert TallyOf(j, d, w, n, t);
    }
  }

  lemma TallyRead(j: seq<Entry>, d: nat, n: nat, t: Tally)
    requires 0 < n <= |j| && d < n - 1 && TallyMeans(j, d, n - 1, t) && j[n - 1].ReadBack?
    ensures TallyMeans(j, d, n, t.Read(j[n - 1].register, j[n - 1].result))
  {
    TallyIdle(j, d, n, t);
    if t.last.Some? {
      var w: nat :| TallyOf(j, d, w, n, t);
      assert TallyOf(j, d, w, n, t.Read(j[n - 1].register, j[n - 1].result));
    }
  }

  lemma TallyWrite(j: seq<Entry>, d: nat, n: nat, t: Tally)
    requires 0 < n <= |j| && d < n - 1 && TallyMeans(j, d, n - 1, t) && j[n - 1].Wrote?
    ensures TallyMeans(j, d, n, t.Write(j[n - 1].address, j[n - 1].value))
  {
    var q := t.Write(j[n - 1].address, j[n - 1].value);
    if !q.missed {
      forall x: nat | d < x < n && x != n - 1 && j[x].Wrote? ensures Answered(j, x, n) {
        assert Answered(j, x, n - 1);
      }
    }
    assert TallyOf(j, d, n - 1, n, q);
  }

  lemma TallyStep(m: Mon, e: Entry)
    ensures Step(m, e).tally ==
              match e
              case Began(_) => NOTHING_SENT
              case Decided(_) => NOTHING_SENT
              case Held(_) => NOTHING_SENT
              case Wrote(address, value) => m.tally.Write(address, value)
              case ReadBack(register, result) => m.tally.Read(register, result)
              case _ => m.tally
  {
  }

  /** Entry d is the decision of the operation begun at k, or its beginning. */
  ghost predicate CountsFrom(j: seq<Entry>, k: nat, d: nat, n: nat) {
    && k <= d < n <= |j| && (d == k || IsDecision(j[d]))
    && forall x :: d < x < n ==> !IsDecision(j[x])
  }

  lemma {:induction false} TallyIsHistory(j: seq<Entry>, k: nat, n: nat, grace: real) returns (d: nat)
    requires n <= |j| && SameOperation(j, k, n)
    ensures CountsFrom(j, k, d, n) && TallyMeans(j, d, n, At(j, n, grace).tally)
    decreases n
  {
    TallyStep(At(j, n - 1, grace), j[n - 1]);
    if k == n - 1 || IsDecision(j[n - 1]) {
      d := n - 1;
    } else {
      d := TallyIsHistory(j, k, n - 1, grace);
      var t := At(j, n - 1, grace).tally;
      match j[n - 1]
      case Wrote(_, _) => TallyWrite(j, d, n, t);
      case ReadBack(_, _) => TallyRead(j, d, n, t);
      case _ => TallyIdle(j, d, n, t);
    }
  }

  lemma CleanIsRequired(m: Mon)
    requires Permitted(m, AllReadBack)
    ensures m.In(Refresh) && m.run.value.decided && m.tally.Clean()
  {
  }

  /** What ends a recovery hold: since its decision the refresh wrote something, and every
      write was read back with its own value. */
  lemma ConfirmedWrites(j: seq<Entry>, k: nat, i: nat, grace: real) returns (d: nat, w: nat)
    requires Accepted(j, grace) && i < |j| && SameOperation(j, k, i) && j[i].AllReadBack?
    ensures k < d < w < i && IsDecision(j[d]) && j[w].Wrote?
    ensures forall x: nat :: d < x < i && j[x].Wrote? ==> Answered(j, x, i)
  {
    assert PermittedAt(j, i, grace);
    CleanIsRequired(At(j, i, grace));
    d := TallyIsHistory(j, k, i, grace);
    StepsHappened(j, k, i, grace);
    var t := At(j, i, grace).tally;
    w :| TallyOf(j, d, w, i, t);
    var y: nat :| k < y < i && IsDecision(j[y]);
    forall x: nat | d < x < i && j[x].Wrote? ensures Answered(j, x, i) {
    }
  }

  // ---- a confirmed start -----------------------------------------------------------

  /** The operation begun at k wrote this setpoint at w and read it back at r, with no other
      write between. */
  ghost predicate SetpointBack(j: seq<Entry>, k: nat, register: nat, value: nat, w: nat, r: nat, n: nat) {
    && k < w < r < n <= |j|
    && j[w] == Wrote(register, value)
    && j[r] == ReadBack(register, Some(value))
    && forall x :: w < x < r ==> !j[x].Wrote?
  }

  predicate IsSetpoint(register: nat) {
    register == REG_MAX_CHARGING_POWER || register == REG_MAX_CHARGING_CURRENT
  }

  function Asked(wire: Wire, register: nat): Option<nat> {
    if register == REG_MAX_CHARGING_POWER then wire.power else wire.current
  }

  predicate Backs(p: Proof, register: nat) {
    if register == REG_MAX_CHARGING_POWER then p.output else p.current
  }

  lemma BackingStep(m: Mon, e: Entry, register: nat)
    requires Backs(Step(m, e).proof, register) && !e.Began? && m.run.Some? && IsSetpoint(register)
    ensures Backs(m.proof, register)
            || (&& e.ReadBack? && e.register == register && e.result.Some?
                && e.result == Asked(m.run.value.asked, register)
                && m.tally.last == Some((register, e.result.value)))
  {
    ProofStep(m, e);
  }

  ghost predicate WasBack(j: seq<Entry>, k: nat, register: nat, value: nat, n: nat) {
    exists w: nat, r: nat :: SetpointBack(j, k, register, value, w, r, n)
  }

  /** A setpoint the operation was started for counts as read back only if it was. */
  lemma {:induction false} BackingMeans(j: seq<Entry>, k: nat, register: nat, value: nat, n: nat, grace: real)
    requires n <= |j| && SameOperation(j, k, n) && IsSetpoint(register)
    requires Asked(At(j, k, grace).Wire(), register) == Some(value)
    ensures Backs(At(j, n, grace).proof, register) ==> WasBack(j, k, register, value, n)
    decreases n
  {
    ProofStep(At(j, n - 1, grace), j[n - 1]);
    if k < n - 1 && Backs(At(j, n, grace).proof, register) {
      RunBegan(j, k, n - 1, grace);
      BackingStep(At(j, n - 1, grace), j[n - 1], register);
      if Backs(At(j, n - 1, grace).proof, register) {
        BackingMeans(j, k, register, value, n - 1, grace);
        BackingStays(j, k, register, value, n);
      } else {
        SetpointShown(j, k, register, value, n, grace);
      }
    }
  }

  lemma BackingStays(j: seq<Entry>, k: nat, register: nat, value: nat, n: nat)
    requires 0 < n <= |j| && WasBack(j, k, register, value, n - 1)
    ensures WasBack(j, k, register, value, n)
  {
    var w: nat, r: nat :| SetpointBack(j, k, register, value, w, r, n - 1);
    assert SetpointBack(j, k, register, value, w, r, n);
  }

  lemma SetpointShown(j: seq<Entry>, k: nat, register: nat, value: nat, n: nat, grace: real)
    requires n <= |j| && k < n - 1 && SameOperation(j, k, n - 1)
    requires j[n - 1] == ReadBack(register, Some(value)) && At(j, n - 1, grace).tally.last == Some((register, value))
    ensures WasBack(j, k, register, value, n)
  {
    var d := TallyIsHistory(j, k, n - 1, grace);
    var w: nat :| TallyOf(j, d, w, n - 1, At(j, n - 1, grace).tally);
    assert SetpointBack(j, k, register, value, w, n - 1, n);
  }

  lemma StartReport(m: Mon, outcome: Outcome)
    requires Permitted(m, Reported(outcome)) && m.run.Some?
    ensures m.In(Apply)
    ensures outcome == Confirmed && m.run.value.asked.Positive() ==> m.run.value.Shows(true)
    ensures outcome == Confirmed || outcome == Staged ==> m.proof.Covers(m.run.value.asked)
    ensures outcome == Staged ==> m.run.value.Shows(false) && m.staged
  {
  }

  /** The latest frame of the apply begun at k, before entry i. */
  lemma ShownFrame(j: seq<Entry>, k: nat, i: nat, session: bool, grace: real) returns (f: nat)
    requires Accepted(j, grace) && i < |j| && SameOperation(j, k, i)
    requires At(j, i, grace).run.Some? && At(j, i, grace).run.value.Shows(session)
    ensures RestsOn(j, k, f, i) && if session then j[f].ev.SessionActive() else j[f].ev.CableOut()
  {
    var m := At(j, i, grace);
    OperationMeans(j, i, grace);
    var q: nat :| Runs(j, i, q, m.run.value, m.enables);
    assert q == k by {
      assert !(q < k) && !(k < q);
    }
    f :| RestsOn(j, k, f, i) && FrameIs(j, i, f, m.run.value, m.enables);
  }

  /** Every setpoint the apply begun at k was started for was written and read back. */
  ghost predicate AllBack(j: seq<Entry>, k: nat, i: nat, wire: Wire) {
    && (wire.current.Some? ==> WasBack(j, k, REG_MAX_CHARGING_CURRENT, wire.current.value, i))
    && (wire.power.Some? ==> WasBack(j, k, REG_MAX_CHARGING_POWER, wire.power.value, i))
  }

  /** An apply that is confirmed or staged wrote every setpoint it was started for, the
      current and the power, and read each of them back. */
  lemma ReportedIsWritten(j: seq<Entry>, k: nat, i: nat, grace: real)
    requires Accepted(j, grace) && i < |j| && SameOperation(j, k, i)
    requires j[i] == Reported(Confirmed) || j[i] == Reported(Staged)
    ensures AllBack(j, k, i, WireAt(j, k, grace))
  {
    WireIsHistory(j, k, grace);
    RunBegan(j, k, i, grace);
    assert PermittedAt(j, i, grace);
    StartReport(At(j, i, grace), j[i].outcome);
    var wire := WireAt(j, k, grace);
    if wire.current.Some? {
      BackingMeans(j, k, REG_MAX_CHARGING_CURRENT, wire.current.value, i, grace);
    }
    if wire.power.Some? {
      BackingMeans(j, k, REG_MAX_CHARGING_POWER, wire.power.value, i, grace);
    }
  }

  /** A start that is reported as confirmed wrote the setpoints it was started for, read them
      back, and ends on a frame showing the session; a staged one did so too, and ends on a
      frame showing the cable out, to be tried again on the next plug. */
  lemma StartIsSeen(j: seq<Entry>, k: nat, i: nat, grace: real)
    requires Accepted(j, grace) && i < |j| && SameOperation(j, k, i) && j[i].Reported?
    requires (j[i].outcome == Confirmed && WireAt(j, k, grace).Positive()) || j[i].outcome == Staged
    ensures exists f: nat :: RestsOn(j, k, f, i)
              && if j[i].outcome == Staged then j[f].ev.CableOut() else j[f].ev.SessionActive()
    ensures AllBack(j, k, i, WireAt(j, k, grace))
    ensures j[i].outcome == Staged ==> StagedAt(j, i)
  {
    WireIsHistory(j, k, grace);
    RunBegan(j, k, i, grace);
    assert PermittedAt(j, i, grace);
    var m := At(j, i, grace);
    StartReport(m, j[i].outcome);
    var f := ShownFrame(j, k, i, j[i].outcome == Confirmed, grace);
    ReportedIsWritten(j, k, i, grace);
    StagedIsHistory(j, i, grace);
  }
}
