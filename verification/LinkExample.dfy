/**
  A refresh that was cut short leaves no trace in the release of a comms latch: a run in
  which its frame showed a charger about to charge.
 */
module LinkExample {
  import opened Prelude
  import opened Evidence
  import opened Intents
  import opened Journal
  import opened JournalTheorems
  import opened LinkTheorems
  import LinkHealth
  import Telemetry
  import Unplug

  /** Plugged in, finished, no power. */
  function Calm(at: real): Evidence {
    Evidence(Some(5), Some(1), Some(0), Some(0), at)
  }

  /** Plugged in, about to charge. */
  function Waking(at: real): Evidence {
    Evidence(Some(2), Some(1), Some(0), Some(0), at)
  }

  const LATCHED: Intent := Intent(false, Some(70), None, 0, true, false, true)
  const ENABLED: Intent := EnableAt(70).Apply(LATCHED)
  const WITHDRAWN: Intent := ENABLED.Next().(enabled := false)
  const UNCONFIRMED: Intent := WITHDRAWN.Next().(latched := true, comms := true)
  const RE_ENABLED: Intent := EnableAt(70).Apply(UNCONFIRMED)
  const RE_LATCHED: Intent := RE_ENABLED.Next().(latched := true, comms := true)
  const RELEASED: Intent := RE_LATCHED.Next().(enabled := false, latched := false, comms := false)

  // ---- the run, piece by piece -------------------------------------------------------

  const OPENING: seq<Entry> := [Changed(Restored, LATCHED), Ready]

  /** A refresh looks, ... */
  function Look(at: real): seq<Entry> {
    [Began(Refresh), Frame(Calm(at)), SessionChecked(Calm(at)), Tracked(Unplug.Look(Calm(at), false))]
  }

  /** ... writes its zero, ... */
  function ZeroOut(at: real): seq<Entry> {
    [ReadBack(REG_TIME_VALIDITY, None), Decided(at), Wrote(REG_MAX_CHARGING_POWER, 0)]
  }

  /** ... and reads it back. */
  function ZeroBack(at: real): seq<Entry> {
    [ReadBack(REG_MAX_CHARGING_POWER, Some(0)), AllReadBack, Linked(LinkHealth.Refreshed(Calm(at), true, true))]
  }

  /** An explicit enable is applied, ... */
  const ENABLE: seq<Entry> := [Changed(Enable, ENABLED), Began(Apply), Frame(Calm(1.0))]

  const OUTPUT: seq<Entry> :=
    [Wrote(REG_MAX_CHARGING_POWER, 70), ReadBack(REG_MAX_CHARGING_POWER, Some(70))]

  /** ... and sees its session start. */
  const SESSION: seq<Entry> := [Frame(Waking(2.0)), Started(true), Reported(Confirmed)]

  const ENABLE_OVER: seq<Entry> := [Ended, EnableDone]

  /** The session got no further: the enable is withdrawn, ... */
  const STUCK: seq<Entry> :=
    [Began(Refresh), Frame(Waking(100.0)), SessionChecked(Waking(100.0)), Changed(Revoked, WITHDRAWN)]

  const ZERO_LOST: seq<Entry> :=
    [Wrote(REG_MAX_CHARGING_POWER, 0), ReadBack(REG_MAX_CHARGING_POWER, None)]

  /** ... its zero cannot be confirmed, ... */
  const UNSHOWN: seq<Entry> := [Unconfirmed, Changed(Latch, UNCONFIRMED), Wrote(REG_MAX_CHARGING_POWER, 0)]

  /** ... and a second enable ends the attempt to stop what still wakes. */
  const CUT: seq<Entry> :=
    [Changed(Enable, RE_ENABLED), Peeked(Waking(101.0)), Linked(LinkHealth.CutShort(Waking(100.0))), Ended]

  /** That enable cannot confirm its write either. */
  const RETRY: seq<Entry> :=
    [Began(Apply), Frame(Calm(102.0))]

  const OUTPUT_LOST: seq<Entry> :=
    [Wrote(REG_MAX_CHARGING_POWER, 70), ReadBack(REG_MAX_CHARGING_POWER, None)]

  const GIVEN_UP: seq<Entry> := [Unconfirmed, Changed(Latch, RE_LATCHED), Wrote(REG_MAX_CHARGING_POWER, 0)]

  const FAILURE: seq<Entry> := [Reported(Failed), Ended, EnableDone]

  const RELEASE: seq<Entry> := [Changed(LinkReleased, RELEASED), Ended]

  /** The whole run. */
  const STORY: seq<Entry> :=
    OPENING + Look(0.0) + ZeroOut(0.0) + ZeroBack(0.0) + [Ended] + ENABLE + OUTPUT + SESSION + ENABLE_OVER
    + STUCK + ZERO_LOST + UNSHOWN + CUT + RETRY + OUTPUT_LOST + GIVEN_UP + FAILURE
    + Look(120.0) + ZeroOut(120.0) + ZeroBack(120.0) + RELEASE

  /** One more entry. */
  lemma Add(j: seq<Entry>, m: Mon, e: Entry, grace: real) returns (k: seq<Entry>, n: Mon)
    requires Ledger(j, m, grace) && Permitted(m, e)
    ensures k == j + [e] && n == Step(m, e) && Ledger(k, n, grace)
  {
    LedgerGrows(j, m, e, grace);
    k, n := j + [e], Step(m, e);
  }

  /** Ready, with nothing protective and no Stop. */
  predicate Plainly(m: Mon, i: Intent, link: Option<real>) {
    && m.intent == i && m.stopAt.None?
    && m.books == Books(m.grace, Telemetry.FRESH, false, Unplug.IDLE, link, None, false, NONE_MISSED, true)
  }

  predicate Rests(m: Mon, i: Intent, link: Option<real>) {
    Plainly(m, i, link) && m.run.None? && m.turn == FREE
  }

  lemma Opens(grace: real) returns (j: seq<Entry>, m: Mon)
    ensures j == OPENING && Ledger(j, m, grace) && Rests(m, LATCHED, None) && m.clock == 0.0 && m.flying == 0
  {
    LedgerOpens(grace);
    j, m := Add([], Start(grace), Changed(Restored, LATCHED), grace);
    j, m := Add(j, m, Ready, grace);
  }

  // ---- every piece is permitted --------------------------------------------------------

  /** A refresh begins with a frame that shows no fault. */
  lemma Opened(j: seq<Entry>, m: Mon, i: Intent, link: Option<real>, ev: Evidence, grace: real)
      returns (k: seq<Entry>, n: Mon)
    requires Ledger(j, m, grace) && Rests(m, i, link) && !i.stop && m.clock <= ev.at && ev.Valid() && !ev.Faulted()
    ensures k == j + [Began(Refresh), Frame(ev)] && Ledger(k, n, grace)
    ensures Plainly(n, i, link) && n.clock == ev.at && n.flying == m.flying && n.turn == FREE
    ensures n.In(Refresh) && !n.run.value.decided && n.Sees(ev) && n.debt.Clear? && n.course.power.None?
  {
    k, n := Add(j, m, Began(Refresh), grace);
    k, n := Add(k, n, Frame(ev), grace);
  }

  lemma Looked(j: seq<Entry>, m: Mon, i: Intent, link: Option<real>, at: real, grace: real)
      returns (k: seq<Entry>, n: Mon)
    requires Ledger(j, m, grace) && Rests(m, i, link) && i.CommsLatch() && !i.stop && m.clock <= at
    ensures k == j + Look(at) && Ledger(k, n, grace)
    ensures Plainly(n, i, link) && n.clock == at && n.flying == m.flying && n.turn == FREE
    ensures n.In(Refresh) && n.run.value.tracked && !n.run.value.decided && n.Sees(Calm(at)) && n.debt.Clear?
  {
    k, n := Opened(j, m, i, link, Calm(at), grace);
    k, n := Add(k, n, SessionChecked(Calm(at)), grace);
    k, n := Add(k, n, Tracked(Unplug.Look(Calm(at), false)), grace);
  }

  /** A zero was written since the decision, and nothing else. */
  predicate ZeroIsOut(m: Mon) {
    && m.quiet.zeroSent && m.tally == Tally(Some((REG_MAX_CHARGING_POWER, 0)), true, false)
    && m.course.power.None? && !m.course.judged && m.debt.Clear?
  }

  lemma ZeroedOut(j: seq<Entry>, m: Mon, i: Intent, link: Option<real>, at: real, grace: real)
      returns (k: seq<Entry>, n: Mon)
    requires Ledger(j, m, grace) && Plainly(m, i, link) && m.turn == FREE && i.CommsLatch() && !i.stop
    requires m.In(Refresh) && m.run.value.tracked && !m.run.value.decided && m.Sees(Calm(at)) && m.debt.Clear?
    requires m.clock <= at
    ensures k == j + ZeroOut(at) && Ledger(k, n, grace)
    ensures Plainly(n, i, link) && n.clock == at && n.flying == m.flying && n.turn == FREE && ZeroIsOut(n)
    ensures n.In(Refresh) && n.run.value.decided && n.Sees(Calm(at))
  {
    k, n := Add(j, m, ReadBack(REG_TIME_VALIDITY, None), grace);
    k, n := Add(k, n, Decided(at), grace);
    k, n := Add(k, n, Wrote(REG_MAX_CHARGING_POWER, 0), grace);
  }

  lemma ZeroedBack(j: seq<Entry>, m: Mon, i: Intent, link: Option<real>, at: real, grace: real)
      returns (k: seq<Entry>, n: Mon)
    requires Ledger(j, m, grace) && Plainly(m, i, link) && m.turn == FREE && i.CommsLatch() && ZeroIsOut(m)
    requires m.In(Refresh) && m.run.value.decided && m.Sees(Calm(at))
    ensures k == j + ZeroBack(at) && Ledger(k, n, grace)
    ensures var look := LinkHealth.Refreshed(Calm(at), true, true);
            && Plainly(n, i, LinkHealth.Step(link, look)) && n.clock == m.clock && n.flying == m.flying
            && n.turn == FREE.(releasable := LinkHealth.Fires(link, look))
    ensures n.In(Refresh) && Concludes(n)
  {
    k, n := Add(j, m, ReadBack(REG_MAX_CHARGING_POWER, Some(0)), grace);
    k, n := Add(k, n, AllReadBack, grace);
    k, n := Add(k, n, Linked(LinkHealth.Refreshed(Calm(at), true, true)), grace);
  }

  lemma Refreshed(j: seq<Entry>, m: Mon, i: Intent, link: Option<real>, at: real, grace: real)
      returns (k: seq<Entry>, n: Mon)
    requires Ledger(j, m, grace) && Rests(m, i, link) && i.CommsLatch() && !i.stop && m.clock <= at
    ensures k == j + Look(at) + ZeroOut(at) + ZeroBack(at) && Ledger(k, n, grace)
    ensures var look := LinkHealth.Refreshed(Calm(at), true, true);
            && Plainly(n, i, LinkHealth.Step(link, look)) && n.clock == at && n.flying == m.flying
            && n.turn == FREE.(releasable := LinkHealth.Fires(link, look))
    ensures n.In(Refresh) && Concludes(n)
  {
    k, n := Looked(j, m, i, link, at, grace);
    k, n := ZeroedOut(k, n, i, link, at, grace);
    k, n := ZeroedBack(k, n, i, link, at, grace);
  }

  /** All that is left is to end. */
  predicate Concludes(m: Mon) {
    m.run.Some? && m.run.value.concluded && m.debt.Clear? && m.course.power.None?
  }

  lemma Ends(j: seq<Entry>, m: Mon, i: Intent, link: Option<real>, grace: real) returns (k: seq<Entry>, n: Mon)
    requires Ledger(j, m, grace) && Plainly(m, i, link) && m.turn.owed.Nothing?
    requires m.In(Refresh) && Concludes(m)
    ensures k == j + [Ended] && Ledger(k, n, grace)
    ensures Rests(n, i, link) && n.clock == m.clock && n.flying == m.flying
  {
    k, n := Add(j, m, Ended, grace);
  }

  lemma Enabled(j: seq<Entry>, m: Mon, grace: real) returns (k: seq<Entry>, n: Mon)
    requires Ledger(j, m, grace) && Rests(m, LATCHED, Some(0.0)) && m.clock == 0.0 && m.flying == 0
    ensures k == j + ENABLE && Ledger(k, n, grace)
    ensures Applies(n, 1.0, Calm(1.0))
  {
    k, n := Add(j, m, Changed(Enable, ENABLED), grace);
    k, n := Add(k, n, Began(Apply), grace);
    k, n := Add(k, n, Frame(Calm(1.0)), grace);
  }

  /** The enable is being applied; its output may have been read back. */
  predicate Applies(m: Mon, at: real, ev: Evidence) {
    && Plainly(m, ENABLED, Some(0.0)) && m.clock == at && m.flying == 1 && m.turn == FREE
    && m.In(Apply) && m.Sees(ev) && m.run.value.asked == Wire(Some(70), None) && !m.run.value.pause
    && m.debt.Clear? && !m.run.value.revoked
  }

  lemma PutOut(j: seq<Entry>, m: Mon, grace: real) returns (k: seq<Entry>, n: Mon)
    requires Ledger(j, m, grace) && Applies(m, 1.0, Calm(1.0))
    ensures k == j + OUTPUT && Ledger(k, n, grace) && Applies(n, 1.0, Calm(1.0)) && n.proof.output
  {
    k, n := Add(j, m, Wrote(REG_MAX_CHARGING_POWER, 70), grace);
    k, n := Add(k, n, ReadBack(REG_MAX_CHARGING_POWER, Some(70)), grace);
  }

  lemma SessionStarts(j: seq<Entry>, m: Mon, grace: real) returns (k: seq<Entry>, n: Mon)
    requires Ledger(j, m, grace) && Applies(m, 1.0, Calm(1.0)) && m.proof.output
    ensures k == j + SESSION && Ledger(k, n, grace)
    ensures Applies(n, 2.0, Waking(2.0)) && n.run.value.concluded
  {
    k, n := Add(j, m, Frame(Waking(2.0)), grace);
    k, n := Add(k, n, Started(true), grace);
    k, n := Add(k, n, Reported(Confirmed), grace);
  }

  lemma EnableIsOver(j: seq<Entry>, m: Mon, grace: real) returns (k: seq<Entry>, n: Mon)
    requires Ledger(j, m, grace) && Applies(m, 2.0, Waking(2.0)) && m.run.value.concluded
    ensures k == j + ENABLE_OVER && Ledger(k, n, grace)
    ensures Rests(n, ENABLED, Some(0.0)) && n.clock == 2.0 && n.flying == 0
  {
    k, n := Add(j, m, Ended, grace);
    k, n := Add(k, n, EnableDone, grace);
  }

  /** The refresh looks at a start and has withdrawn the enable. */
  predicate Withdrew(m: Mon, i: Intent) {
    && Plainly(m, i, Some(0.0)) && m.clock == 100.0 && m.flying == 0 && m.turn == FREE
    && m.In(Refresh) && m.Sees(Waking(100.0)) && m.run.value.checked && m.run.value.revoked
    && m.course.power.None?
  }

  lemma GetsStuck(j: seq<Entry>, m: Mon, grace: real) returns (k: seq<Entry>, n: Mon)
    requires Ledger(j, m, grace) && Rests(m, ENABLED, Some(0.0)) && m.clock == 2.0 && m.flying == 0
    ensures k == j + STUCK && Ledger(k, n, grace) && Withdrew(n, WITHDRAWN) && n.debt.ZeroDue?
  {
    k, n := Opened(j, m, ENABLED, Some(0.0), Waking(100.0), grace);
    k, n := Add(k, n, SessionChecked(Waking(100.0)), grace);
    k, n := Add(k, n, Changed(Revoked, WITHDRAWN), grace);
  }

  lemma ZeroIsLost(j: seq<Entry>, m: Mon, grace: real) returns (k: seq<Entry>, n: Mon)
    requires Ledger(j, m, grace) && Withdrew(m, WITHDRAWN) && m.debt.ZeroDue?
    ensures k == j + ZERO_LOST && Ledger(k, n, grace) && Withdrew(n, WITHDRAWN) && n.debt.ProofDue? && n.tally.open
  {
    k, n := Add(j, m, Wrote(REG_MAX_CHARGING_POWER, 0), grace);
    k, n := Add(k, n, ReadBack(REG_MAX_CHARGING_POWER, None), grace);
  }

  /** A write is given up, and the fault latched. */
  lemma Latches(j: seq<Entry>, m: Mon, i: Intent, a: Intent, grace: real) returns (k: seq<Entry>, n: Mon)
    requires Ledger(j, m, grace) && m.intent == i && !i.latched && i.WellFormed() && !i.stop
    requires m.run.Some? && m.tally.open && m.turn == FREE
    requires a == i.Next().(latched := true, comms := true)
    ensures k == j + [Unconfirmed, Changed(Latch, a)] && Ledger(k, n, grace)
    ensures n == m.(intent := a, work := m.work.(debt := m.debt.GiveUp(), failed := true),
                    turn := Owing(Owed.Write(REG_MAX_CHARGING_POWER, 0)))
  {
    k, n := Add(j, m, Unconfirmed, grace);
    k, n := Add(k, n, Changed(Latch, a), grace);
  }

  lemma IsUnshown(j: seq<Entry>, m: Mon, grace: real) returns (k: seq<Entry>, n: Mon)
    requires Ledger(j, m, grace) && Withdrew(m, WITHDRAWN) && m.debt.ProofDue? && m.tally.open
    ensures k == j + UNSHOWN && Ledger(k, n, grace) && Withdrew(n, UNCONFIRMED) && n.debt.LookDue?
  {
    k, n := Latches(j, m, WITHDRAWN, UNCONFIRMED, grace);
    k, n := Add(k, n, Wrote(REG_MAX_CHARGING_POWER, 0), grace);
  }

  lemma IsCutShort(j: seq<Entry>, m: Mon, grace: real) returns (k: seq<Entry>, n: Mon)
    requires Ledger(j, m, grace) && Withdrew(m, UNCONFIRMED) && m.debt.LookDue?
    ensures k == j + CUT && Ledger(k, n, grace)
    ensures Rests(n, RE_ENABLED, Some(0.0)) && n.clock == 101.0 && n.flying == 1
  {
    k, n := Add(j, m, Changed(Enable, RE_ENABLED), grace);
    k, n := Add(k, n, Peeked(Waking(101.0)), grace);
    k, n := Add(k, n, Linked(LinkHealth.CutShort(Waking(100.0))), grace);
    k, n := Add(k, n, Ended, grace);
  }

  predicate Retrying(m: Mon) {
    && m.In(Apply) && m.run.value.asked == Wire(Some(70), None) && !m.run.value.pause && m.debt.Clear?
    && m.run.value.enables == m.enables
  }

  lemma Retries(j: seq<Entry>, m: Mon, grace: real) returns (k: seq<Entry>, n: Mon)
    requires Ledger(j, m, grace) && Rests(m, RE_ENABLED, Some(0.0)) && m.clock == 101.0 && m.flying == 1
    ensures k == j + RETRY && Ledger(k, n, grace)
    ensures Plainly(n, RE_ENABLED, Some(0.0)) && n.clock == 102.0 && n.flying == 1 && n.turn == FREE
    ensures Retrying(n) && n.Sees(Calm(102.0))
  {
    k, n := Add(j, m, Began(Apply), grace);
    k, n := Add(k, n, Frame(Calm(102.0)), grace);
  }

  lemma OutputIsLost(j: seq<Entry>, m: Mon, grace: real) returns (k: seq<Entry>, n: Mon)
    requires Ledger(j, m, grace) && Plainly(m, RE_ENABLED, Some(0.0)) && m.clock == 102.0 && m.flying == 1
    requires m.turn == FREE && Retrying(m) && m.Sees(Calm(102.0))
    ensures k == j + OUTPUT_LOST && Ledger(k, n, grace)
    ensures Plainly(n, RE_ENABLED, Some(0.0)) && n.clock == 102.0 && n.flying == 1 && n.turn == FREE
    ensures Retrying(n) && n.tally.open
  {
    k, n := Add(j, m, Wrote(REG_MAX_CHARGING_POWER, 70), grace);
    k, n := Add(k, n, ReadBack(REG_MAX_CHARGING_POWER, None), grace);
  }

  lemma GivesUp(j: seq<Entry>, m: Mon, grace: real) returns (k: seq<Entry>, n: Mon)
    requires Ledger(j, m, grace) && Plainly(m, RE_ENABLED, Some(0.0)) && m.clock == 102.0 && m.flying == 1
    requires m.turn == FREE && Retrying(m) && m.tally.open
    ensures k == j + GIVEN_UP && Ledger(k, n, grace)
    ensures Plainly(n, RE_LATCHED, Some(0.0)) && n.clock == 102.0 && n.flying == 1 && n.turn == FREE
    ensures Retrying(n) && n.work.failed
  {
    k, n := Latches(j, m, RE_ENABLED, RE_LATCHED, grace);
    k, n := Add(k, n, Wrote(REG_MAX_CHARGING_POWER, 0), grace);
  }

  lemma Fails(j: seq<Entry>, m: Mon, grace: real) returns (k: seq<Entry>, n: Mon)
    requires Ledger(j, m, grace) && Plainly(m, RE_LATCHED, Some(0.0)) && m.clock == 102.0 && m.flying == 1
    requires m.turn == FREE && Retrying(m) && m.work.failed
    ensures k == j + FAILURE && Ledger(k, n, grace)
    ensures Rests(n, RE_LATCHED, Some(0.0)) && n.clock == 102.0 && n.flying == 0
  {
    k, n := Add(j, m, Reported(Failed), grace);
    k, n := Add(k, n, Ended, grace);
    k, n := Add(k, n, EnableDone, grace);
  }

  lemma Releases(j: seq<Entry>, m: Mon, grace: real) returns (k: seq<Entry>, n: Mon)
    requires Ledger(j, m, grace) && Plainly(m, RE_LATCHED, None) && m.turn == FREE.(releasable := true)
    requires m.In(Refresh) && Concludes(m)
    ensures k == j + RELEASE && Ledger(k, n, grace)
  {
    k, n := Add(j, m, Changed(LinkReleased, RELEASED), grace);
    k, n := Add(k, n, Ended, grace);
  }

  // ---- the story ---------------------------------------------------------------------

  lemma UpToTheStart(grace: real) returns (j: seq<Entry>, m: Mon)
    ensures j == OPENING + Look(0.0) + ZeroOut(0.0) + ZeroBack(0.0) + [Ended] + ENABLE + OUTPUT + SESSION + ENABLE_OVER
    ensures Ledger(j, m, grace) && Rests(m, ENABLED, Some(0.0)) && m.clock == 2.0 && m.flying == 0
  {
    j, m := Opens(grace);
    j, m := Refreshed(j, m, LATCHED, None, 0.0, grace);
    j, m := Ends(j, m, LATCHED, Some(0.0), grace);
    j, m := Enabled(j, m, grace);
    j, m := PutOut(j, m, grace);
    j, m := SessionStarts(j, m, grace);
    j, m := EnableIsOver(j, m, grace);
  }

  lemma UpToTheCut(grace: real) returns (j: seq<Entry>, m: Mon)
    ensures j == OPENING + Look(0.0) + ZeroOut(0.0) + ZeroBack(0.0) + [Ended] + ENABLE + OUTPUT + SESSION + ENABLE_OVER
                 + STUCK + ZERO_LOST + UNSHOWN + CUT
    ensures Ledger(j, m, grace) && Rests(m, RE_ENABLED, Some(0.0)) && m.clock == 101.0 && m.flying == 1
  {
    j, m := UpToTheStart(grace);
    j, m := GetsStuck(j, m, grace);
    j, m := ZeroIsLost(j, m, grace);
    j, m := IsUnshown(j, m, grace);
    j, m := IsCutShort(j, m, grace);
  }

  lemma StoryIsAccepted(grace: real)
    ensures Accepted(STORY, grace)
  {
    var j, m := UpToTheCut(grace);
    j, m := Retries(j, m, grace);
    j, m := OutputIsLost(j, m, grace);
    j, m := GivesUp(j, m, grace);
    j, m := Fails(j, m, grace);
    j, m := Refreshed(j, m, RE_LATCHED, Some(0.0), 120.0, grace);
    j, m := Releases(j, m, grace);
    LedgerIsAccepted(j, m, grace);
  }

  /** The entries that matter. */
  lemma StoryEntries()
    ensures |STORY| == 58
    ensures STORY[11] == Linked(LinkHealth.Refreshed(Calm(0.0), true, true))
    ensures STORY[13] == Changed(Enable, ENABLED)
    ensures STORY[23] == Began(Refresh) && STORY[24] == Frame(Waking(100.0))
    ensures STORY[55] == Linked(LinkHealth.Refreshed(Calm(120.0), true, true))
    ensures STORY[56] == Changed(LinkReleased, RELEASED)
  {
  }

  ghost predicate AllUnbroken(es: seq<Entry>) {
    forall x :: 0 <= x < |es| ==> Unbroken(es[x])
  }

  lemma Joined(a: seq<Entry>, b: seq<Entry>)
    requires AllUnbroken(a) && AllUnbroken(b)
    ensures AllUnbroken(a + b)
  {
  }

  lemma UnbrokenToTheStart() returns (es: seq<Entry>)
    ensures es == OPENING + Look(0.0) + ZeroOut(0.0) + ZeroBack(0.0) + [Ended] + ENABLE + OUTPUT + SESSION + ENABLE_OVER
    ensures AllUnbroken(es)
  {
    es := OPENING;
    Joined(es, Look(0.0)); es := es + Look(0.0);
    Joined(es, ZeroOut(0.0)); es := es + ZeroOut(0.0);
    Joined(es, ZeroBack(0.0)); es := es + ZeroBack(0.0);
    Joined(es, [Ended]); es := es + [Ended];
    Joined(es, ENABLE); es := es + ENABLE;
    Joined(es, OUTPUT); es := es + OUTPUT;
    Joined(es, SESSION); es := es + SESSION;
    Joined(es, ENABLE_OVER); es := es + ENABLE_OVER;
  }

  lemma UnbrokenToTheFailure() returns (es: seq<Entry>)
    ensures es == OPENING + Look(0.0) + ZeroOut(0.0) + ZeroBack(0.0) + [Ended] + ENABLE + OUTPUT + SESSION + ENABLE_OVER
                  + STUCK + ZERO_LOST + UNSHOWN + CUT + RETRY + OUTPUT_LOST + GIVEN_UP + FAILURE
    ensures AllUnbroken(es)
  {
    es := UnbrokenToTheStart();
    Joined(es, STUCK); es := es + STUCK;
    Joined(es, ZERO_LOST); es := es + ZERO_LOST;
    Joined(es, UNSHOWN); es := es + UNSHOWN;
    Joined(es, CUT); es := es + CUT;
    Joined(es, RETRY); es := es + RETRY;
    Joined(es, OUTPUT_LOST); es := es + OUTPUT_LOST;
    Joined(es, GIVEN_UP); es := es + GIVEN_UP;
    Joined(es, FAILURE); es := es + FAILURE;
  }

  lemma UnbrokenToTheEnd()
    ensures AllUnbroken(STORY)
  {
    var es := UnbrokenToTheFailure();
    Joined(es, Look(120.0)); es := es + Look(120.0);
    Joined(es, ZeroOut(120.0)); es := es + ZeroOut(120.0);
    Joined(es, ZeroBack(120.0)); es := es + ZeroBack(120.0);
    Joined(es, RELEASE);
  }

  /** A refresh that was cut short is invisible: in this run a comms latch is released on
      two healthy refreshes, and between them a refresh looked at a charger about to
      charge.  Explicit enables were issued between them. */
  lemma CutShortRefreshIsInvisible(grace: real)
    ensures Accepted(STORY, grace) && |STORY| == 58
    ensures STORY[56].Changed? && STORY[56].cause == LinkReleased && LinkWasHealthy(STORY, 11, 56)
    ensures OfLink(STORY, 24) && STORY[24].ev.Drawing() && !NoEnable(STORY, 11, 56)
  {
    StoryIsAccepted(grace);
    StoryEntries();
    UnbrokenToTheEnd();
    assert SameOperation(STORY, 23, 24);
    assert IsEnable(STORY[13]);
  }
}
