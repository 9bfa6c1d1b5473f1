/**
  What the release of a comms latch rests on: two healthy refreshes far enough apart, and
  every frame that a poll or a refresh looked at between them.
 */
module LinkTheorems {
  import opened Prelude
  import opened Evidence
  import opened Intents
  import opened Journal
  import opened JournalTheorems
  import opened Obligations
  import LinkHealth
  import Unplug

  predicate HealthyRefresh(e: Entry) {
    e.Linked? && e.seen.Refreshed? && e.seen.Healthy()
  }

  /** A link check finds the link healthy, unless its refresh was cut short. */
  predicate Unbroken(e: Entry) {
    e.Linked? ==> e.seen.Healthy() || e.seen.CutShort?
  }

  ghost predicate LatchedAt(j: seq<Entry>, a: nat, y: nat) {
    a <= y <= |j| && NoEnable(j, a, y) ==> IntentAt(j, y).latched
  }

  /** The release timer runs from the healthy refresh at a. */
  ghost predicate Anchored(j: seq<Entry>, a: nat, n: nat) {
    && a < n <= |j| && HealthyRefresh(j[a])
    && (forall x :: a < x < n ==> Unbroken(j[x]))
    && (forall y :: a < y <= n ==> LatchedAt(j, a, y))
  }

  // ---- the release timer -----------------------------------------------------------

  lemma ReadyStep(m: Mon, e: Entry)
    requires Permitted(m, e) && (m.run.Some? && !m.run.value.op.Setup? ==> m.ready)
    ensures var q := Step(m, e); q.run.Some? && !q.run.value.op.Setup? ==> q.ready
  {
  }

  /** No operation but the set-up of the safety registers runs before initialization is
      over. */
  lemma {:induction false} RunsWhenReady(j: seq<Entry>, n: nat, grace: real)
    requires Accepted(j, grace) && n <= |j|
    ensures var m := At(j, n, grace); m.run.Some? && !m.run.value.op.Setup? ==> m.ready
  {
    if n > 0 {
      RunsWhenReady(j, n - 1, grace);
      assert PermittedAt(j, n - 1, grace);
      ReadyStep(At(j, n - 1, grace), j[n - 1]);
    }
  }

  lemma ReleasableOnce(m: Mon, e: Entry)
    ensures Step(m, e).releasable ==> Step(m, e).link.None?
  {
  }

  lemma NotReleasable(j: seq<Entry>, n: nat, grace: real)
    requires n <= |j| && At(j, n, grace).link.Some?
    ensures !At(j, n, grace).releasable
  {
    if n > 0 { ReleasableOnce(At(j, n - 1, grace), j[n - 1]); }
  }

  /** While the timer runs, only an explicit enable unlatches. */
  lemma LatchStays(m: Mon, e: Entry)
    requires Permitted(m, e) && m.ready && !m.releasable && m.intent.latched && e.Changed? && !IsEnable(e)
    ensures e.intent.latched
  {
  }

  lemma AnchorStays(j: seq<Entry>, a: nat, n: nat, m: Mon)
    requires 0 < n <= |j| && Anchored(j, a, n - 1) && Unbroken(j[n - 1])
    requires Permitted(m, j[n - 1]) && m.ready && !m.releasable && m.intent == IntentAt(j, n - 1)
    ensures Anchored(j, a, n)
  {
    if NoEnable(j, a, n) {
      assert LatchedAt(j, a, n - 1) && NoEnable(j, a, n - 1) && !IsEnable(j[n - 1]);
      if j[n - 1].Changed? { LatchStays(m, j[n - 1]); }
    }
    assert LatchedAt(j, a, n);
  }

  lemma TimerStep(m: Mon, e: Entry)
    requires Permitted(m, e) && Step(m, e).link.Some?
    ensures Unbroken(e)
    ensures m.link.Some? ==> Step(m, e).link == m.link
    ensures m.link.None? ==>
              && HealthyRefresh(e) && Step(m, e).link == Some(e.seen.ev.at)
              && m.In(Refresh) && m.intent.latched
    ensures Step(m, e).ready == (m.ready || e.Ready?)
  {
  }

  lemma AnchorStarts(j: seq<Entry>, n: nat)
    requires 0 < n <= |j| && HealthyRefresh(j[n - 1]) && IntentAt(j, n - 1).latched
    ensures Anchored(j, n - 1, n)
  {
    assert IntentAt(j, n) == IntentAt(j, n - 1);
    assert LatchedAt(j, n - 1, n);
  }

  /** Where the release timer comes from. */
  lemma {:induction false} TimerMeans(j: seq<Entry>, n: nat, grace: real)
    requires Accepted(j, grace) && n <= |j|
    ensures var m := At(j, n, grace);
            m.link.Some? ==> m.ready && exists a: nat :: Anchored(j, a, n) && m.link == Some(j[a].seen.ev.at)
  {
    if n > 0 && At(j, n, grace).link.Some? {
      TimerMeans(j, n - 1, grace);
      assert PermittedAt(j, n - 1, grace);
      TimerStep(At(j, n - 1, grace), j[n - 1]);
      IntentIsHistory(j, n - 1, grace);
      if At(j, n - 1, grace).link.Some? {
        var a: nat :| Anchored(j, a, n - 1) && At(j, n - 1, grace).link == Some(j[a].seen.ev.at);
        TimerGoesOn(j, a, n, grace);
      } else {
        RunsWhenReady(j, n - 1, grace);
        AnchorStarts(j, n);
      }
    }
  }

  lemma TimerGoesOn(j: seq<Entry>, a: nat, n: nat, grace: real)
    requires Accepted(j, grace) && 0 < n <= |j| && Anchored(j, a, n - 1) && Unbroken(j[n - 1])
    requires At(j, n - 1, grace).link.Some? && At(j, n - 1, grace).ready
    ensures Anchored(j, a, n)
  {
    assert PermittedAt(j, n - 1, grace);
    NotReleasable(j, n - 1, grace);
    IntentIsHistory(j, n - 1, grace);
    AnchorStays(j, a, n, At(j, n - 1, grace));
  }

  // ---- the frames of polls and refreshes ---------------------------------------------

  predicate Looks(op: Op) {
    op in {Refresh, Poll}
  }

  /** Entry x is a frame that a poll or a refresh looked at. */
  ghost predicate OfLink(j: seq<Entry>, x: nat) {
    x < |j| && j[x].Frame? && exists k: nat :: SameOperation(j, k, x) && Looks(j[k].op)
  }

  ghost predicate AllClean(j: seq<Entry>, a: nat, i: nat) {
    forall x: nat :: a < x < i && OfLink(j, x) ==> j[x].ev.Clean()
  }

  predicate IsCut(e: Entry) {
    e.Linked? && e.seen.CutShort?
  }

  /** No refresh was cut short between. */
  predicate NoneCut(j: seq<Entry>, a: nat, i: nat)
    requires i <= |j|
  {
    forall x :: a < x < i ==> !IsCut(j[x])
  }

  lemma RevocationOf(m: Mon, e: Entry)
    requires Permitted(m, e) && IsRevocation(e) && (m.In(Refresh) || m.In(Poll))
    ensures m.run.value.frame.Some? && m.run.value.frame.value.Starting() && !m.intent.latched
  {
  }

  /** A poll or a refresh that withdraws the enable rests on a frame that shows a start. */
  lemma RevokedOn(j: seq<Entry>, k: nat, y: nat, grace: real) returns (f: nat)
    requires Accepted(j, grace) && y < |j| && SameOperation(j, k, y) && Looks(j[k].op) && IsRevocation(j[y])
    ensures RestsOn(j, k, f, y) && j[f].ev.Starting() && !IntentAt(j, y).latched
  {
    assert PermittedAt(j, y, grace);
    var m := At(j, y, grace);
    RunBegan(j, k, y, grace);
    RevocationOf(m, j[y]);
    IntentIsHistory(j, y, grace);
    OperationMeans(j, y, grace);
    var q: nat :| Runs(j, y, q, m.run.value, m.enables);
    assert q == k by {
      assert !(q < k) && !(k < q);
    }
    f :| RestsOn(j, k, f, y) && FrameIs(j, y, f, m.run.value, m.enables);
  }

  lemma LookPermitted(m: Mon, e: Entry)
    requires Permitted(m, e) && e.Frame?
    ensures m.run.Some? && (m.run.value.Keeps() ==> m.run.value.revoked)
  {
  }

  /** A poll or a refresh looks once; any further frame means that it withdrew the enable. */
  lemma LookedAgain(j: seq<Entry>, k: nat, f: nat, x: nat, grace: real)
    requires Accepted(j, grace) && x < |j| && SameOperation(j, k, x) && Looks(j[k].op)
    requires RestsOn(j, k, f, x) && j[x].Frame?
    ensures j[f].ev.Starting()
  {
    assert PermittedAt(j, x, grace);
    var m := At(j, x, grace);
    LookPermitted(m, j[x]);
    RunBegan(j, k, x, grace);
    TheFrame(j, k, f, x, grace);
    StepsHappened(j, k, x, grace);
    var y: nat :| k < y < x && IsRevocation(j[y]);
    var g := RevokedOn(j, k, y, grace);
    assert g == f;
  }

  /** Whoever checks the link in a poll or a refresh does so on its first frame. */
  lemma LinkedOn(j: seq<Entry>, k: nat, l: nat, grace: real) returns (f: nat)
    requires Accepted(j, grace) && l < |j| && SameOperation(j, k, l) && j[l].Linked?
    ensures RestsOn(j, k, f, l) && j[l].seen.ev == j[f].ev && Looks(j[k].op)
  {
    JudgedOnItsFrame(j, k, l, grace);
    f :| MadeOn(j, k, f, l);
    RunBegan(j, k, l, grace);
    assert PermittedAt(j, l, grace);
    CheckerLooks(At(j, l, grace), j[l]);
  }

  lemma CheckerLooks(m: Mon, e: Entry)
    requires Permitted(m, e) && e.Linked?
    ensures m.In(Refresh) || m.In(Poll)
    ensures e.seen.CutShort? ==> m.run.value.revoked && e.seen.ev.Starting()
  {
  }

  lemma OneFrame(j: seq<Entry>, k: nat, f: nat, x: nat, g: nat, y: nat)
    requires RestsOn(j, k, f, x) && RestsOn(j, k, g, y) && Looks(j[k].op)
    ensures f == g
  {
  }

  /** An operation that has begun goes on to entry i, or ends before. */
  lemma {:induction false} GoesOn(j: seq<Entry>, k: nat, x: nat, i: nat, grace: real) returns (e: nat)
    requires Accepted(j, grace) && x <= i <= |j| && SameOperation(j, k, x)
    ensures x <= e <= i && SameOperation(j, k, e) && (e < i ==> j[e].Ended?)
    decreases i - x
  {
    e := x;
    if x < i && !j[x].Ended? {
      RunBegan(j, k, x, grace);
      assert PermittedAt(j, x, grace);
      assert !j[x].Began?;
      e := GoesOn(j, k, x + 1, i, grace);
    }
  }

  /** Between two healthy refreshes, each poll and refresh that looked has a link check, and
      found the link healthy unless it was cut short. */
  ghost predicate Between(j: seq<Entry>, a: nat, i: nat, grace: real) {
    && Accepted(j, grace) && 0 < i <= |j| && a < i - 1
    && Anchored(j, a, i - 1) && HealthyRefresh(j[i - 1])
  }

  lemma CheckOf(j: seq<Entry>, a: nat, k: nat, x: nat, i: nat, grace: real) returns (l: nat)
    requires Between(j, a, i, grace) && a < x < i && SameOperation(j, k, x) && Looks(j[k].op) && j[x].Frame?
    ensures a <= l < i && SameOperation(j, k, l) && j[l].Linked?
  {
    if k < a {
      assert SameOperation(j, k, a);
      l := a;
    } else {
      var e := GoesOn(j, k, x, i, grace);
      if e < i {
        var f;
        f, l := ConcludedOn(j, k, e, grace);
      } else {
        assert SameOperation(j, k, i - 1);
        l := i - 1;
      }
    }
  }

  /** The operation whose link check found the link healthy looked at nothing but the clean
      frame it rests on. */
  lemma HealthyIsClean(j: seq<Entry>, k: nat, l: nat, x: nat, grace: real)
    requires Accepted(j, grace) && x < |j| && l < |j| && SameOperation(j, k, x) && SameOperation(j, k, l)
    requires j[x].Frame? && j[l].Linked? && j[l].seen.Healthy()
    ensures j[x].ev.Clean()
  {
    var f := LinkedOn(j, k, l, grace);
    if x != f {
      assert f < x;
      assert RestsOn(j, k, f, x);
      LookedAgain(j, k, f, x, grace);
      assert false;
    }
  }

  lemma CleanWithoutCuts(j: seq<Entry>, a: nat, i: nat, grace: real)
    requires Between(j, a, i, grace) && NoneCut(j, a, i)
    ensures AllClean(j, a, i)
  {
    forall x: nat | a < x < i && OfLink(j, x) ensures j[x].ev.Clean() {
      var k: nat :| SameOperation(j, k, x) && Looks(j[k].op);
      var l := CheckOf(j, a, k, x, i, grace);
      assert Unbroken(j[l]);
      HealthyIsClean(j, k, l, x, grace);
    }
  }

  /** A refresh that was cut short after a began after a, and looked at a start. */
  lemma CutBegan(j: seq<Entry>, a: nat, l: nat, grace: real) returns (k: nat, f: nat, y: nat)
    requires Accepted(j, grace) && a < l < |j| && HealthyRefresh(j[a]) && IsCut(j[l])
    ensures a < k < f < y < l && SameOperation(j, k, l) && Looks(j[k].op)
    ensures RestsOn(j, k, f, l) && j[f].ev.Starting() && IsRevocation(j[y]) && !IntentAt(j, y).latched
  {
    assert PermittedAt(j, l, grace);
    var m := At(j, l, grace);
    CheckerLooks(m, j[l]);
    OperationMeans(j, l, grace);
    k :| Runs(j, l, k, m.run.value, m.enables);
    f := LinkedOn(j, k, l, grace);
    StepsHappened(j, k, l, grace);
    y :| k < y < l && IsRevocation(j[y]);
    var g := RevokedOn(j, k, y, grace);
    OneFrame(j, k, f, l, g, y);
    if k < a {
      assert SameOperation(j, k, a);
      var h := LinkedOn(j, k, a, grace);
      OneFrame(j, k, f, l, h, a);
      assert false;
    }
  }

  /** A refresh that was cut short looked at a charger about to charge. */
  lemma CutLooks(j: seq<Entry>, a: nat, i: nat, l: nat, grace: real) returns (f: nat)
    requires Between(j, a, i, grace) && a < l < i && IsCut(j[l])
    ensures a < f < i && OfLink(j, f) && !j[f].ev.Clean()
  {
    var k, y;
    k, f, y := CutBegan(j, a, l, grace);
    assert SameOperation(j, k, f);
  }

  lemma CutsAreUnclean(j: seq<Entry>, a: nat, i: nat, grace: real)
    requires Between(j, a, i, grace) && AllClean(j, a, i)
    ensures NoneCut(j, a, i)
  {
    forall l | a < l < i ensures !IsCut(j[l]) {
      if IsCut(j[l]) {
        var f := CutLooks(j, a, i, l, grace);
      }
    }
  }

  lemma StillLatched(j: seq<Entry>, a: nat, n: nat, y: nat)
    requires Anchored(j, a, n) && a < y <= n && NoEnable(j, a, y)
    ensures IntentAt(j, y).latched
  {
    assert LatchedAt(j, a, y);
  }

  lemma CutsNeedEnable(j: seq<Entry>, a: nat, i: nat, grace: real)
    requires Between(j, a, i, grace) && NoEnable(j, a, i)
    ensures NoneCut(j, a, i)
  {
    forall l | a < l < i ensures !IsCut(j[l]) {
      if IsCut(j[l]) {
        var k, f, y := CutBegan(j, a, l, grace);
        StillLatched(j, a, i - 1, y);
      }
    }
  }

  /** The release before entry i rests on the refresh at a: both were healthy, 120 s apart
      or more, and every link check between them was, except those of refreshes that were
      cut short. */
  ghost predicate LinkWasHealthy(j: seq<Entry>, a: nat, i: nat) {
    && a + 1 < i <= |j| && HealthyRefresh(j[a]) && HealthyRefresh(j[i - 1])
    && j[i - 1].seen.ev.at - j[a].seen.ev.at >= LinkHealth.COMMS_LATCH_RELEASE
    && forall x :: a < x < i ==> Unbroken(j[x])
  }

  /** A comms latch goes away only by an explicit enable, or after a healthy link, and that
      release leaves `enabled` false.  Then every frame that a poll or a refresh looked at
      between the two refreshes was valid, fault-free and not drawing, unless an explicit
      enable was issued between them; and they all were exactly if no refresh was cut
      short. */
  lemma CommsLatchRelease(j: seq<Entry>, i: nat, grace: real)
    requires Accepted(j, grace) && i < |j| && j[i].Changed? && ReadyAt(j, i)
    requires IntentAt(j, i).CommsLatch() && !j[i].intent.latched
    ensures || j[i].cause == Enable
            || (&& j[i].cause == LinkReleased && !j[i].intent.enabled
                && exists a: nat :: && LinkWasHealthy(j, a, i)
                                    && (NoEnable(j, a, i) ==> AllClean(j, a, i))
                                    && (AllClean(j, a, i) <==> NoneCut(j, a, i)))
  {
    assert PermittedAt(j, i, grace);
    StateIsHistory(j, i, grace);
    UnlatchingChange(At(j, i, grace), j[i].cause, j[i].intent);
    if j[i].cause != Enable {
      var a := ReleaseRests(j, i, grace);
      if NoEnable(j, a, i) { CutsNeedEnable(j, a, i, grace); }
      if NoneCut(j, a, i) { CleanWithoutCuts(j, a, i, grace); }
      if AllClean(j, a, i) { CutsAreUnclean(j, a, i, grace); }
    }
  }

  lemma ReleaseRests(j: seq<Entry>, i: nat, grace: real) returns (a: nat)
    requires Accepted(j, grace) && i < |j| && At(j, i, grace).releasable
    ensures Between(j, a, i, grace) && LinkWasHealthy(j, a, i)
  {
    OneStepFlags(At(j, i - 1, grace), j[i - 1]);
    TimerMeans(j, i - 1, grace);
    a :| Anchored(j, a, i - 1) && At(j, i - 1, grace).link == Some(j[a].seen.ev.at);
  }
}
