/**
  Releasing a fault latch that only lost communications caused.

  `Look` is one status frame of a poll or a refresh together with what became of it:
  a poll checks the link without touching a setpoint, a refresh checks it after its
  writes, and a refresh that an exception cut short never gets to the check.
 */
module LinkHealth {
  import opened Prelude
  import opened Evidence

  const COMMS_LATCH_RELEASE: real := 120.0

  datatype Look =
    | Polled(ev: Evidence, comms: bool)
    | Refreshed(ev: Evidence, comms: bool, zeroConfirmed: bool)
    | CutShort(ev: Evidence)
  {
    /** The link check passes: only a comms latch is set, the frame is clean and a
        refresh read its zero setpoint back. */
    predicate Healthy() {
      && !CutShort? && comms
      && (Refreshed? ==> zeroConfirmed)
      && ev.Clean()
    }
  }

  /** The latch is released on this look. */
  predicate Fires(since: Option<real>, look: Look) {
    look.Healthy() && look.Refreshed? && since.Some? && look.ev.at - since.value >= COMMS_LATCH_RELEASE
  }

  /** The release timer (`_note_link_health`). */
  function Step(since: Option<real>, look: Look): Option<real> {
    if look.CutShort? then since
    else if !look.Healthy() || Fires(since, look) then None
    else if look.Polled? then since
    else if since.None? then Some(look.ev.at)
    else since
  }

  function Run(h: seq<Look>): Option<real> {
    if h == [] then None else Step(Run(h[..|h| - 1]), h[|h| - 1])
  }

  /** Every look from a on that reached the link check found the link healthy. */
  ghost predicate HealthySince(h: seq<Look>, a: nat) {
    forall k :: a <= k < |h| && !h[k].CutShort? ==> h[k].Healthy()
  }

  /** No release between look a and the end of the history. */
  ghost predicate QuietSince(h: seq<Look>, a: nat) {
    forall n :: a <= n < |h| ==> !Fires(Run(h[..n]), h[n])
  }

  ghost predicate Chronological(h: seq<Look>) {
    forall i, j :: 0 <= i <= j < |h| ==> h[i].ev.at <= h[j].ev.at
  }

  /** Look a is the healthy refresh the timer runs from. */
  ghost predicate Anchor(h: seq<Look>, a: nat) {
    a < |h| && h[a].Refreshed? && HealthySince(h, a) && Run(h) == Some(h[a].ev.at)
  }

  lemma {:induction false} TimerMeans(h: seq<Look>)
    ensures Run(h).Some? ==> exists a: nat :: Anchor(h, a)
  {
    if h != [] {
      var p, look := h[..|h| - 1], h[|h| - 1];
      assert h == p + [look];
      TimerMeans(p);
      if Run(h).Some? {
        if Run(p).Some? {
          var a: nat :| Anchor(p, a);
          assert Anchor(h, a);
        } else {
          assert Anchor(h, |p|);
        }
      }
    }
  }

  /** A release comes after two healthy refreshes at least 120 s apart with every look
      between them healthy, as far as the looks reached the link check. */
  lemma ReleaseNeedsHealthyLink(h: seq<Look>, look: Look)
    requires Fires(Run(h), look)
    ensures exists a: nat :: a < |h| && h[a].Refreshed? && HealthySince(h + [look], a)
                             && look.ev.at - h[a].ev.at >= COMMS_LATCH_RELEASE
  {
    TimerMeans(h);
    var a: nat :| Anchor(h, a);
    assert HealthySince(h + [look], a);
  }

  /** Conversely such a history does release, at the latest on that look. */
  lemma HealthyLinkReleases(h: seq<Look>, look: Look, a: nat)
    requires Chronological(h + [look])
    requires a < |h| && h[a].Refreshed? && HealthySince(h, a) && QuietSince(h, a)
    requires look.Refreshed? && look.Healthy()
    requires look.ev.at - h[a].ev.at >= COMMS_LATCH_RELEASE
    ensures Fires(Run(h), look)
  {
    var n := h + [look];
    assert n[a] == h[a] && n[|h|] == look;
    assert Chronological(h) by {
      assert forall i :: 0 <= i < |h| ==> h[i] == n[i];
    }
    TimerRuns(h, a, |h|);
    assert h[..|h|] == h;
  }

  lemma {:induction false} TimerRuns(h: seq<Look>, a: nat, n: nat)
    requires Chronological(h)
    requires a < n <= |h| && h[a].Refreshed? && HealthySince(h, a) && QuietSince(h, a)
    ensures Run(h[..n]).Some? && Run(h[..n]).value <= h[a].ev.at
    decreases n
  {
    var p := h[..n];
    assert p[..n - 1] == h[..n - 1] && p[n - 1] == h[n - 1];
    assert !Fires(Run(h[..n - 1]), h[n - 1]);
    if n - 1 > a {
      TimerRuns(h, a, n - 1);
    } else if Run(h[..a]).Some? {
      TimerMeans(h[..a]);
      var b: nat :| Anchor(h[..a], b);
      assert h[b].ev.at <= h[a].ev.at;
    }
  }

  ghost predicate AllHealthy(h: seq<Look>, a: nat) {
    forall k :: a <= k < |h| ==> h[k].Healthy()
  }

  ghost predicate NoneCut(h: seq<Look>, a: nat) {
    forall k :: a <= k < |h| ==> !h[k].CutShort?
  }

  /** From the first of the two refreshes on, every single look was healthy exactly if no
      refresh was cut short from there on. */
  lemma ReleaseNeedsEveryFrame(h: seq<Look>, look: Look)
    requires Fires(Run(h), look)
    ensures exists a: nat :: a < |h| && h[a].Refreshed? && (AllHealthy(h, a) <==> NoneCut(h, a))
                             && look.ev.at - h[a].ev.at >= COMMS_LATCH_RELEASE
  {
    ReleaseNeedsHealthyLink(h, look);
    var a: nat :| a < |h| && h[a].Refreshed? && HealthySince(h + [look], a)
                  && look.ev.at - h[a].ev.at >= COMMS_LATCH_RELEASE;
    assert forall k :: a <= k < |h| ==> (h + [look])[k] == h[k];
  }
}
