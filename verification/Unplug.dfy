/**
  Releasing a user pause on a confirmed unplug, and adopting the next session.

  `Step` is the bookkeeping of `_track_unplug`; `Look` is one call of it: the frame,
  and whether the intent was an ordinary user pause (it asks for zero, with neither a
  fault latch nor a Stop fallback) at that moment.
 */
module Unplug {
  import opened Prelude
  import opened Evidence

  datatype Look = Look(ev: Evidence, userPause: bool) {
    /** The cable is known to be out while the intent is an ordinary pause. */
    predicate Out() {
      userPause && ev.CableOut()
    }
  }

  datatype State = State(released: bool, first: Option<real>)

  const IDLE: State := State(false, None)

  /** A released pause is over as soon as a valid session shows up. */
  predicate Adopts(s: State, look: Look) {
    look.userPause && s.released && look.ev.SessionActive()
  }

  function Step(s: State, look: Look): State {
    if !look.userPause then State(false, None)
    else if s.released then State(!look.ev.SessionActive(), s.first)
    else if look.ev.CableOut() then
      if s.first.None? then State(false, Some(look.ev.at))
      else if look.ev.at - s.first.value >= OBSERVATION_GAP then State(true, None)
      else s
    else State(false, None)
  }

  function Run(h: seq<Look>): State {
    if h == [] then IDLE else Step(Run(h[..|h| - 1]), h[|h| - 1])
  }

  // ---- the same, said about the history ------------------------------------------

  /** Looks a..b are all cable-out and span at least a second. */
  ghost predicate Confirmed(h: seq<Look>, a: nat, b: nat) {
    && a <= b < |h|
    && (forall k :: a <= k <= b ==> h[k].Out())
    && h[b].ev.at - h[a].ev.at >= OBSERVATION_GAP
  }

  /** After the unplug every look was still an ordinary pause without a session. */
  ghost predicate Undisturbed(h: seq<Look>, b: nat) {
    forall k :: b < k < |h| ==> h[k].userPause && !h[k].ev.SessionActive()
  }

  ghost predicate Released(h: seq<Look>) {
    exists a: nat, b: nat :: Confirmed(h, a, b) && Undisturbed(h, b)
  }

  ghost predicate Chronological(h: seq<Look>) {
    forall i, j :: 0 <= i <= j < |h| ==> h[i].ev.at <= h[j].ev.at
  }

  /** Where the unbroken run of cable-out looks that ends the history begins. */
  function OutStart(h: seq<Look>): (a: nat)
    ensures a <= |h|
    ensures forall i :: a <= i < |h| ==> h[i].Out()
    ensures a > 0 ==> !h[a - 1].Out()
  {
    if h == [] || !h[|h| - 1].Out() then |h| else OutStart(h[..|h| - 1])
  }

  /** The timer runs from a look inside the current unbroken cable-out run; without a
      release it is that run's very first look. */
  lemma {:induction false} TimerMeans(h: seq<Look>)
    ensures Run(h).released ==> Run(h).first.None?
    ensures !Run(h).released && OutStart(h) < |h| && !Released(h) ==>
              Run(h).first == Some(h[OutStart(h)].ev.at)
    ensures !Run(h).released && OutStart(h) == |h| ==> Run(h).first.None?
    ensures Run(h).first.Some? ==>
              OutStart(h) < |h| && exists a: nat :: StartedAt(h, a)
  {
    if h != [] {
      var p, look := h[..|h| - 1], h[|h| - 1];
      assert h == p + [look];
      TimerMeans(p);
      ReleasedGrows(p, look);
      if Run(h).first.Some? {
        if Run(p).first.Some? {
          var a: nat :| StartedAt(p, a);
          assert StartedAt(h, a);
        } else {
          assert StartedAt(h, |h| - 1);
        }
      }
    }
  }

  ghost predicate StartedAt(h: seq<Look>, a: nat) {
    OutStart(h) <= a < |h| && Run(h).first == Some(h[a].ev.at)
  }

  lemma ReleasedGrows(p: seq<Look>, look: Look)
    ensures Released(p) && look.userPause && !look.ev.SessionActive() ==> Released(p + [look])
  {
    var h := p + [look];
    if Released(p) && look.userPause && !look.ev.SessionActive() {
      var a: nat, b: nat :| Confirmed(p, a, b) && Undisturbed(p, b);
      assert Confirmed(h, a, b) && Undisturbed(h, b);
    }
  }

  /** A released pause was preceded by a confirmed unplug, undisturbed since. */
  lemma {:induction false} ReleaseNeedsUnplug(h: seq<Look>)
    ensures Run(h).released ==> Released(h)
  {
    if h != [] {
      var p, look := h[..|h| - 1], h[|h| - 1];
      assert h == p + [look];
      ReleaseNeedsUnplug(p);
      ReleasedGrows(p, look);
      TimerMeans(p);
      if Run(h).released && !Run(p).released {
        var a: nat :| StartedAt(p, a);
        assert Confirmed(h, a, |h| - 1) && Undisturbed(h, |h| - 1);
      }
    }
  }

  /** And a confirmed unplug, undisturbed since, always releases it. */
  lemma {:induction false} UnplugReleases(h: seq<Look>)
    requires Chronological(h) && Released(h)
    ensures Run(h).released
  {
    var p, look := h[..|h| - 1], h[|h| - 1];
    assert h == p + [look];
    var a: nat, b: nat :| Confirmed(h, a, b) && Undisturbed(h, b);
    if b < |p| {
      assert Confirmed(p, a, b) && Undisturbed(p, b);
      UnplugReleases(p);
    } else if Released(p) {
      UnplugReleases(p);
    } else {
      if Run(p).released { ReleaseNeedsUnplug(p); }
      assert a < |p|;
      TimerMeans(p);
      assert OutStart(p) <= a;
      assert h[OutStart(p)].ev.at <= h[a].ev.at;
    }
  }

  /** An adoption happens exactly on a session seen in a released pause: for the whole
      history before it, that is a confirmed unplug with no latch, Stop fallback or
      session at any look since. */
  lemma AdoptionIsHistorical(h: seq<Look>, look: Look)
    requires Chronological(h)
    ensures Adopts(Run(h), look) <==> look.userPause && look.ev.SessionActive() && Released(h)
  {
    if Released(h) { UnplugReleases(h); }
    if Run(h).released { ReleaseNeedsUnplug(h); }
  }
}
