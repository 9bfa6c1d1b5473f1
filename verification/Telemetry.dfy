/**
  The telemetry grace: when unreadable telemetry forces a protective zero, and when
  readable telemetry lifts it again.

  `Step` is the streaming bookkeeping the controller keeps.  `Trips` and `Recovers`
  say the same thing about a whole history of observations, without any bookkeeping;
  `ProtectionIsHistorical` is the theorem that the two agree.
 */
module Telemetry {
  import opened Prelude
  import opened Evidence

  datatype State = State(
    protected: bool,
    badSince: Option<real>,
    badCount: nat,
    goodFirst: Option<Evidence>)

  const FRESH: State := State(false, None, 0, None)

  /** One observation, exactly as `_note_telemetry` processes it. */
  function Step(s: State, ev: Evidence, grace: real): State {
    if ev.Valid() then
      if !s.protected then State(false, None, 0, None)
      else if s.goodFirst.Some? && s.goodFirst.value.Agrees(ev) then
        if ev.at - s.goodFirst.value.at >= OBSERVATION_GAP then State(false, None, 0, None)
        else State(true, None, 0, s.goodFirst)
      else State(true, None, 0, Some(ev))
    else
      var since := if s.badSince.None? then ev.at else s.badSince.value;
      var count := s.badCount + 1;
      State(s.protected || (count >= 2 && ev.at - since >= grace), Some(since), count, None)
  }

  function Run(h: seq<Evidence>, grace: real): State {
    if h == [] then FRESH else Step(Run(h[..|h| - 1], grace), h[|h| - 1], grace)
  }

  // ---- the same, said about the history ------------------------------------------

  /** Where the unbroken run of invalid frames that ends the history begins. */
  function BadStart(h: seq<Evidence>): (b: nat)
    ensures b <= |h|
    ensures forall i :: b <= i < |h| ==> !h[i].Valid()
    ensures b > 0 ==> h[b - 1].Valid()
  {
    if h == [] || h[|h| - 1].Valid() then |h| else BadStart(h[..|h| - 1])
  }

  /** Where the unbroken run of valid, agreeing frames that ends the history begins. */
  function GoodStart(h: seq<Evidence>): (g: nat)
    ensures g <= |h|
    ensures forall i :: g <= i < |h| ==> h[i].Valid() && h[i].Agrees(h[|h| - 1])
    ensures 0 < g < |h| ==> !(h[g - 1].Valid() && h[g - 1].Agrees(h[g]))
    ensures g == |h| ==> h == [] || !h[|h| - 1].Valid()
  {
    if h == [] || !h[|h| - 1].Valid() then |h|
    else if |h| > 1 && h[|h| - 2].Valid() && h[|h| - 2].Agrees(h[|h| - 1]) then GoodStart(h[..|h| - 1])
    else |h| - 1
  }

  /** The history ends in two or more invalid frames in a row that span the grace. */
  ghost predicate Trips(h: seq<Evidence>, grace: real) {
    var b := BadStart(h);
    |h| - b >= 2 && h[|h| - 1].at - h[b].at >= grace
  }

  /** The history ends in valid frames agreeing on status and cable that span 1 s. */
  ghost predicate Recovers(h: seq<Evidence>) {
    var g := GoodStart(h);
    g < |h| && h[|h| - 1].at - h[g].at >= OBSERVATION_GAP
  }

  /** Some frame tripped the protection and no later frame ended it. */
  ghost predicate Protected(h: seq<Evidence>, grace: real) {
    exists n :: 0 < n <= |h| && Trips(h[..n], grace) && Unrecovered(h, n)
  }

  /** No frame after the first `n` completed a recovery. */
  ghost predicate Unrecovered(h: seq<Evidence>, n: nat) {
    forall k :: n < k <= |h| ==> !Recovers(h[..k])
  }

  /** What each field of the streaming state means in terms of the history. */
  ghost predicate Means(s: State, h: seq<Evidence>) {
    && s.badCount == |h| - BadStart(h)
    && s.badSince == (if BadStart(h) < |h| then Some(h[BadStart(h)].at) else None)
    && s.goodFirst == (if s.protected && GoodStart(h) < |h| then Some(h[GoodStart(h)]) else None)
  }

  lemma {:induction false} BookkeepingMeans(h: seq<Evidence>, grace: real)
    ensures Means(Run(h, grace), h)
    ensures Run(h, grace).protected && |h| > 0 ==> GoodStart(h) > 0
  {
    if h != [] {
      BookkeepingMeans(h[..|h| - 1], grace);
    }
  }

  /** One more observation switches the protection on exactly when it trips, and off
      exactly when it completes a recovery. */
  lemma ProtectionSwitches(h: seq<Evidence>, ev: Evidence, grace: real)
    ensures Run(h + [ev], grace).protected
        <==> Trips(h + [ev], grace) || (Run(h, grace).protected && !Recovers(h + [ev]))
    ensures Trips(h + [ev], grace) ==> !Recovers(h + [ev])
  {
    var n := h + [ev];
    assert n[..|n| - 1] == h;
    BookkeepingMeans(h, grace);
    BookkeepingMeans(n, grace);
  }

  /** The streaming state refines the predicate on the whole history. */
  lemma {:induction false} ProtectionIsHistorical(h: seq<Evidence>, grace: real)
    ensures Run(h, grace).protected <==> Protected(h, grace)
  {
    if h != [] {
      var p, ev := h[..|h| - 1], h[|h| - 1];
      assert h == p + [ev];
      ProtectionIsHistorical(p, grace);
      ProtectionSwitches(p, ev, grace);
      ProtectedGrows(p, ev, grace);
    }
  }

  lemma ProtectedGrows(p: seq<Evidence>, ev: Evidence, grace: real)
    ensures Protected(p + [ev], grace)
        <==> Trips(p + [ev], grace) || (Protected(p, grace) && !Recovers(p + [ev]))
  {
    var h := p + [ev];
    if Trips(h, grace) {
      assert h[..|h|] == h;
      assert Unrecovered(h, |h|);
    }
    if Protected(p, grace) && !Recovers(h) {
      ProtectedStays(p, ev, grace);
    }
    if Protected(h, grace) && !Trips(h, grace) {
      ProtectedWas(p, ev, grace);
    }
  }

  lemma ProtectedStays(p: seq<Evidence>, ev: Evidence, grace: real)
    requires Protected(p, grace) && !Recovers(p + [ev])
    ensures Protected(p + [ev], grace)
  {
    var h := p + [ev];
    var n :| 0 < n <= |p| && Trips(p[..n], grace) && Unrecovered(p, n);
    assert h[..n] == p[..n];
    UnrecoveredGrows(p, ev, n);
  }

  lemma ProtectedWas(p: seq<Evidence>, ev: Evidence, grace: real)
    requires Protected(p + [ev], grace) && !Trips(p + [ev], grace)
    ensures Protected(p, grace) && !Recovers(p + [ev])
  {
    var h := p + [ev];
    var n :| 0 < n <= |h| && Trips(h[..n], grace) && Unrecovered(h, n);
    assert h[..|h|] == h;
    assert n <= |p|;
    assert h[..n] == p[..n];
    UnrecoveredGrows(p, ev, n);
  }

  lemma UnrecoveredGrows(p: seq<Evidence>, ev: Evidence, n: nat)
    requires n <= |p|
    ensures Unrecovered(p + [ev], n) <==> Unrecovered(p, n) && !Recovers(p + [ev])
  {
    var h := p + [ev];
    assert h[..|h|] == h;
    assert forall k :: 0 <= k <= |p| ==> h[..k] == p[..k];
  }
}
