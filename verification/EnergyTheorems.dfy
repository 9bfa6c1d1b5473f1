/**
  What the guarded counters promise over whole runs: physical readings pass, the lifetime
  counter never goes backwards, a hardware reset is earned, the window stays honest.
 */
module EnergyTheorems {
  import opened Prelude
  import opened EnergyGuard
  import opened EnergyTracking

  /** The counter after the first n polls. */
  function At(s: Counter, key: Key, h: seq<Poll>, n: nat): Counter
    requires n <= |h|
  {
    if n == 0 then s else Step(At(s, key, h, n - 1), key, h[n - 1]).counter
  }

  function OutcomeAt(s: Counter, key: Key, h: seq<Poll>, n: nat): Outcome
    requires n < |h|
  {
    Step(At(s, key, h, n), key, h[n])
  }

  /** Polls never run backwards, nor behind the last good reading they start from. */
  ghost predicate Chronological(s: Counter, h: seq<Poll>) {
    && (forall i, j :: 0 <= i <= j < |h| ==> h[i].at <= h[j].at)
    && (s.last.Some? && h != [] ==> s.last.value.at <= h[0].at)
  }

  /** The last good reading is never newer than the latest poll. */
  lemma {:induction false} LastIsPast(s: Counter, key: Key, h: seq<Poll>, n: nat)
    requires Chronological(s, h) && n < |h|
    ensures At(s, key, h, n).last.Some? ==> At(s, key, h, n).last.value.at <= h[n].at
  {
    if n > 0 {
      LastIsPast(s, key, h, n - 1);
      LastMoves(At(s, key, h, n - 1), key, h[n - 1]);
    }
  }

  lemma LastMoves(s: Counter, key: Key, p: Poll)
    ensures var o := Step(s, key, p);
            o.counter.last == if o.accepted.Some? then Some(Sample(p.at, o.accepted.value)) else s.last
  {
  }

  // ---- the rolling window -----------------------------------------------------------

  ghost predicate InOrder(w: seq<Sample>) {
    forall i, j :: 0 <= i <= j < |w| ==> w[i].at <= w[j].at && w[i].raw <= w[j].raw
  }

  /** Sorted by time, nondecreasing, no longer than half an hour, ending in the last good
      reading. */
  ghost predicate WindowSound(s: Counter) {
    && InOrder(s.window)
    && (s.window != [] ==>
          && s.last == Some(s.window[|s.window| - 1])
          && s.window[|s.window| - 1].at - s.window[0].at <= WINDOW_SECONDS)
  }

  lemma ExtendedIsSound(w: seq<Sample>, good: Sample)
    requires InOrder(w) && (w != [] ==> w[|w| - 1].at <= good.at && w[|w| - 1].raw <= good.raw)
    ensures var t := Extended(w, good);
            InOrder(t) && t != [] && t[|t| - 1] == good && good.at - t[0].at <= WINDOW_SECONDS
  {
    var k := TrimDropsOld(w + [good], good.at - WINDOW_SECONDS);
    AppendedInOrder(w, good);
    SuffixInOrder(w + [good], k);
  }

  lemma AppendedInOrder(w: seq<Sample>, good: Sample)
    requires InOrder(w) && (w != [] ==> w[|w| - 1].at <= good.at && w[|w| - 1].raw <= good.raw)
    ensures InOrder(w + [good]) && (w + [good])[|w|] == good
  {
    forall i, j | 0 <= i <= j < |w| + 1
      ensures (w + [good])[i].at <= (w + [good])[j].at && (w + [good])[i].raw <= (w + [good])[j].raw
    {
      if i < |w| { assert w[i].at <= w[|w| - 1].at; }
    }
  }

  lemma SuffixInOrder(w: seq<Sample>, k: nat)
    requires InOrder(w) && k <= |w|
    ensures InOrder(w[k..])
  {
  }

  /** An accepted decrease restarts the window, so the window never holds one. */
  lemma AcceptedRises(s: Counter, key: Key, p: Poll)
    requires p.raw.Some? && s.last.Some?
    requires Accepts(p.raw.value + s.offset, s.last, p.at, p.maxPower, key.AllowDecrease(), p.boundary)
    ensures p.raw.value + s.offset < s.last.value.raw ==>
              key.AllowDecrease() && (p.boundary || p.raw.value + s.offset <= NEAR_ZERO)
  {
  }

  lemma StepKeepsWindow(s: Counter, key: Key, p: Poll)
    requires WindowSound(s) && (s.last.Some? ==> s.last.value.at <= p.at)
    ensures WindowSound(Step(s, key, p).counter)
  {
    if p.raw.Some? {
      var raw := p.raw.value + s.offset;
      if Accepts(raw, s.last, p.at, p.maxPower, key.AllowDecrease(), p.boundary) {
        if s.last.Some? { AcceptedRises(s, key, p); }
        PlausibleKeepsWindow(s, key, raw, p);
      }
    }
  }

  lemma PlausibleKeepsWindow(s: Counter, key: Key, raw: int, p: Poll)
    requires WindowSound(s) && (s.last.Some? ==> s.last.value.at <= p.at)
    requires s.last.Some? && raw < s.last.value.raw ==> key.AllowDecrease() && (p.boundary || raw <= NEAR_ZERO)
    ensures WindowSound(Plausible(s, key, raw, p).counter)
  {
    if !(key.AllowDecrease() && (p.boundary || raw <= NEAR_ZERO)) {
      ExtendedIsSound(s.window, Sample(p.at, raw));
    }
  }

  /** In every reachable state the window is sound. */
  lemma {:induction false} WindowStaysSound(s: Counter, key: Key, h: seq<Poll>, n: nat)
    requires Chronological(s, h) && n <= |h| && WindowSound(s)
    ensures WindowSound(At(s, key, h, n))
  {
    if n > 0 {
      WindowStaysSound(s, key, h, n - 1);
      LastIsPast(s, key, h, n - 1);
      StepKeepsWindow(At(s, key, h, n - 1), key, h[n - 1]);
    }
  }

  function NetKwh(w: seq<Sample>): real
    requires w != []
  {
    (w[|w| - 1].raw - w[0].raw) as real * QUANTUM
  }

  function Span(w: seq<Sample>): real
    requires w != []
  {
    w[|w| - 1].at - w[0].at
  }

  /** Right after an acceptance that leaves five samples or more, the net rise is within
      one quantum plus the rate allowance exactly if some time passed in the window, or
      it rose by at most one quantum in no time at all. */
  lemma NetRiseIsBounded(s: Counter, key: Key, p: Poll)
    requires WindowSound(s) && (s.last.Some? ==> s.last.value.at <= p.at)
    requires Step(s, key, p).accepted.Some? && |Step(s, key, p).counter.window| >= WINDOW_MIN_SAMPLES
    ensures var w := Step(s, key, p).counter.window;
            NetKwh(w) <= Allowance(p.maxPower, Span(w)) <==> Span(w) > 0.0 || NetKwh(w) <= QUANTUM
  {
    var w := Step(s, key, p).counter.window;
    StepKeepsWindow(s, key, p);
    AcceptedIsNotOverrun(s, key, p);
    assert 0.0 <= Span(w);
    if Span(w) == 0.0 {
      assert Allowance(p.maxPower, Span(w)) == QUANTUM by { ZeroTime(p.maxPower, Span(w)); }
    }
  }

  lemma ZeroTime(maxPower: real, elapsed: real)
    requires elapsed == 0.0
    ensures Allowance(maxPower, elapsed) == QUANTUM
  {
    assert maxPower * elapsed == 0.0;
  }

  lemma AcceptedIsNotOverrun(s: Counter, key: Key, p: Poll)
    requires Step(s, key, p).accepted.Some? && |Step(s, key, p).counter.window| >= WINDOW_MIN_SAMPLES
    ensures !Overrun(Step(s, key, p).counter.window, p.maxPower)
  {
  }

  /** So it is enough that the clock moved on since the last good reading. */
  lemma NetRiseSinceLastIsBounded(s: Counter, key: Key, p: Poll)
    requires WindowSound(s) && (s.last.Some? ==> s.last.value.at < p.at)
    requires Step(s, key, p).accepted.Some? && |Step(s, key, p).counter.window| >= WINDOW_MIN_SAMPLES
    ensures var w := Step(s, key, p).counter.window; NetKwh(w) <= Allowance(p.maxPower, Span(w))
  {
    var w := Step(s, key, p).counter.window;
    NetRiseIsBounded(s, key, p);
    var good := Sample(p.at, p.raw.value + s.offset);
    assert w == Extended(s.window, good);
    var k := TrimDropsOld(s.window + [good], good.at - WINDOW_SECONDS);
    assert w[0] == s.window[k];
    assert s.window[k].at <= s.window[|s.window| - 1].at;
  }

  /** Over any run: wherever a reading is accepted at a later clock time than every earlier
      poll, the net rise in the window is within the allowance. */
  lemma NetRiseIsBoundedInRuns(s: Counter, key: Key, h: seq<Poll>, n: nat)
    requires Chronological(s, h) && WindowSound(s) && n < |h|
    requires s.last.Some? ==> s.last.value.at < h[n].at
    requires forall m :: 0 <= m < n ==> h[m].at < h[n].at
    requires OutcomeAt(s, key, h, n).accepted.Some?
    requires |OutcomeAt(s, key, h, n).counter.window| >= WINDOW_MIN_SAMPLES
    ensures var w := OutcomeAt(s, key, h, n).counter.window; NetKwh(w) <= Allowance(h[n].maxPower, Span(w))
  {
    WindowStaysSound(s, key, h, n);
    LastIsEarlier(s, key, h, n);
    NetRiseSinceLastIsBounded(At(s, key, h, n), key, h[n]);
  }

  /** The last good reading is one of the polls, or was there before the run. */
  lemma {:induction false} LastIsEarlier(s: Counter, key: Key, h: seq<Poll>, n: nat)
    requires n <= |h|
    ensures var last := At(s, key, h, n).last;
            last == s.last || exists m :: 0 <= m < n && last.Some? && last.value.at == h[m].at
  {
    if n > 0 {
      LastIsEarlier(s, key, h, n - 1);
      LastMoves(At(s, key, h, n - 1), key, h[n - 1]);
    }
  }

  /** Polls at one clock time, each reading one step more than the one before. */
  function InstantPolls(n: nat): seq<Poll> {
    seq(n, i requires 0 <= i < n => Poll(Some(i), 0.0, 7.3, false))
  }

  function InstantWindow(n: nat): seq<Sample> {
    seq(n, i requires 0 <= i < n => Sample(0.0, i))
  }

  /** The counter after n such polls. */
  function Risen(n: nat): Counter {
    Counter(if n == 0 then None else Some(Sample(0.0, n - 1)), InstantWindow(n), 0, None)
  }

  lemma InstantStep(n: nat)
    requires n < WINDOW_MIN_SAMPLES
    ensures Step(Risen(n), TotalEnergy, Poll(Some(n), 0.0, 7.3, false)) == Outcome(Risen(n + 1), Some(n), false)
  {
    var (w, good) := (InstantWindow(n), Sample(0.0, n));
    assert w + [good] == InstantWindow(n + 1);
    assert InstantWindow(n + 1)[0].at == 0.0;
    assert Extended(w, good) == InstantWindow(n + 1);
    assert !Overrun(InstantWindow(n + 1), 7.3);
    assert Accepts(n, Risen(n).last, 0.0, 7.3, false, false);
  }

  lemma {:induction false} InstantRun(h: seq<Poll>, n: nat)
    requires h == InstantPolls(|h|) && n <= |h| <= WINDOW_MIN_SAMPLES
    ensures At(UNKNOWN, TotalEnergy, h, n) == Risen(n)
  {
    if n > 0 {
      InstantRun(h, n - 1);
      InstantStep(n - 1);
    }
  }

  /** The window check is skipped when no time has passed: from a fresh start, five polls at
      one clock time that each rise by one quantum are all accepted, and the rise exceeds
      the allowance. */
  lemma InstantRiseEscapes()
    ensures var h := InstantPolls(WINDOW_MIN_SAMPLES);
            var o := OutcomeAt(UNKNOWN, TotalEnergy, h, 4);
            && Chronological(UNKNOWN, h) && o.accepted == Some(4) && |o.counter.window| == WINDOW_MIN_SAMPLES
            && NetKwh(o.counter.window) > Allowance(7.3, Span(o.counter.window))
  {
    var h := InstantPolls(WINDOW_MIN_SAMPLES);
    InstantRun(h, 4);
    InstantStep(4);
    ZeroTime(7.3, Span(InstantWindow(5)));
  }

  // ---- what is taken over, and what is not -------------------------------------------

  /** How far a counter may rise above its last good reading, in kWh: one step, and one and
      a half times what the charger's power gives in the time since, a second at least. */
  function MostRise(last: Sample, at: real, maxPower: real): real {
    0.1 + maxPower * (if at - last.at < 1.0 then 1.0 else at - last.at) / 3600.0 * 1.5
  }

  /** The reading, offset added, lies in the range of the counter and no further above the
      last good one than that. */
  predicate Credible(s: Counter, raw: int, p: Poll) {
    && 0 <= raw && raw as real * 0.1 <= 100000.0
    && (s.last.Some? ==> (raw - s.last.value.raw) as real * 0.1 <= MostRise(s.last.value, p.at, p.maxPower))
  }

  /** What the rolling window allows: five samples or more within half an hour of the new
      reading, over some time, may rise by one step and 1.5 times what the power gives. */
  predicate WindowAllows(w: seq<Sample>, maxPower: real) {
    |w| < 5 || w[|w| - 1].at <= w[0].at
    || (w[|w| - 1].raw - w[0].raw) as real * 0.1 <= 0.1 + maxPower * (w[|w| - 1].at - w[0].at) / 3600.0 * 1.5
  }

  lemma RateTerms(last: Sample, at: real, maxPower: real, delta: int)
    ensures delta as real <= Allowance(maxPower, Max(at - last.at, 1.0)) / QUANTUM
        <==> delta as real * 0.1 <= MostRise(last, at, maxPower)
  {
    assert Allowance(maxPower, Max(at - last.at, 1.0)) == MostRise(last, at, maxPower);
    Tenths(delta as real, MostRise(last, at, maxPower));
  }

  lemma Tenths(x: real, y: real)
    ensures x <= y / 0.1 <==> x * 0.1 <= y
  {
    assert y / 0.1 == 10.0 * y;
  }

  lemma RiseIsJudged(s: Counter, raw: int, p: Poll, decrease: bool)
    requires s.last.Some? ==> raw >= s.last.value.raw
    ensures Accepts(raw, s.last, p.at, p.maxPower, decrease, p.boundary) <==> Credible(s, raw, p)
  {
    if s.last.Some? {
      RateTerms(s.last.value, p.at, p.maxPower, raw - s.last.value.raw);
    }
  }

  /** A reading that is not below the last good one is taken over exactly if it is credible
      and the window allows it, and then it is what is published. */
  lemma RiseIsAcceptedExactly(s: Counter, key: Key, p: Poll)
    requires p.raw.Some? && (s.last.Some? ==> p.raw.value + s.offset >= s.last.value.raw)
    ensures var raw := p.raw.value + s.offset;
            var restarts := key == CurrentEnergy && (p.boundary || raw <= 2);
            var w := Trim(s.window + [Sample(p.at, raw)], p.at - 1800.0);
            Step(s, key, p).accepted == if Credible(s, raw, p) && (restarts || WindowAllows(w, p.maxPower))
                                        then Some(raw) else None
    ensures !Step(s, key, p).reset
  {
    RiseIsJudged(s, p.raw.value + s.offset, p, key.AllowDecrease());
  }

  /** A reading below the last good one: a session counter takes it over when it restarts, a
      lifetime counter never, unless a reset is confirmed. */
  lemma FallIsAcceptedExactly(s: Counter, key: Key, p: Poll)
    requires p.raw.Some? && s.last.Some? && p.raw.value + s.offset < s.last.value.raw
    ensures key == CurrentEnergy ==>
              var raw := p.raw.value + s.offset;
              Step(s, key, p).accepted == if 0 <= raw && raw as real * 0.1 <= 100000.0
                                             && (raw <= 2 || (p.boundary && raw as real * 0.1
                                                                <= MostRise(s.last.value, p.at, p.maxPower)))
                                          then Some(raw) else None
    ensures key == TotalEnergy ==> Step(s, key, p).accepted.Some? == Step(s, key, p).reset
  {
    var raw := p.raw.value + s.offset;
    RateTerms(s.last.value, p.at, p.maxPower, raw);
  }

  /** Over any run: unless a reset is confirmed, a reading that rises further than it may is
      dropped and leaves what is published as it was; one that is taken over has risen no
      further. */
  lemma NoJumpIsPublished(s: Counter, key: Key, h: seq<Poll>, n: nat)
    requires n < |h| && h[n].raw.Some? && At(s, key, h, n).last.Some? && !OutcomeAt(s, key, h, n).reset
    ensures var m := At(s, key, h, n);
            var rise := (h[n].raw.value + m.offset - m.last.value.raw) as real * 0.1;
            && (rise > MostRise(m.last.value, h[n].at, h[n].maxPower) && rise > 0.0 ==>
                  && OutcomeAt(s, key, h, n).accepted.None?
                  && Published(At(s, key, h, n + 1)) == Published(m))
            && (OutcomeAt(s, key, h, n).accepted.Some? && rise > 0.0 ==>
                  rise <= MostRise(m.last.value, h[n].at, h[n].maxPower))
  {
    var m := At(s, key, h, n);
    AcceptedIsPublished(m, key, h[n]);
    if h[n].raw.value + m.offset >= m.last.value.raw {
      RiseIsAcceptedExactly(m, key, h[n]);
    }
  }

  // ---- the lifetime counter never goes backwards ------------------------------------

  /** A suspected reset only ever follows its counter upwards. */
  predicate CandidateSound(s: Counter) {
    s.candidate.Some? ==> s.candidate.value.firstRaw <= s.candidate.value.lastRaw
  }

  lemma StepNeverDrops(s: Counter, p: Poll)
    requires CandidateSound(s)
    ensures var o := Step(s, TotalEnergy, p);
            && CandidateSound(o.counter)
            && (Published(s).Some? ==> Published(o.counter).Some? && Published(o.counter).value >= Published(s).value)
  {
    if p.raw.Some? && s.last.Some?
       && Accepts(p.raw.value + s.offset, s.last, p.at, p.maxPower, false, p.boundary) {
      LifetimeNeverDrops(p.raw.value + s.offset, s.last.value, p.at, p.maxPower, p.boundary);
    }
  }

  /** Over any run, whatever is read and however often the hardware counter is reset, the
      published lifetime counter never decreases and never disappears again. */
  lemma {:induction false} PublishedNeverDrops(s: Counter, h: seq<Poll>, m: nat, n: nat)
    requires CandidateSound(s) && m <= n <= |h|
    ensures CandidateSound(At(s, TotalEnergy, h, n))
    ensures var a, b := Published(At(s, TotalEnergy, h, m)), Published(At(s, TotalEnergy, h, n));
            a.Some? ==> b.Some? && a.value <= b.value
    decreases n
  {
    if m < n {
      PublishedNeverDrops(s, h, m, n - 1);
      StepNeverDrops(At(s, TotalEnergy, h, n - 1), h[n - 1]);
    } else if n > 0 {
      PublishedNeverDrops(s, h, n - 1, n - 1);
      StepNeverDrops(At(s, TotalEnergy, h, n - 1), h[n - 1]);
    }
  }

  // ---- a counter reset is earned ----------------------------------------------------

  /** Poll x is not accepted. */
  ghost predicate Unaccepted(s: Counter, h: seq<Poll>, x: nat) {
    x < |h| && OutcomeAt(s, TotalEnergy, h, x).accepted.None?
  }

  /** `b` follows `a` at a rate the charger could deliver, without going down. */
  predicate Follows(a: Poll, b: Poll) {
    && a.raw.Some? && b.raw.Some? && a.raw.value <= b.raw.value
    && Accepts(b.raw.value, Some(Sample(a.at, a.raw.value)), b.at, b.maxPower, false, false)
  }

  ghost predicate FollowsAt(h: seq<Poll>, idx: seq<nat>, i: nat) {
    && 0 < i < |idx| && idx[i - 1] < |h| && idx[i] < |h|
    && Follows(h[idx[i - 1]], h[idx[i]])
  }

  ghost predicate AllFollow(h: seq<Poll>, idx: seq<nat>) {
    forall i :: 0 < i < |idx| ==> FollowsAt(h, idx, i)
  }

  lemma FollowsOn(h: seq<Poll>, before: seq<nat>, n: nat)
    requires before != [] && before[|before| - 1] < |h| && n < |h|
    requires AllFollow(h, before) && Follows(h[before[|before| - 1]], h[n])
    ensures AllFollow(h, before + [n])
  {
    forall i | 0 < i < |before| + 1 ensures FollowsAt(h, before + [n], i) {
      if i < |before| { assert FollowsAt(h, before, i); }
    }
  }

  /** The polls `idx` are low readings: each below the last good value, each following
      the one before it, and nothing was accepted from the first of them on. */
  ghost predicate LowReadings(s: Counter, h: seq<Poll>, idx: seq<nat>, n: nat) {
    && n <= |h| && idx != []
    && (forall i :: 0 <= i < |idx| ==> idx[i] < n && h[idx[i]].raw.Some?)
    && (forall i, j :: 0 <= i < j < |idx| ==> idx[i] < idx[j])
    && AllFollow(h, idx)
    && (forall x :: idx[0] <= x < n ==> Unaccepted(s, h, x))
    && (forall i :: 0 <= i < |idx| ==> IsLow(At(s, TotalEnergy, h, idx[i]), h[idx[i]]))
  }

  predicate IsLow(s: Counter, p: Poll) {
    s.last.Some? && p.raw.Some? && p.raw.value + s.offset < s.last.value.raw
  }

  /** The suspected reset is exactly what these low readings amount to. */
  ghost predicate Amounts(h: seq<Poll>, idx: seq<nat>, c: Candidate) {
    && idx != [] && |idx| == c.polls
    && (forall i :: 0 <= i < |idx| ==> idx[i] < |h|)
    && var a, b := h[idx[0]], h[idx[|idx| - 1]];
       && a.raw == Some(c.firstRaw) && a.at == c.firstAt
       && b.raw == Some(c.lastRaw) && b.at == c.lastAt
  }

  lemma UnacceptedKeeps(s: Counter, key: Key, p: Poll)
    requires Step(s, key, p).accepted.None?
    ensures var c := Step(s, key, p).counter; c.last == s.last && c.offset == s.offset
  {
  }

  /** A step that leaves a suspected reset behind either left it alone or saw a low
      reading. */
  lemma CandidateStep(s: Counter, p: Poll)
    requires Step(s, TotalEnergy, p).counter.candidate.Some?
    ensures var o := Step(s, TotalEnergy, p);
            && o.accepted.None?
            && (o.counter.candidate == s.candidate
                || (IsLow(s, p)
                    && o.counter.candidate == Some(LowReading(s.candidate, p.raw.value, p.at, p.maxPower))))
  {
  }

  /** What a low reading of the lifetime counter does to a suspected reset: it goes on if it
      follows the one before at a possible rate, and starts over if not; after twenty such
      readings over ten minutes or more the counter is taken to have been reset, and counts on
      from its last good value. */
  lemma LowReadingExactly(s: Counter, p: Poll)
    requires IsLow(s, p)
    ensures var raw := p.raw.value;
            var c := if s.candidate.Some? && s.candidate.value.lastRaw <= raw
                        && 0 <= raw && raw as real * 0.1 <= 100000.0
                        && (raw - s.candidate.value.lastRaw) as real * 0.1
                           <= MostRise(Sample(s.candidate.value.lastAt, s.candidate.value.lastRaw), p.at, p.maxPower)
                     then Candidate(s.candidate.value.firstRaw, s.candidate.value.firstAt, raw, p.at,
                                    s.candidate.value.polls + 1)
                     else Candidate(raw, p.at, raw, p.at, 1);
            var good := s.last.value.raw + (raw - c.firstRaw);
            Step(s, TotalEnergy, p)
            == if c.polls >= 20 && p.at - c.firstAt >= 600.0
               then Outcome(Counter(Some(Sample(p.at, good)), [Sample(p.at, good)],
                                    s.last.value.raw - c.firstRaw, None),
                            Some(good), true)
               else Outcome(s.(candidate := Some(c)), None, false)
  {
    if s.candidate.Some? {
      var c := s.candidate.value;
      RateTerms(Sample(c.lastAt, c.lastRaw), p.at, p.maxPower, p.raw.value - c.lastRaw);
    }
  }

  /** Where a suspected reset comes from. */
  lemma {:induction false} CandidateIsHistory(s: Counter, h: seq<Poll>, n: nat) returns (idx: seq<nat>)
    requires n <= |h| && s.candidate.None?
    ensures var c := At(s, TotalEnergy, h, n).candidate;
            c.Some? ==> LowReadings(s, h, idx, n) && Amounts(h, idx, c.value)
    decreases n
  {
    idx := [];
    if n > 0 {
      var m := At(s, TotalEnergy, h, n - 1);
      var before := CandidateIsHistory(s, h, n - 1);
      if At(s, TotalEnergy, h, n).candidate.Some? {
        CandidateStep(m, h[n - 1]);
        if At(s, TotalEnergy, h, n).candidate == m.candidate {
          idx := before;
        } else {
          idx := LowRunGrows(s, h, n, before);
        }
      }
    }
  }

  /** One more low reading extends the run of low readings, or starts a new one. */
  lemma LowRunGrows(s: Counter, h: seq<Poll>, n: nat, before: seq<nat>) returns (idx: seq<nat>)
    requires 0 < n <= |h|
    requires var m := At(s, TotalEnergy, h, n - 1);
             && (m.candidate.Some? ==> LowReadings(s, h, before, n - 1) && Amounts(h, before, m.candidate.value))
             && IsLow(m, h[n - 1])
    requires Unaccepted(s, h, n - 1)
    ensures var (m, p) := (At(s, TotalEnergy, h, n - 1), h[n - 1]);
            var c := LowReading(m.candidate, p.raw.value, p.at, p.maxPower);
            LowReadings(s, h, idx, n) && Amounts(h, idx, c)
  {
    var m, p := At(s, TotalEnergy, h, n - 1), h[n - 1];
    var c := LowReading(m.candidate, p.raw.value, p.at, p.maxPower);
    if m.candidate.Some? && c.polls == m.candidate.value.polls + 1 {
      idx := before + [n - 1];
      FollowsOn(h, before, n - 1);
      LowReadingsGrow(s, h, before, n);
    } else {
      idx := [n - 1];
    }
  }

  lemma LowReadingsGrow(s: Counter, h: seq<Poll>, before: seq<nat>, n: nat)
    requires 0 < n <= |h| && LowReadings(s, h, before, n - 1) && Unaccepted(s, h, n - 1)
    requires IsLow(At(s, TotalEnergy, h, n - 1), h[n - 1])
    requires AllFollow(h, before + [n - 1])
    ensures LowReadings(s, h, before + [n - 1], n)
  {
    var idx := before + [n - 1];
    forall i | 0 <= i < |idx|
      ensures idx[i] < n && h[idx[i]].raw.Some? && IsLow(At(s, TotalEnergy, h, idx[i]), h[idx[i]])
    {
      if i < |before| { assert IsLow(At(s, TotalEnergy, h, before[i]), h[before[i]]); }
    }
    assert idx[0] == before[0];
    forall x | idx[0] <= x < n ensures Unaccepted(s, h, x) {
    }
  }

  /** Until something is accepted, the last good value and the offset stay. */
  lemma {:induction false} NothingMoves(s: Counter, h: seq<Poll>, a: nat, n: nat)
    requires a <= n <= |h| && forall x :: a <= x < n ==> Unaccepted(s, h, x)
    ensures At(s, TotalEnergy, h, n).last == At(s, TotalEnergy, h, a).last
    ensures At(s, TotalEnergy, h, n).offset == At(s, TotalEnergy, h, a).offset
    decreases n
  {
    if a < n {
      NothingMoves(s, h, a, n - 1);
      assert Unaccepted(s, h, n - 1);
      UnacceptedKeeps(At(s, TotalEnergy, h, n - 1), TotalEnergy, h[n - 1]);
    }
  }

  lemma ResetStep(s: Counter, p: Poll)
    requires Step(s, TotalEnergy, p).reset
    ensures IsLow(s, p)
    ensures var c := LowReading(s.candidate, p.raw.value, p.at, p.maxPower);
            && Confirmed(c, p.at)
            && Step(s, TotalEnergy, p).counter.offset == s.last.value.raw - c.firstRaw
            && Step(s, TotalEnergy, p).accepted == Some(p.raw.value + s.last.value.raw - c.firstRaw)
    ensures !Accepts(p.raw.value + s.offset, s.last, p.at, p.maxPower, false, p.boundary)
  {
  }

  /** Polls `idx` earn a reset at poll n: at least twenty low, nondecreasing, plausible
      readings over at least ten minutes, the last of them poll n itself, with nothing
      accepted in between. */
  ghost predicate Earned(s: Counter, h: seq<Poll>, idx: seq<nat>, n: nat) {
    && n < |h| && |idx| >= RESET_MIN_POLLS
    && (forall i :: 0 <= i < |idx| ==> idx[i] <= n && h[idx[i]].raw.Some?)
    && (forall i, j :: 0 <= i < j < |idx| ==> idx[i] < idx[j])
    && idx[|idx| - 1] == n
    && AllFollow(h, idx)
    && (forall i :: 0 <= i < |idx| ==> IsLow(At(s, TotalEnergy, h, idx[i]), h[idx[i]]))
    && (forall x :: idx[0] <= x < n ==> Unaccepted(s, h, x))
    && h[n].at - h[idx[0]].at >= RESET_MIN_SECONDS
  }

  /** Every confirmed reset was earned; it publishes the last good value plus what was
      counted since the first low reading, and strictly increases the offset. */
  lemma ResetIsEarned(s: Counter, h: seq<Poll>, n: nat) returns (idx: seq<nat>)
    requires n < |h| && s.candidate.None? && OutcomeAt(s, TotalEnergy, h, n).reset
    ensures Earned(s, h, idx, n)
    ensures var m, o := At(s, TotalEnergy, h, n), OutcomeAt(s, TotalEnergy, h, n);
            && m.last.Some?
            && o.accepted == Some(m.last.value.raw + (h[n].raw.value - h[idx[0]].raw.value))
            && Published(o.counter) == o.accepted
            && o.counter.offset == m.last.value.raw - h[idx[0]].raw.value
            && o.counter.offset > m.offset
  {
    var m, p := At(s, TotalEnergy, h, n), h[n];
    ResetStep(m, p);
    var before := CandidateIsHistory(s, h, n);
    idx := EarnedRun(s, h, n, before);
    NothingMoves(s, h, idx[0], n);
  }

  /** The low reading that completes the run. */
  lemma EarnedRun(s: Counter, h: seq<Poll>, n: nat, before: seq<nat>) returns (idx: seq<nat>)
    requires n < |h|
    requires var m := At(s, TotalEnergy, h, n);
             && (m.candidate.Some? ==> LowReadings(s, h, before, n) && Amounts(h, before, m.candidate.value))
             && IsLow(m, h[n])
             && Confirmed(LowReading(m.candidate, h[n].raw.value, h[n].at, h[n].maxPower), h[n].at)
    ensures Earned(s, h, idx, n)
    ensures var m := At(s, TotalEnergy, h, n);
            h[idx[0]].raw.value == LowReading(m.candidate, h[n].raw.value, h[n].at, h[n].maxPower).firstRaw
  {
    var m, p := At(s, TotalEnergy, h, n), h[n];
    var c := LowReading(m.candidate, p.raw.value, p.at, p.maxPower);
    assert m.candidate.Some? && c.polls == m.candidate.value.polls + 1;
    idx := before + [n];
    FollowsOn(h, before, n);
  }

  // ---- physically possible readings always pass -------------------------------------

  /** The energy delivered up to some moment. */
  datatype Moment = Moment(at: real, energy: real)

  /** A trace the charger could produce: energy rises at most at rated power and stays
      below the absolute ceiling. */
  ghost predicate Physical(trace: seq<Moment>, rated: real, offset: int) {
    && rated > 0.0
    && (forall i: nat, j: nat :: i <= j < |trace| ==> Possible(trace, i, j, rated))
    && (forall i: nat :: i < |trace| ==> InRange(trace[i], offset))
  }

  predicate Possible(trace: seq<Moment>, i: nat, j: nat, rated: real)
    requires i <= j < |trace|
  {
    && trace[i].at <= trace[j].at
    && Delivered(trace[i].energy, trace[j].energy, trace[j].at - trace[i].at, rated)
  }

  predicate InRange(m: Moment, offset: int) {
    0 <= Reads(m.energy) + offset && (Reads(m.energy) + offset) as real * QUANTUM <= ABS_MAX
  }

  /** The polls are made at the moments from `from` on, and judged by at least the rated
      power. */
  ghost predicate Observes(h: seq<Poll>, trace: seq<Moment>, from: nat, rated: real) {
    && from + |h| <= |trace|
    && forall i: nat :: i < |h| ==> ObservesAt(h[i], trace[from + i], rated)
  }

  predicate ObservesAt(p: Poll, m: Moment, rated: real) {
    p.raw == Some(Reads(m.energy)) && p.at == m.at && p.maxPower >= rated
  }

  function Seen(m: Moment, offset: int): Sample {
    Sample(m.at, Reads(m.energy) + offset)
  }

  /** The counter has followed the trace: last good reading and window are the trace's. */
  ghost predicate Tracks(s: Counter, trace: seq<Moment>, n: nat) {
    && n <= |trace| && s.candidate.None?
    && (n == 0 ==> s.last.None?)
    && (n > 0 ==> s.last == Some(Seen(trace[n - 1], s.offset)))
    && |s.window| <= n
    && (forall i :: 0 <= i < |s.window| ==> s.window[i] == Seen(trace[n - |s.window| + i], s.offset))
  }

  lemma PhysicalAccepted(s: Counter, trace: seq<Moment>, n: nat, rated: real, p: Poll)
    requires Physical(trace, rated, s.offset) && n < |trace| && Tracks(s, trace, n)
    requires ObservesAt(p, trace[n], rated)
    ensures Accepts(Reads(trace[n].energy) + s.offset, s.last, p.at, p.maxPower, false, p.boundary)
  {
    assert InRange(trace[n], s.offset);
    if n > 0 {
      assert InRange(trace[n - 1], s.offset) && Possible(trace, n - 1, n, rated);
      PhysicalReadingAccepted(trace[n - 1].energy, trace[n].energy, s.last.value, p.at, rated, p.maxPower,
                              s.offset, p.boundary);
    }
  }

  lemma AcceptedStep(s: Counter, p: Poll, good: Sample)
    requires p.raw.Some? && good == Sample(p.at, p.raw.value + s.offset)
    requires Accepts(good.raw, s.last, p.at, p.maxPower, false, p.boundary)
    requires !Overrun(Extended(s.window, good), p.maxPower)
    ensures Step(s, TotalEnergy, p)
         == Outcome(Counter(Some(good), Extended(s.window, good), s.offset, None), Some(good.raw), false)
  {
  }

  lemma PhysicalStep(s: Counter, trace: seq<Moment>, n: nat, rated: real, p: Poll)
    requires Physical(trace, rated, s.offset) && n < |trace| && Tracks(s, trace, n)
    requires ObservesAt(p, trace[n], rated)
    ensures var o := Step(s, TotalEnergy, p);
            && o.accepted == Some(Reads(trace[n].energy) + s.offset)
            && o.counter.offset == s.offset && Tracks(o.counter, trace, n + 1)
  {
    PhysicalAccepted(s, trace, n, rated, p);
    PhysicalWindow(s, trace, n, rated, p.maxPower);
    AcceptedStep(s, p, Seen(trace[n], s.offset));
  }

  /** The extended window is again a stretch of the trace. */
  lemma PhysicalStretch(s: Counter, trace: seq<Moment>, n: nat)
    requires n < |trace| && Tracks(s, trace, n)
    requires forall i: nat, j: nat :: i <= j < |trace| ==> trace[i].at <= trace[j].at
    ensures var w := Extended(s.window, Seen(trace[n], s.offset));
            0 < |w| <= n + 1 && forall i :: 0 <= i < |w| ==> w[i] == Seen(trace[n + 1 - |w| + i], s.offset)
  {
    var good := Seen(trace[n], s.offset);
    var w := Extended(s.window, good);
    var k := TrimDropsOld(s.window + [good], good.at - WINDOW_SECONDS);
    assert (s.window + [good])[|s.window|] == good;
    assert k <= |s.window|;
    forall i | 0 <= i < |w| ensures w[i] == Seen(trace[n + 1 - |w| + i], s.offset) {
      assert w[i] == (s.window + [good])[k + i];
    }
  }

  /** ... and within the allowance. */
  lemma PhysicalWindow(s: Counter, trace: seq<Moment>, n: nat, rated: real, maxPower: real)
    requires Physical(trace, rated, s.offset) && n < |trace| && Tracks(s, trace, n) && maxPower >= rated
    ensures var w := Extended(s.window, Seen(trace[n], s.offset));
            && 0 < |w| <= n + 1 && !Overrun(w, maxPower)
            && forall i :: 0 <= i < |w| ==> w[i] == Seen(trace[n + 1 - |w| + i], s.offset)
  {
    forall i: nat, j: nat | i <= j < |trace| ensures trace[i].at <= trace[j].at {
      assert Possible(trace, i, j, rated);
    }
    PhysicalStretch(s, trace, n);
    var w := Extended(s.window, Seen(trace[n], s.offset));
    var first := trace[n + 1 - |w|];
    assert w[0] == Seen(first, s.offset) && w[|w| - 1] == Seen(trace[n], s.offset);
    assert Possible(trace, n + 1 - |w|, n, rated);
    PhysicalWindowAccepted(first.energy, trace[n].energy, trace[n].at - first.at, rated, maxPower);
  }

  /** Neither check ever rejects a lifetime reading of a physically possible trace, for
      any poll times and any length, from a fresh start or from a restored baseline. */
  lemma {:induction false} PhysicalNeverRejected(s: Counter, trace: seq<Moment>, h: seq<Poll>,
      from: nat, n: nat, rated: real)
    requires Physical(trace, rated, s.offset) && Observes(h, trace, from, rated)
    requires n <= |h| && Tracks(s, trace, from)
    ensures var c := At(s, TotalEnergy, h, n); Tracks(c, trace, from + n) && c.offset == s.offset
    ensures forall i: nat :: i < n ==> PublishedAsRead(s, trace, h, from, i)
    decreases n
  {
    if n > 0 {
      PhysicalNeverRejected(s, trace, h, from, n - 1, rated);
      PhysicalPoll(s, trace, h, from, n - 1, rated);
    }
  }

  lemma PhysicalPoll(s: Counter, trace: seq<Moment>, h: seq<Poll>, from: nat, n: nat, rated: real)
    requires Physical(trace, rated, s.offset) && Observes(h, trace, from, rated) && n < |h|
    requires Tracks(At(s, TotalEnergy, h, n), trace, from + n) && At(s, TotalEnergy, h, n).offset == s.offset
    ensures var c := At(s, TotalEnergy, h, n + 1); Tracks(c, trace, from + n + 1) && c.offset == s.offset
    ensures PublishedAsRead(s, trace, h, from, n)
  {
    assert ObservesAt(h[n], trace[from + n], rated);
    PhysicalStep(At(s, TotalEnergy, h, n), trace, from + n, rated, h[n]);
  }

  /** Poll i is accepted, and publishes what the register showed plus the offset. */
  ghost predicate PublishedAsRead(s: Counter, trace: seq<Moment>, h: seq<Poll>, from: nat, i: nat) {
    && i < |h| && from + i < |trace|
    && OutcomeAt(s, TotalEnergy, h, i).accepted == Some(Reads(trace[from + i].energy) + s.offset)
  }

  // ---- restarts ---------------------------------------------------------------------

  /** What is exported and restored later is the last good value with its offset, as old
      as it really is (and never from the future); a suspected reset starts over. */
  lemma RestoredIsAged(s: Counter, mono: real, wall: real, mono': real, wall': real)
    requires s.last.Some? && s.last.value.at <= mono
    ensures var r := Restored(BaselineOf(s, mono, wall).value, mono', wall');
            && Published(r) == Published(s) && r.offset == s.offset
            && r.window == [] && r.candidate.None?
            && WindowSound(r) && CandidateSound(r)
            && (wall' >= wall ==> mono' - r.last.value.at == (mono - s.last.value.at) + (wall' - wall))
            && r.last.value.at <= mono'
  {
  }
}
