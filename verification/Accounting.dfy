/** The guarded lifetime counter feeding the session tracker: energy is counted once. */
module Accounting {
  import opened Prelude
  import opened EnergyTracking
  import E = EnergyTheorems
  import S = Sessions

  /** How many of the first n events are observations, one for each poll. */
  function Polls(h: seq<S.Event>, n: nat): (k: nat)
    requires n <= |h|
    ensures k <= n
  {
    if n == 0 then 0 else Polls(h, n - 1) + if h[n - 1].Seen? then 1 else 0
  }

  lemma {:induction false} PollsGrow(h: seq<S.Event>, m: nat, n: nat)
    requires m <= n <= |h|
    ensures Polls(h, m) <= Polls(h, n)
    decreases n
  {
    if m < n { PollsGrow(h, m, n - 1); }
  }

  /** Every observation carries what the guard published after its poll, every user pause
      what one of the earlier polls published, or nothing. */
  ghost predicate Feeds(c: Counter, polls: seq<Poll>, h: seq<S.Event>) {
    Polls(h, |h|) == |polls| && forall n: nat :: n < |h| ==> FeedsAt(c, polls, h, n)
  }

  ghost predicate FeedsAt(c: Counter, polls: seq<Poll>, h: seq<S.Event>, n: nat)
    requires n < |h|
  {
    if h[n].Seen?
      then Polls(h, n) < |polls| && h[n].ob.total == Published(E.At(c, TotalEnergy, polls, Polls(h, n) + 1))
      else h[n].ob.total.None? || exists m :: 0 <= m < n && h[m].Seen? && h[m].ob.total == h[n].ob.total
  }

  /** The first observation with a lifetime reading. */
  ghost predicate First(h: seq<S.Event>, f: nat) {
    f < |h| && Reads(h[f]) && forall n :: 0 <= n < f ==> !Reads(h[n])
  }

  predicate Reads(e: S.Event) {
    e.Seen? && e.ob.total.Some?
  }

  lemma {:induction false} LatestIsOne(h: seq<S.Event>, f: nat, n: nat) returns (m: nat)
    requires First(h, f) && f < n <= |h|
    ensures f <= m < n && h[m].Seen? && h[m].ob.total == Some(S.Latest(h[f].ob.total.value, h, n))
    ensures forall x :: m < x < n ==> !Reads(h[x])
    decreases n
  {
    if Reads(h[n - 1]) {
      m := n - 1;
    } else {
      m := LatestIsOne(h, f, n - 1);
    }
  }

  lemma {:induction false} NoneYet(h: seq<S.Event>, f: nat, n: nat)
    requires First(h, f) && n <= f
    ensures S.Latest(h[f].ob.total.value, h, n) == h[f].ob.total.value
  {
    if n > 0 {
      NoneYet(h, f, n - 1);
      assert !Reads(h[n - 1]);
    }
  }

  /** Of two observations the later one has published no less. */
  lemma LaterIsMore(c: Counter, polls: seq<Poll>, h: seq<S.Event>, m: nat, n: nat)
    requires E.CandidateSound(c) && Feeds(c, polls, h) && m <= n < |h| && Reads(h[m]) && Reads(h[n])
    ensures h[m].ob.total.value <= h[n].ob.total.value
  {
    assert FeedsAt(c, polls, h, m) && FeedsAt(c, polls, h, n);
    PollsGrow(h, m, n);
    E.PublishedNeverDrops(c, polls, Polls(h, m) + 1, Polls(h, n) + 1);
  }

  lemma GuardedCounterRises(c: Counter, polls: seq<Poll>, h: seq<S.Event>, f: nat)
    requires E.CandidateSound(c) && Feeds(c, polls, h) && First(h, f)
    ensures S.Rising(h[f].ob.total.value, h)
  {
    forall n: nat | n < |h| ensures S.RisesAt(h[f].ob.total.value, h, n) {
      assert FeedsAt(c, polls, h, n);
      if h[n].ob.total.Some? {
        if n <= f {
          NoneYet(h, f, n);
        } else {
          var m := LatestIsOne(h, f, n);
          if h[n].Seen? {
            LaterIsMore(c, polls, h, m, n);
          } else {
            var k :| 0 <= k < n && h[k].Seen? && h[k].ob.total == h[n].ob.total;
            assert Reads(h[k]);
            LaterIsMore(c, polls, h, k, m);
          }
        }
      }
    }
  }

  /** Whatever the energy registers show, corrupted, stuck or reset by the hardware, and
      whatever the sessions do, ended by the charger or by the user: the energies of the
      sessions measured on the lifetime counter sum to at most what the published counter
      rose. */
  lemma SessionsShareTheRise(c: Counter, polls: seq<Poll>, h: seq<S.Event>, f: nat, n: nat)
    requires E.CandidateSound(c) && Feeds(c, polls, h) && First(h, f) && f < n <= |h|
    ensures S.SumLifetime(S.Records(S.RESTING, h, n))
            <= S.Latest(h[f].ob.total.value, h, n) - h[f].ob.total.value
  {
    GuardedCounterRises(c, polls, h, f);
    S.EnergiesSumToTheRise(h, h[f].ob.total.value, n);
  }
}
