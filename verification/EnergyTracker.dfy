/**
  The guarded energy counters: last good reading, rolling window, and recovery from a
  hardware counter reset with an offset.

  `Step` is what one reading does to one counter; the class does the same to its
  dictionaries in place.
 */
module EnergyTracking {
  import opened Prelude
  import opened EnergyGuard

  const WINDOW_MIN_SAMPLES: nat := 5
  const RESET_MIN_POLLS: nat := 20
  const RESET_MIN_SECONDS: real := 600.0

  datatype Key = TotalEnergy | CurrentEnergy {
    /** The session counter restarts with every session; the lifetime counter never does. */
    predicate AllowDecrease() {
      CurrentEnergy?
    }
  }

  /** A suspected counter reset: the low readings seen so far. */
  datatype Candidate = Candidate(firstRaw: int, firstAt: real, lastRaw: int, lastAt: real, polls: nat)

  /** One counter.  Readings in `last` and `window` have the offset added. */
  datatype Counter = Counter(
    last: Option<Sample>,
    window: seq<Sample>,
    offset: int,
    candidate: Option<Candidate>)

  const UNKNOWN: Counter := Counter(None, [], 0, None)

  /** What one poll brings: the register (if it was readable), when, and by what power to
      judge it. */
  datatype Poll = Poll(raw: Option<int>, at: real, maxPower: real, boundary: bool)

  /** `accepted` is the value to publish; `reset` tells a confirmed counter reset. */
  datatype Outcome = Outcome(counter: Counter, accepted: Option<int>, reset: bool)

  /** The window without what is too old. */
  function Trim(w: seq<Sample>, cutoff: real): seq<Sample> {
    if w == [] || w[0].at >= cutoff then w else Trim(w[1..], cutoff)
  }

  /** Exactly the leading samples that are too old are gone. */
  lemma {:induction false} TrimDropsOld(w: seq<Sample>, cutoff: real) returns (k: nat)
    ensures k <= |w| && Trim(w, cutoff) == w[k..]
    ensures forall i :: 0 <= i < k ==> w[i].at < cutoff
    ensures k < |w| ==> w[k].at >= cutoff
  {
    if w == [] || w[0].at >= cutoff {
      k := 0;
    } else {
      var n := TrimDropsOld(w[1..], cutoff);
      k := n + 1;
      assert w[1..][n..] == w[k..];
    }
  }

  /** One more low reading of a lifetime counter. */
  function LowReading(c: Option<Candidate>, raw: int, now: real, maxPower: real): Candidate {
    if c.Some? && raw >= c.value.lastRaw
       && Accepts(raw, Some(Sample(c.value.lastAt, c.value.lastRaw)), now, maxPower, false, false)
    then Candidate(c.value.firstRaw, c.value.firstAt, raw, now, c.value.polls + 1)
    else Candidate(raw, now, raw, now, 1)
  }

  /** The low readings have lasted long enough to be a real reset. */
  predicate Confirmed(c: Candidate, now: real) {
    c.polls >= RESET_MIN_POLLS && now - c.firstAt >= RESET_MIN_SECONDS
  }

  function Rejected(s: Counter, key: Key, raw: int, p: Poll): Outcome {
    if key.AllowDecrease() || s.last.None? || raw + s.offset >= s.last.value.raw then Outcome(s, None, false)
    else
      var c := LowReading(s.candidate, raw, p.at, p.maxPower);
      if !Confirmed(c, p.at) then Outcome(s.(candidate := Some(c)), None, false)
      else
        var offset := s.last.value.raw - c.firstRaw;
        var good := Sample(p.at, raw + offset);
        Outcome(Counter(Some(good), [good], offset, None), Some(raw + offset), true)
  }

  predicate Overrun(w: seq<Sample>, maxPower: real) {
    |w| >= WINDOW_MIN_SAMPLES
    && Sustained((w[|w| - 1].raw - w[0].raw) as real * QUANTUM, w[|w| - 1].at - w[0].at, maxPower)
  }

  function Extended(w: seq<Sample>, good: Sample): seq<Sample> {
    Trim(w + [good], good.at - WINDOW_SECONDS)
  }

  function Plausible(s: Counter, key: Key, raw: int, p: Poll): Outcome {
    var good := Sample(p.at, raw);
    if key.AllowDecrease() && (p.boundary || raw <= NEAR_ZERO) then
      Outcome(Counter(Some(good), [good], s.offset, None), Some(raw), false)
    else
      var w := Extended(s.window, good);
      if Overrun(w, p.maxPower) then Outcome(Counter(s.last, [], s.offset, None), None, false)
      else Outcome(Counter(Some(good), w, s.offset, None), Some(raw), false)
  }

  /** One reading of one counter. */
  function Step(s: Counter, key: Key, p: Poll): Outcome {
    if p.raw.None? then Outcome(s, None, false)
    else
      var raw := p.raw.value + s.offset;
      if Accepts(raw, s.last, p.at, p.maxPower, key.AllowDecrease(), p.boundary) then Plausible(s, key, raw, p)
      else Rejected(s, key, p.raw.value, p)
  }

  /** What is published after a poll: the last good value, if there is one. */
  function Published(s: Counter): Option<int> {
    if s.last.None? then None else Some(s.last.value.raw)
  }

  // ---- the tracker ------------------------------------------------------------------

  class EnergyTracker {
    var last: map<Key, Sample>
    var window: map<Key, seq<Sample>>
    var offset: map<Key, int>
    var candidate: map<Key, Candidate>
    var dirty: bool

    ghost function CounterOf(key: Key): Counter
      reads this
    {
      Counter(if key in last then Some(last[key]) else None,
              if key in window then window[key] else [],
              if key in offset then offset[key] else 0,
              if key in candidate then Some(candidate[key]) else None)
    }

    constructor ()
      ensures !dirty && forall key: Key :: CounterOf(key) == UNKNOWN
    {
      last, window, offset, candidate, dirty := map[], map[], map[], map[], false;
    }

    /** Everything but this one counter is as it was. */
    twostate predicate OthersUntouched(key: Key)
      reads this
    {
      forall k: Key :: k != key ==> CounterOf(k) == old(CounterOf(k))
    }

    method LastGood(key: Key) returns (raw: Option<int>)
      ensures raw == Published(CounterOf(key))
    {
      raw := if key in last then Some(last[key].raw) else None;
    }

    /** Record one lower-than-last-good reading; true once it is a confirmed reset. */
    method TrackCounterReset(key: Key, raw: int, prev: int, now: real, maxPower: real) returns (confirmed: bool)
      modifies `candidate, `offset
      ensures var c := LowReading(old(CounterOf(key)).candidate, raw, now, maxPower);
              && confirmed == Confirmed(c, now)
              && CounterOf(key) == if confirmed
                                   then old(CounterOf(key)).(offset := prev - c.firstRaw, candidate := None)
                                   else old(CounterOf(key)).(candidate := Some(c))
      ensures confirmed ==> key in offset
      ensures OthersUntouched(key)
    {
      var stepOk := false;
      if key in candidate && raw >= candidate[key].lastRaw {
        var low := Sample(candidate[key].lastAt, candidate[key].lastRaw);
        stepOk := Accepts(raw, Some(low), now, maxPower, false, false);
      }
      var c;
      if stepOk {
        c := candidate[key].(lastRaw := raw, lastAt := now, polls := candidate[key].polls + 1);
      } else {
        c := Candidate(raw, now, raw, now, 1);
      }
      candidate := candidate[key := c];
      if c.polls < RESET_MIN_POLLS || now - c.firstAt < RESET_MIN_SECONDS {
        return false;
      }
      offset := offset[key := prev - c.firstRaw];
      candidate := candidate - {key};
      return true;
    }

    method Trimmed(w: seq<Sample>, cutoff: real) returns (t: seq<Sample>)
      ensures t == Trim(w, cutoff)
    {
      t := w;
      while t != [] && t[0].at < cutoff
        invariant Trim(t, cutoff) == Trim(w, cutoff)
      {
        t := t[1..];
      }
    }

    /** Take over a reading that passed every check. */
    method Accept(key: Key, good: Sample)
      modifies `last, `dirty
      ensures last == old(last)[key := good]
      ensures dirty == (old(dirty) || key !in old(last) || old(last)[key].raw != good.raw)
    {
      if key !in last || last[key].raw != good.raw {
        dirty := true;
      }
      last := last[key := good];
    }

    /** Add a reading to the rolling window, unless the window says it cannot be real. */
    method ExtendWindow(key: Key, good: Sample, maxPower: real) returns (ok: bool)
      modifies `window
      ensures var w := Extended(old(CounterOf(key)).window, good);
              && ok == !Overrun(w, maxPower)
              && window == old(window)[key := if ok then w else []]
    {
      var w := (if key in window then window[key] else []) + [good];
      w := Trimmed(w, good.at - WINDOW_SECONDS);
      ok := !Overrun(w, maxPower);
      window := window[key := if ok then w else []];
    }

    /** A restarted session counter starts a new window. */
    method RestartWindow(key: Key, good: Sample, boundary: bool)
      modifies `window, `dirty
      ensures window == old(window)[key := [good]] && dirty == (old(dirty) || boundary)
    {
      window := window[key := [good]];      // a reset is not rate evidence
      if boundary {
        dirty := true;
      }
    }

    method AcceptPlausible(key: Key, raw: int, p: Poll) returns (accepted: Option<int>)
      modifies this
      ensures Outcome(CounterOf(key), accepted, false) == Plausible(old(CounterOf(key)), key, raw, p)
      ensures OthersUntouched(key)
      ensures accepted.Some? && Published(old(CounterOf(key))) != accepted ==> dirty
      ensures old(dirty) ==> dirty
    {
      var good := Sample(p.at, raw);
      ghost var s := CounterOf(key);
      var ok := true;
      if key.AllowDecrease() && (p.boundary || raw <= NEAR_ZERO) {
        RestartWindow(key, good, p.boundary);
      } else {
        ok := ExtendWindow(key, good, p.maxPower);
        assert CounterOf(key) == s.(window := if ok then Extended(s.window, good) else []);
      }
      candidate := candidate - {key};
      if !ok {
        return None;
      }
      Accept(key, good);
      return Some(raw);
    }

    /** One reading of one counter; the value to publish, if it is accepted. */
    method Sanitize(key: Key, raw: int, p: Poll) returns (accepted: Option<int>)
      requires p.raw == Some(raw)
      modifies this
      ensures var o := Step(old(CounterOf(key)), key, p);
              CounterOf(key) == o.counter && accepted == o.accepted
      ensures OthersUntouched(key)
      ensures Published(CounterOf(key)) != Published(old(CounterOf(key))) ==> dirty
    {
      var adjusted := raw + if key in offset then offset[key] else 0;
      var prev := if key in last then Some(last[key]) else None;
      if Accepts(adjusted, prev, p.at, p.maxPower, key.AllowDecrease(), p.boundary) {
        accepted := AcceptPlausible(key, adjusted, p);
        return;
      }
      if key.AllowDecrease() || prev.None? || adjusted >= prev.value.raw {
        return None;
      }
      accepted := Recover(key, raw, p);
    }

    /** A lower-than-last-good lifetime reading: reject it, or take over the new base. */
    method Recover(key: Key, raw: int, p: Poll) returns (accepted: Option<int>)
      requires key in last && !key.AllowDecrease() && raw + CounterOf(key).offset < last[key].raw
      modifies this
      ensures var o := Rejected(old(CounterOf(key)), key, raw, p);
              CounterOf(key) == o.counter && accepted == o.accepted
      ensures OthersUntouched(key)
      ensures accepted.Some? ==> dirty
      ensures accepted.None? ==> last == old(last)
    {
      var confirmed := TrackCounterReset(key, raw, last[key].raw, p.at, p.maxPower);
      if !confirmed {
        return None;
      }
      var good := Sample(p.at, raw + offset[key]);
      window := window[key := [good]];
      dirty := true;
      last := last[key := good];
      return Some(good.raw);
    }

    /** Guard one counter of an observation in place: an accepted reading passes, anything
        else falls back to the last good value or disappears. */
    method ApplyOne(key: Key, data: map<Key, int>, p: Poll) returns (guarded: map<Key, int>)
      requires p.raw == if key in data then Some(data[key]) else None
      modifies this
      ensures CounterOf(key) == Step(old(CounterOf(key)), key, p).counter
      ensures OthersUntouched(key)
      ensures guarded == match Published(CounterOf(key))
                         case Some(v) => data[key := v]
                         case None => data - {key}
    {
      if p.raw.Some? {
        var accepted := Sanitize(key, p.raw.value, p);
        AcceptedIsPublished(old(CounterOf(key)), key, p);
      }
      var good := LastGood(key);
      guarded := if good.Some? then data[key := good.value] else data - {key};
    }

    /** Guard every counter of an observation. */
    method Apply(data: map<Key, int>, now: real, maxPower: real, boundary: bool) returns (guarded: map<Key, int>)
      modifies this
      ensures forall key: Key ::
                CounterOf(key) == Step(old(CounterOf(key)), key, PollOf(data, key, now, maxPower, boundary)).counter
      ensures forall key: Key ::
                (if key in guarded then Some(guarded[key]) else None) == Published(CounterOf(key))
    {
      guarded := ApplyOne(TotalEnergy, data, PollOf(data, TotalEnergy, now, maxPower, boundary));
      assert PollOf(guarded, CurrentEnergy, now, maxPower, boundary)
          == PollOf(data, CurrentEnergy, now, maxPower, boundary);
      guarded := ApplyOne(CurrentEnergy, guarded, PollOf(data, CurrentEnergy, now, maxPower, boundary));
    }

    /** What survives a restart. */
    method Export(nowMono: real, nowWall: real) returns (stored: map<Key, Baseline>)
      ensures forall key: Key :: (if key in stored then Some(stored[key]) else None)
                                 == BaselineOf(CounterOf(key), nowMono, nowWall)
    {
      stored := map key | key in last ::
        Baseline(last[key].raw, nowWall - (nowMono - last[key].at), if key in offset then offset[key] else 0);
    }

    /** Take a stored baseline back, aged by the wall clock. */
    method Restore(stored: map<Key, Baseline>, nowMono: real, nowWall: real)
      requires forall key: Key :: CounterOf(key) == UNKNOWN
      modifies this
      ensures forall key: Key ::
                CounterOf(key) == if key in stored then Restored(stored[key], nowMono, nowWall) else UNKNOWN
    {
      last := map key | key in stored ::
        Sample(nowMono - Max(nowWall - stored[key].wall, 0.0), stored[key].raw);
      offset := map key | key in stored && stored[key].offset != 0 :: stored[key].offset;
      forall key: Key
        ensures CounterOf(key) == if key in stored then Restored(stored[key], nowMono, nowWall) else UNKNOWN
      {
        assert old(CounterOf(key)) == UNKNOWN;
      }
    }
  }

  function PollOf(data: map<Key, int>, key: Key, now: real, maxPower: real, boundary: bool): Poll {
    Poll(if key in data then Some(data[key]) else None, now, maxPower, boundary)
  }

  /** The stored form of one counter. */
  datatype Baseline = Baseline(raw: int, wall: real, offset: int)

  function BaselineOf(s: Counter, nowMono: real, nowWall: real): Option<Baseline> {
    if s.last.None? then None
    else Some(Baseline(s.last.value.raw, nowWall - (nowMono - s.last.value.at), s.offset))
  }

  function Restored(b: Baseline, nowMono: real, nowWall: real): Counter {
    Counter(Some(Sample(nowMono - Max(nowWall - b.wall, 0.0), b.raw)), [], b.offset, None)
  }

  lemma AcceptedIsPublished(s: Counter, key: Key, p: Poll)
    ensures var o := Step(s, key, p);
            Published(o.counter) == if o.accepted.Some? then o.accepted else Published(s)
  {
  }
}
