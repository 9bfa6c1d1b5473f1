/**
  Is a raw energy counter reading plausible?  Arithmetic only, over real kilowatt-hours
  and seconds; the counter itself counts whole steps of 0.1 kWh.
 */
module EnergyGuard {
  import opened Prelude

  const QUANTUM: real := 0.1
  const SAFETY_FACTOR: real := 1.5
  const ABS_MAX: real := 100000.0
  const NEAR_ZERO: int := 2
  const WINDOW_SECONDS: real := 1800.0

  /** One accepted reading and when it was taken. */
  datatype Sample = Sample(at: real, raw: int)

  /** What a charger of this power may add in `elapsed` seconds, in kWh. */
  function Allowance(maxPower: real, elapsed: real): real {
    QUANTUM + maxPower * elapsed / 3600.0 * SAFETY_FACTOR
  }

  /** The power a rate is judged by: at least the rated one, at most half more. */
  function MaxPower(rated: real, live: Option<nat>): (p: real)
    requires rated > 0.0
    ensures rated <= p <= rated * 1.5
    ensures live.None? || live.value == 0 ==> p == rated
    ensures live.Some? && rated <= live.value as real * 0.1 <= rated * 1.5 ==> p == live.value as real * 0.1
    ensures live.Some? && live.value as real * 0.1 > rated * 1.5 ==> p == rated * 1.5
  {
    var reported := if live.None? || live.value == 0 then rated else live.value as real * QUANTUM;
    Max(Min(reported, rated * 1.5), rated)
  }

  /** The per-reading check. */
  predicate Accepts(raw: int, prev: Option<Sample>, now: real, maxPower: real, allowDecrease: bool, boundary: bool) {
    if raw < 0 || raw as real * QUANTUM > ABS_MAX then false
    else if prev.None? then true
    else
      var plausible := Allowance(maxPower, Max(now - prev.value.at, 1.0)) / QUANTUM;
      var delta := raw - prev.value.raw;
      if delta < 0 then
        allowDecrease && ((boundary && raw as real <= plausible) || raw <= NEAR_ZERO)
      else delta as real <= plausible
  }

  /** The rolling-window check: more energy than the charger could have delivered. */
  predicate Sustained(totalKwh: real, elapsed: real, maxPower: real) {
    elapsed > 0.0 && totalKwh > Allowance(maxPower, elapsed)
  }

  /** Without a reset, an accepted lifetime reading is never below the last one. */
  lemma LifetimeNeverDrops(raw: int, prev: Sample, now: real, maxPower: real, boundary: bool)
    requires Accepts(raw, Some(prev), now, maxPower, false, boundary)
    ensures raw >= prev.raw
  {
  }

  // ---- physically possible energy -------------------------------------------------

  /** The counter shows the energy in whole steps. */
  function Reads(energy: real): int {
    (energy / QUANTUM).Floor
  }

  /** Energy that rises no faster than the rated power allows. */
  predicate Delivered(before: real, after: real, seconds: real, rated: real) {
    before <= after <= before + rated * seconds / 3600.0
  }

  lemma AllowanceGrows(rated: real, maxPower: real, seconds: real, elapsed: real)
    requires 0.0 < rated <= maxPower && 0.0 <= seconds <= elapsed
    ensures QUANTUM + rated * seconds / 3600.0 <= Allowance(maxPower, elapsed)
  {
    MulMono(rated, maxPower, seconds);
    assert rated * seconds <= maxPower * seconds;
    MulMono(seconds, elapsed, maxPower);
    assert maxPower * seconds <= maxPower * elapsed;
    assert 0.0 <= rated * seconds by { MulMono(0.0, rated, seconds); }
  }

  lemma MulMono(x: real, y: real, z: real)
    requires x <= y && 0.0 <= z
    ensures x * z <= y * z
  {
    assert 0.0 <= (y - x) * z;
  }

  /** Whatever the time between two readings, flooring both to whole steps adds less than
      one step to what was delivered. */
  lemma StepsDelivered(before: real, after: real, seconds: real, rated: real)
    requires Delivered(before, after, seconds, rated)
    ensures 0 <= Reads(after) - Reads(before)
    ensures (Reads(after) - Reads(before)) as real * QUANTUM <= QUANTUM + rated * seconds / 3600.0
  {
    var x, y := before / QUANTUM, after / QUANTUM;
    assert x.Floor as real <= x < x.Floor as real + 1.0;
    assert y.Floor as real <= y < y.Floor as real + 1.0;
  }

  /** The per-reading check never rejects a physically possible lifetime reading. */
  lemma PhysicalReadingAccepted(before: real, after: real, prev: Sample, now: real, rated: real, maxPower: real,
                                offset: int, boundary: bool)
    requires 0.0 < rated <= maxPower && prev.at <= now
    requires Delivered(before, after, now - prev.at, rated)
    requires prev.raw == Reads(before) + offset && prev.raw >= 0
    requires (Reads(after) + offset) as real * QUANTUM <= ABS_MAX
    ensures Accepts(Reads(after) + offset, Some(prev), now, maxPower, false, boundary)
  {
    var elapsed := Max(now - prev.at, 1.0);
    StepsDelivered(before, after, now - prev.at, rated);
    AllowanceGrows(rated, maxPower, now - prev.at, elapsed);
    var delta := Reads(after) - Reads(before);
    assert delta as real * QUANTUM <= Allowance(maxPower, elapsed);
    assert delta as real <= Allowance(maxPower, elapsed) / QUANTUM;
  }

  /** Nor does the rolling-window check, over any stretch of such readings. */
  lemma PhysicalWindowAccepted(before: real, after: real, seconds: real, rated: real, maxPower: real)
    requires 0.0 < rated <= maxPower && 0.0 <= seconds && Delivered(before, after, seconds, rated)
    ensures !Sustained((Reads(after) - Reads(before)) as real * QUANTUM, seconds, maxPower)
  {
    StepsDelivered(before, after, seconds, rated);
    AllowanceGrows(rated, maxPower, seconds, seconds);
  }
}
