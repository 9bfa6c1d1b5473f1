/**
  Logical charging sessions, detected from one observation per poll and ended by a
  confirmed user pause.

  `Next` says what an event does to the tracker; the class does it field by field.
 */
module Sessions {
  import opened Prelude
  import opened Evidence

  const PAUSED_POWER_RAW_MAX: int := 1

  /** One observation, energies already guarded.  `status` is what the register said;
      `statusValid` is the decoder's verdict on it. */
  datatype Observation = Observation(
    status: Option<nat>,
    statusValid: bool,
    power: Option<int>,
    total: Option<int>,
    current: Option<int>,
    intentEnabled: Option<bool>,
    at: real)
  {
    /** The status, if it is a known and valid one. */
    function Known(): Option<nat> {
      if statusValid && status.Some? && status.value in VALID_STATUS then status else None
    }

    predicate Active() {
      Known().Some? && Known().value in SESSION_STATUS
    }

    predicate Inactive() {
      Known().Some? && Known().value !in SESSION_STATUS
    }

    /** The user paused and the charger is seen not to draw. */
    predicate Paused() {
      && intentEnabled == Some(false)
      && Known().Some? && Known().value in PAUSED_STATUS
      && power.Some? && power.value <= PAUSED_POWER_RAW_MAX
    }
  }

  /** How a session's energy was measured. */
  datatype Energy = Lifetime(raw: int) | PerSession(raw: int) | Unmeasured

  datatype Record = Record(energy: Energy, peak: int, duration: real)

  datatype Session = Session(since: real, total: Option<int>, current: Option<int>, peak: int)

  datatype State = State(session: Option<Session>, rearm: bool, prev: Option<nat>)

  const RESTING: State := State(None, false, None)

  /** The lifetime counter decides; the session counter steps in when the lifetime one is
      stuck or missing; what cannot be measured stays unknown. */
  function Measured(s: Session, ob: Observation): Energy {
    var lifetime := s.total.Some? && ob.total.Some? && ob.total.value >= s.total.value;
    var both := s.current.Some? && ob.current.Some?;
    if lifetime && ob.total.value == s.total.value && both && ob.current.value > s.current.value
      then PerSession(ob.current.value - s.current.value)
    else if lifetime then Lifetime(ob.total.value - s.total.value)
    else if both && ob.current.value >= s.current.value then PerSession(ob.current.value - s.current.value)
    else Unmeasured
  }

  function RecordOf(s: Session, ob: Observation): Record {
    Record(Measured(s, ob), s.peak, ob.at - s.since)
  }

  function Opened(ob: Observation): Session {
    Session(ob.at, ob.total, ob.current, 0)
  }

  function Observed(s: Session, ob: Observation): Session {
    s.(peak := if ob.power.Some? && ob.power.value > s.peak then ob.power.value else s.peak)
  }

  /** What an observation amounts to: perhaps a session started, perhaps one completed. */
  datatype Update = Update(state: State, started: bool, completed: Option<Record>)

  function Step(s: State, ob: Observation): Update {
    var rearm := s.rearm && ob.intentEnabled != Some(true);
    if ob.Known().None? then Update(s.(rearm := rearm), false, None)
    else if ob.Inactive() then
      Update(State(None, false, ob.Known()), false,
             if s.session.Some? then Some(RecordOf(s.session.value, ob)) else None)
    else if s.session.None? && (rearm || ob.Paused()) then
      Update(State(None, rearm, ob.Known()), false, None)
    else
      var session := Observed(if s.session.Some? then s.session.value else Opened(ob), ob);
      if ob.Paused() then Update(State(None, true, ob.Known()), false, Some(RecordOf(session, ob)))
      else Update(State(Some(session), rearm, ob.Known()), s.session.None?, None)
  }

  /** A user pause was confirmed: a running session is over, and the next one needs
      re-arming.  Without one nothing happens. */
  function Ended(s: State, ob: Observation): Update {
    if s.session.None? then Update(s, false, None)
    else Update(s.(session := None, rearm := true), false, Some(RecordOf(s.session.value, ob)))
  }

  /** What reaches the tracker: the observation of a poll, or the end of a confirmed user
      pause, with the data the coordinator published before. */
  datatype Event = Seen(ob: Observation) | UserPaused(ob: Observation)

  function Next(s: State, e: Event): Update {
    match e
    case Seen(ob) => Step(s, ob)
    case UserPaused(ob) => Ended(s, ob)
  }

  class SessionTracker {
    var startTs: Option<real>
    var startTotal: Option<int>
    var startCurrent: Option<int>
    var peakPower: int
    var prevStatus: Option<nat>
    var lastSession: Option<Record>
    var rearmRequired: bool
    var dirty: bool

    ghost var starts: nat
    ghost var records: seq<Record>              // what the completion callback was given

    ghost function Current(): State
      reads `startTs, `startTotal, `startCurrent, `peakPower, `prevStatus, `rearmRequired
    {
      State(if startTs.None? then None else Some(Session(startTs.value, startTotal, startCurrent, peakPower)),
            rearmRequired, prevStatus)
    }

    /** Sessions start and complete one after the other. */
    ghost predicate Valid()
      reads `startTs, `starts, `records, `lastSession
    {
      && starts == |records| + (if startTs.Some? then 1 else 0)
      && (records != [] ==> lastSession == Some(records[|records| - 1]))
    }

    constructor ()
      ensures Valid() && Current() == RESTING && starts == 0 && records == []
    {
      startTs, startTotal, startCurrent, peakPower := None, None, None, 0;
      prevStatus, lastSession, rearmRequired, dirty := None, None, false, false;
      starts, records := 0, [];
    }

    method Start(ob: Observation)
      requires Valid() && startTs.None?
      modifies `startTs, `startTotal, `startCurrent, `peakPower, `dirty, `starts
      ensures Valid() && dirty && starts == old(starts) + 1
      ensures Current() == old(Current()).(session := Some(Opened(ob)))
    {
      startTs, startTotal, startCurrent, peakPower := Some(ob.at), ob.total, ob.current, 0;
      dirty := true;
      starts := starts + 1;
    }

    method Measure(ob: Observation) returns (energy: Energy)
      requires startTs.Some?
      ensures energy == Measured(Current().session.value, ob)
    {
      energy := Unmeasured;
      if startTotal.Some? && ob.total.Some? {
        var delta := ob.total.value - startTotal.value;
        if delta >= 0 {
          energy := Lifetime(delta);
        }
      }
      if energy == Lifetime(0) && startCurrent.Some? && ob.current.Some? && ob.current.value > startCurrent.value {
        energy := PerSession(ob.current.value - startCurrent.value);
      }
      if energy == Unmeasured && startCurrent.Some? && ob.current.Some? && ob.current.value >= startCurrent.value {
        energy := PerSession(ob.current.value - startCurrent.value);
      }
    }

    method Complete(ob: Observation)
      requires Valid() && startTs.Some?
      modifies `startTs, `startTotal, `startCurrent, `peakPower, `dirty, `lastSession, `records
      ensures Valid() && dirty
      ensures records == old(records) + [RecordOf(old(Current()).session.value, ob)]
      ensures Current() == old(Current()).(session := None)
    {
      var energy := Measure(ob);
      var record := Record(energy, peakPower, ob.at - startTs.value);
      lastSession := Some(record);
      startTs, startTotal, startCurrent, peakPower := None, None, None, 0;
      dirty := true;
      records := records + [record];
    }

    /** The user paused: the session is over, and the next one needs re-arming. */
    method EndForUserPause(ob: Observation) returns (completed: bool)
      requires Valid()
      modifies `startTs, `startTotal, `startCurrent, `peakPower, `dirty, `lastSession, `records, `rearmRequired
      ensures Valid() && completed == old(startTs).Some? && dirty == (old(dirty) || completed)
      ensures var u := Ended(old(Current()), ob);
              && Current() == u.state
              && records == old(records) + if u.completed.Some? then [u.completed.value] else []
    {
      if startTs.None? {
        return false;
      }
      Complete(ob);
      rearmRequired := true;
      dirty := true;
      return true;
    }

    /** Advance on one fresh observation. */
    method Advance(ob: Observation)
      requires Valid()
      modifies this
      ensures Valid()
      ensures var u := Step(old(Current()), ob);
              && Current() == u.state
              && (starts == old(starts) + if u.started then 1 else 0)
              && (records == old(records) + if u.completed.Some? then [u.completed.value] else [])
      ensures prevStatus != old(prevStatus) || starts != old(starts) || records != old(records) ==> dirty
    {
      if ob.intentEnabled == Some(true) {
        rearmRequired := false;
      }
      if ob.Known().None? {
        return;
      }
      if ob.Inactive() {
        FinishSession(ob);
      } else {
        if startTs.None? && !rearmRequired && !ob.Paused() {
          Start(ob);
        }
        Follow(ob);
      }
      NoteStatus(ob);
    }

    /** A valid inactive status ends a running session and re-arms. */
    method FinishSession(ob: Observation)
      requires Valid()
      modifies `startTs, `startTotal, `startCurrent, `peakPower, `dirty, `lastSession, `records, `rearmRequired
      ensures Valid() && (old(dirty) ==> dirty) && (records != old(records) ==> dirty)
      ensures Current() == State(None, false, old(Current()).prev)
      ensures records == old(records) + if old(startTs).Some? then [RecordOf(old(Current()).session.value, ob)] else []
    {
      if rearmRequired {
        rearmRequired := false;
        dirty := true;
      }
      if startTs.Some? {
        Complete(ob);
      }
    }

    method NoteStatus(ob: Observation)
      modifies `prevStatus, `dirty
      ensures prevStatus == ob.Known() && dirty == (old(dirty) || old(prevStatus) != ob.Known())
    {
      if ob.Known() != prevStatus {
        dirty := true;
      }
      prevStatus := ob.Known();
    }

    /** What an observation means for a running session. */
    method Follow(ob: Observation)
      requires Valid()
      modifies `startTs, `startTotal, `startCurrent, `peakPower, `dirty, `lastSession, `records, `rearmRequired
      ensures Valid() && (old(dirty) ==> dirty)
      ensures records != old(records) ==> dirty
      ensures old(startTs).None? ==> Current() == old(Current()) && records == old(records)
      ensures old(startTs).Some? ==>
                var s := Observed(old(Current()).session.value, ob);
                if ob.Paused() then
                  && Current() == old(Current()).(session := None, rearm := true)
                  && records == old(records) + [RecordOf(s, ob)]
                else
                  Current() == old(Current()).(session := Some(s)) && records == old(records)
    {
      if startTs.None? {
        return;
      }
      if ob.power.Some? && ob.power.value > peakPower {
        peakPower := ob.power.value;
      }
      if ob.Paused() {
        var _ := EndForUserPause(ob);
      }
    }
  }

  // ---- whole runs -------------------------------------------------------------------

  function At(s: State, h: seq<Event>, n: nat): State
    requires n <= |h|
  {
    if n == 0 then s else Next(At(s, h, n - 1), h[n - 1]).state
  }

  function UpdateAt(s: State, h: seq<Event>, n: nat): Update
    requires n < |h|
  {
    Next(At(s, h, n), h[n])
  }

  function Starts(s: State, h: seq<Event>, n: nat): nat
    requires n <= |h|
  {
    if n == 0 then 0 else Starts(s, h, n - 1) + if UpdateAt(s, h, n - 1).started then 1 else 0
  }

  /** The records of the completed sessions, oldest first. */
  function Records(s: State, h: seq<Event>, n: nat): seq<Record>
    requires n <= |h|
  {
    if n == 0 then []
    else
      var u := UpdateAt(s, h, n - 1);
      Records(s, h, n - 1) + if u.completed.Some? then [u.completed.value] else []
  }

  /** No event both starts and completes a session, or does either out of turn; only an
      observation starts one, and an invalid status does neither. */
  lemma InTurn(s: State, e: Event)
    ensures var u := Next(s, e);
            && (u.started ==> e.Seen? && s.session.None? && u.state.session.Some? && u.completed.None?)
            && (u.completed.Some? ==> s.session.Some? && u.state.session.None? && !u.started)
            && (!u.started && u.completed.None? ==> (u.state.session.Some? <==> s.session.Some?))
            && (e.Seen? && e.ob.Known().None? ==>
                  u.state.session == s.session && u.state.prev == s.prev && !u.started && u.completed.None?)
  {
  }

  // ---- when a session starts and ends, by status and flags -----------------------------

  /** The status of the observation, if it is a valid one: 0 to 6, 8 or 9. */
  predicate ShowsStatus(ob: Observation, statuses: set<nat>) {
    && ob.statusValid && ob.status.Some? && ob.status.value in {0, 1, 2, 3, 4, 5, 6, 8, 9}
    && ob.status.value in statuses
  }

  /** Start, charging, paused by the vehicle, or switching phases. */
  predicate ShowsSession(ob: Observation) {
    ShowsStatus(ob, {2, 3, 4, 9})
  }

  predicate ShowsNoSession(ob: Observation) {
    ShowsStatus(ob, {0, 1, 5, 6, 8})
  }

  /** Charging is off, and the charger idles at next to no power. */
  predicate ShowsPause(ob: Observation) {
    ob.intentEnabled == Some(false) && ShowsStatus(ob, {0, 1, 4, 5}) && ob.power.Some? && ob.power.value <= 1
  }

  /** A running session ends exactly at a confirmed user pause, at a valid status without a
      session, or when a session is seen paused by the user. */
  predicate MustEnd(e: Event) {
    match e
    case UserPaused(_) => true
    case Seen(ob) => ShowsNoSession(ob) || (ShowsSession(ob) && ShowsPause(ob))
  }

  /** One starts exactly when a session is seen, not paused by the user, and the last pause
      does not still ask for charging to be enabled again. */
  predicate MustStart(e: Event, rearm: bool) {
    e.Seen? && ShowsSession(e.ob) && !ShowsPause(e.ob) && (!rearm || e.ob.intentEnabled == Some(true))
  }

  lemma StatusesMean(ob: Observation)
    ensures ShowsSession(ob) <==> ob.Active()
    ensures ShowsNoSession(ob) <==> ob.Inactive()
    ensures ob.Active() || ob.Inactive() ==> (ShowsPause(ob) <==> ob.Paused())
    ensures ob.Known().Some? <==> ShowsSession(ob) || ShowsNoSession(ob)
  {
  }

  lemma EventExactly(s: State, e: Event)
    ensures Next(s, e).completed.Some? <==> s.session.Some? && MustEnd(e)
    ensures Next(s, e).started <==> s.session.None? && MustStart(e, s.rearm)
    ensures Next(s, e).state.rearm <==>
              if e.UserPaused? then s.session.Some? || s.rearm
              else if ShowsNoSession(e.ob) then false
              else if s.session.Some? && MustEnd(e) then true
              else s.rearm && e.ob.intentEnabled != Some(true)
    ensures Next(s, e).state.prev == if e.Seen? && (ShowsSession(e.ob) || ShowsNoSession(e.ob)) then e.ob.status
                                     else s.prev
  {
    StatusesMean(e.ob);
  }

  /** In every state of every run: an event completes a session exactly if one runs and the
      event ends it, and starts one exactly if none runs and the event calls for one; so a
      session is running exactly if one started and no event since has ended it. */
  lemma {:induction false} SessionsAreExact(h: seq<Event>, n: nat)
    requires n < |h|
    ensures var m := At(RESTING, h, n);
            && (UpdateAt(RESTING, h, n).completed.Some? <==> m.session.Some? && MustEnd(h[n]))
            && (UpdateAt(RESTING, h, n).started <==> m.session.None? && MustStart(h[n], m.rearm))
    ensures At(RESTING, h, n).session.Some? <==> exists m: nat :: Runs(h, m, n)
  {
    EventExactly(At(RESTING, h, n), h[n]);
    RunningExactly(h, n);
  }

  /** A session started at event m, and none of the events since has ended it. */
  ghost predicate Runs(h: seq<Event>, m: nat, n: nat) {
    && m < n <= |h| && UpdateAt(RESTING, h, m).started
    && forall x :: m < x < n ==> !MustEnd(h[x])
  }

  lemma {:induction false} RunningExactly(h: seq<Event>, n: nat)
    requires n <= |h|
    ensures At(RESTING, h, n).session.Some? <==> exists m: nat :: Runs(h, m, n)
  {
    if n > 0 {
      RunningExactly(h, n - 1);
      var s, e := At(RESTING, h, n - 1), h[n - 1];
      EventExactly(s, e);
      InTurn(s, e);
      if At(RESTING, h, n).session.Some? {
        if s.session.Some? {
          var m: nat :| Runs(h, m, n - 1);
          assert Runs(h, m, n);
        } else {
          assert Runs(h, n - 1, n);
        }
      }
      if exists m: nat :: Runs(h, m, n) {
        var m: nat :| Runs(h, m, n);
        if m < n - 1 { assert Runs(h, m, n - 1); }
      }
    }
  }

  /** Re-arming is pending exactly if a user pause ended a session and nothing since has
      re-armed: no observation with charging enabled, none without a session. */
  lemma {:induction false} RearmExactly(h: seq<Event>, n: nat)
    requires n <= |h|
    ensures At(RESTING, h, n).rearm <==> exists a: nat :: Pending(h, a, n)
  {
    if n > 0 {
      RearmExactly(h, n - 1);
      var s, e := At(RESTING, h, n - 1), h[n - 1];
      EventExactly(s, e);
      StatusesMean(e.ob);
      if At(RESTING, h, n).rearm {
        if EndsByPause(s, e) {
          assert Pending(h, n - 1, n);
        } else {
          var a: nat :| Pending(h, a, n - 1);
          assert Pending(h, a, n);
        }
      }
      if exists a: nat :: Pending(h, a, n) {
        var a: nat :| Pending(h, a, n);
        if a < n - 1 { assert Pending(h, a, n - 1); }
      }
    }
  }

  ghost predicate Pending(h: seq<Event>, a: nat, n: nat) {
    && a < n <= |h| && EndsByPause(At(RESTING, h, a), h[a])
    && forall x :: a < x < n ==> !Rearms(h[x])
  }

  /** Starts equal completions plus one if a session is running. */
  lemma {:induction false} StartsMatchCompletions(s: State, h: seq<Event>, n: nat)
    requires n <= |h| && s.session.None?
    ensures Starts(s, h, n) == |Records(s, h, n)| + if At(s, h, n).session.Some? then 1 else 0
  {
    if n > 0 {
      StartsMatchCompletions(s, h, n - 1);
      InTurn(At(s, h, n - 1), h[n - 1]);
    }
  }

  /** The running session began at event m, and nothing started or completed since. */
  ghost predicate BeganAt(s: State, h: seq<Event>, m: nat, n: nat) {
    && m < n <= |h| && UpdateAt(s, h, m).started
    && forall x :: m < x < n ==> Quiet(s, h, x)
  }

  ghost predicate Quiet(s: State, h: seq<Event>, x: nat) {
    x < |h| && !UpdateAt(s, h, x).started && UpdateAt(s, h, x).completed.None?
  }

  predicate Matches(session: Session, ob: Observation) {
    session.since == ob.at && session.total == ob.total && session.current == ob.current
  }

  lemma {:induction false} RunningSince(s: State, h: seq<Event>, n: nat) returns (m: nat)
    requires n <= |h| && s.session.None? && At(s, h, n).session.Some?
    ensures BeganAt(s, h, m, n) && Matches(At(s, h, n).session.value, h[m].ob)
    decreases n
  {
    InTurn(At(s, h, n - 1), h[n - 1]);
    if UpdateAt(s, h, n - 1).started {
      m := n - 1;
    } else {
      m := RunningSince(s, h, n - 1);
      assert Quiet(s, h, n - 1);
    }
  }

  /** The highest power seen while the session begun at event m ran, 0 at least. */
  function Peak(h: seq<Event>, m: nat, n: nat): int
    requires m <= n <= |h|
    decreases n
  {
    if m == n then 0
    else
      var before := Peak(h, m, n - 1);
      var e := h[n - 1];
      if e.Seen? && ShowsSession(e.ob) && e.ob.power.Some? && e.ob.power.value > before then e.ob.power.value
      else before
  }

  lemma PeakStep(s: State, e: Event)
    requires Next(s, e).state.session.Some? || Next(s, e).completed.Some?
    ensures var before := if s.session.Some? then s.session.value.peak else 0;
            var after := if Next(s, e).completed.Some? then Next(s, e).completed.value.peak
                         else Next(s, e).state.session.value.peak;
            after == if e.Seen? && ShowsSession(e.ob) && e.ob.power.Some? && e.ob.power.value > before
                     then e.ob.power.value else before
  {
    StatusesMean(e.ob);
  }

  lemma {:induction false} PeakIsHistory(s: State, h: seq<Event>, m: nat, n: nat)
    requires BeganAt(s, h, m, n) && s.session.None?
    ensures At(s, h, n).session.Some? && At(s, h, n).session.value.peak == Peak(h, m, n)
    decreases n
  {
    InTurn(At(s, h, n - 1), h[n - 1]);
    if m < n - 1 {
      assert Quiet(s, h, n - 1);
      PeakIsHistory(s, h, m, n - 1);
    }
    PeakStep(At(s, h, n - 1), h[n - 1]);
  }

  /** How far a counter went up between two readings, if both are there and it did not go
      down. */
  function Rise(from: Option<int>, to: Option<int>): Option<int> {
    if from.Some? && to.Some? && from.value <= to.value then Some(to.value - from.value) else None
  }

  /** A completed session, ended by an observation or by a confirmed user pause, is the one
      that started last.  Its energy is what the lifetime counter rose from its start to its
      end; where that is nothing while the session counter rose, or cannot be told, what the
      session counter rose; and unknown otherwise.  Its peak is the highest power seen. */
  lemma CompletionMatchesItsStart(s: State, h: seq<Event>, n: nat) returns (m: nat)
    requires n < |h| && s.session.None? && UpdateAt(s, h, n).completed.Some?
    ensures BeganAt(s, h, m, n) && h[m].Seen?
    ensures var (record, began, over) := (UpdateAt(s, h, n).completed.value, h[m].ob, h[n].ob);
            var (lifetime, own) := (Rise(began.total, over.total), Rise(began.current, over.current));
            && record.duration == over.at - began.at
            && record.peak == Peak(h, m, n + 1)
            && record.energy == if lifetime.Some? && !(lifetime.value == 0 && own.Some? && own.value > 0)
                                then Lifetime(lifetime.value)
                                else if own.Some? then PerSession(own.value)
                                else Unmeasured
  {
    InTurn(At(s, h, n), h[n]);
    m := RunningSince(s, h, n);
    InTurn(At(s, h, m), h[m]);
    PeakIsHistory(s, h, m, n);
    PeakStep(At(s, h, n), h[n]);
  }

  // ---- re-arming ----------------------------------------------------------------------

  /** The user ended a session by pausing: the pause was confirmed, or seen in a poll. */
  predicate EndsByPause(s: State, e: Event) {
    s.session.Some? && (e.Seen? ==> e.ob.Active() && e.ob.Paused())
  }

  predicate Rearms(e: Event) {
    e.Seen? && (e.ob.intentEnabled == Some(true) || e.ob.Inactive())
  }

  lemma RearmStep(s: State, e: Event)
    ensures EndsByPause(s, e) ==>
              Next(s, e).completed.Some? && Next(s, e).state.rearm && Next(s, e).state.session.None?
    ensures s.rearm && s.session.None? && !Rearms(e) ==>
              !Next(s, e).started && Next(s, e).state.rearm && Next(s, e).state.session.None?
  {
  }

  lemma {:induction false} RearmPersists(s: State, h: seq<Event>, a: nat, n: nat)
    requires a < n <= |h| && EndsByPause(At(s, h, a), h[a])
    requires forall x :: a < x < n ==> !Rearms(h[x])
    ensures At(s, h, n).rearm && At(s, h, n).session.None?
    decreases n
  {
    if a == n - 1 {
      RearmStep(At(s, h, a), h[a]);
    } else {
      RearmPersists(s, h, a, n - 1);
      assert !Rearms(h[n - 1]);
      RearmStep(At(s, h, n - 1), h[n - 1]);
    }
  }

  /** After a user pause ended a session, none starts before charging was seen enabled again
      or a valid inactive status was seen. */
  lemma StartNeedsRearming(s: State, h: seq<Event>, a: nat, n: nat)
    requires a < n < |h| && EndsByPause(At(s, h, a), h[a]) && UpdateAt(s, h, n).started
    ensures exists x :: a < x <= n && Rearms(h[x])
  {
    if forall x :: a < x <= n ==> !Rearms(h[x]) {
      RearmPersists(s, h, a, n);
      RearmStep(At(s, h, n), h[n]);
      assert false;
    }
  }

  // ---- energy is counted once ---------------------------------------------------------

  function SumLifetime(r: seq<Record>): int {
    if r == [] then 0
    else SumLifetime(r[..|r| - 1]) + if r[|r| - 1].energy.Lifetime? then r[|r| - 1].energy.raw else 0
  }

  lemma SumSnoc(r: seq<Record>, x: Record)
    ensures SumLifetime(r + [x]) == SumLifetime(r) + if x.energy.Lifetime? then x.energy.raw else 0
  {
    assert (r + [x])[..|r|] == r;
  }

  /** The latest lifetime reading observed in the first n events; `floor` before there is
      one. */
  function Latest(floor: int, h: seq<Event>, n: nat): int
    requires n <= |h|
  {
    if n == 0 then floor
    else if h[n - 1].Seen? && h[n - 1].ob.total.Some? then h[n - 1].ob.total.value
    else Latest(floor, h, n - 1)
  }

  /** The lifetime counter never decreases, and starts no lower than `floor`.  A user pause
      carries a reading published before, perhaps not the latest: it may be confirmed while
      a poll that has been observed is still being saved. */
  ghost predicate Rising(floor: int, h: seq<Event>) {
    forall n: nat :: n < |h| ==> RisesAt(floor, h, n)
  }

  predicate RisesAt(floor: int, h: seq<Event>, n: nat)
    requires n < |h|
  {
    h[n].ob.total.Some? ==>
      if h[n].Seen? then Latest(floor, h, n) <= h[n].ob.total.value
      else h[n].ob.total.value <= Latest(floor, h, n)
  }

  /** What the running session has had so far on the lifetime counter. */
  function Running(s: State, latest: int): int {
    if s.session.Some? && s.session.value.total.Some? then latest - s.session.value.total.value else 0
  }

  /** What a record takes from the lifetime counter. */
  function Taken(completed: Option<Record>): int {
    if completed.Some? && completed.value.energy.Lifetime? then completed.value.energy.raw else 0
  }

  lemma EnergyStep(s: State, ob: Observation, before: int, after: int)
    requires before <= after && (if ob.total.Some? then after == ob.total.value else after == before)
    requires 0 <= Running(s, before)
    ensures var u := Step(s, ob);
            && 0 <= Running(u.state, after)
            && Taken(u.completed) + Running(u.state, after) <= Running(s, before) + (after - before)
  {
  }

  lemma PauseStep(s: State, ob: Observation, latest: int)
    requires ob.total.Some? ==> ob.total.value <= latest
    requires 0 <= Running(s, latest)
    ensures var u := Ended(s, ob);
            0 <= Running(u.state, latest) && Taken(u.completed) + Running(u.state, latest) <= Running(s, latest)
  {
  }

  lemma {:induction false} CountedOnce(s: State, h: seq<Event>, floor: int, n: nat)
    requires n <= |h| && Rising(floor, h) && 0 <= Running(s, floor)
    ensures 0 <= Running(At(s, h, n), Latest(floor, h, n))
    ensures SumLifetime(Records(s, h, n)) + Running(At(s, h, n), Latest(floor, h, n))
            <= Running(s, floor) + (Latest(floor, h, n) - floor)
  {
    if n > 0 {
      CountedOnce(s, h, floor, n - 1);
      assert RisesAt(floor, h, n - 1);
      if h[n - 1].Seen? {
        EnergyStep(At(s, h, n - 1), h[n - 1].ob, Latest(floor, h, n - 1), Latest(floor, h, n));
      } else {
        PauseStep(At(s, h, n - 1), h[n - 1].ob, Latest(floor, h, n));
      }
      var u := UpdateAt(s, h, n - 1);
      if u.completed.Some? {
        SumSnoc(Records(s, h, n - 1), u.completed.value);
      } else {
        assert Records(s, h, n) == Records(s, h, n - 1);
      }
    }
  }

  /** Whatever happens, the energies measured on a never-decreasing lifetime counter sum
      to at most its total rise: nothing is counted twice. */
  lemma EnergiesSumToTheRise(h: seq<Event>, floor: int, n: nat)
    requires n <= |h| && Rising(floor, h)
    ensures SumLifetime(Records(RESTING, h, n)) <= Latest(floor, h, n) - floor
  {
    CountedOnce(RESTING, h, floor, n);
  }
}
