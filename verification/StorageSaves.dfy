/**
  Saving: three files in a fixed order, any number of saves, failures and crashes.

  `Step` is one uninterrupted stretch of the event loop: a save begins and runs up to its
  first file write, or a file write comes to its end and its save runs on to the next.
 */
module StorageSaves {
  import opened Prelude
  import opened Storage

  datatype File = SessionFile | SetpointsFile | StateFile

  /** How a file write ended; one that raised may have reached the disk all the same. */
  datatype Ending = Saved | Lost | LandedAnyway

  /** A save waiting for its next file: what it projected for the legacy files when it
      began, and the write under way. */
  datatype Saver = Saver(session: Json, setpoints: Json, file: File, payload: Json)

  datatype Store = Store(
    disk: Disk,
    controller: Option<Json>,
    fields: map<string, Json>,
    rearm: bool,
    written: map<File, Json>,
    attempted: Option<int>,
    inflight: seq<Saver>)

  function Read(d: Disk, f: File): Json {
    match f
    case SessionFile => d.session
    case SetpointsFile => d.setpoints
    case StateFile => d.state
  }

  function Write(d: Disk, f: File, payload: Json): Disk {
    match f
    case SessionFile => d.(session := payload)
    case SetpointsFile => d.(setpoints := payload)
    case StateFile => d.(state := payload)
  }

  // ---- what a save writes -----------------------------------------------------------

  predicate Holds(c: Option<Json>) {
    c.Some? ==> ValidControllerState(c.value)
  }

  /** The legacy projection: a record that must not charge reads as stopped. */
  function SessionPayload(c: Option<Json>, fields: map<string, Json>): Json
    requires Holds(c)
  {
    var paused := c.Some? && Paused(c.value);
    Obj(fields["stop_inhibit" := Bool(paused)]["stop_pending" := Bool(paused)])
  }

  function SetpointsPayload(c: Option<Json>): Json {
    if c.None? then Null
    else
      var power, current := Get(c.value, "power_raw"), Get(c.value, "current_raw");
      var limits := if current.Null? then map[] else map[CURRENT_KEY := current];
      Obj(map["desired_setpoints" := Obj(if power.Null? then limits else limits[POWER_KEY := power])])
  }

  function StatePayload(c: Json, rearm: bool, session: Json, setpoints: Json): Json {
    Obj(map["controller" := c, "session" := Obj(map["rearm_required" := Bool(rearm)]),
            "legacy_fingerprint" := Fingerprint(session, setpoints)])
  }

  predicate NeedsWrite(s: Store, f: File, payload: Json) {
    !payload.Null? && !(f in s.written && s.written[f] == payload)
  }

  function NextState(s: Store, session: Json, setpoints: Json): Option<Saver> {
    if s.controller.None? then None
    else
      var payload := StatePayload(s.controller.value, s.rearm, session, setpoints);
      if NeedsWrite(s, StateFile, payload) then Some(Saver(session, setpoints, StateFile, payload)) else None
  }

  function NextSetpoints(s: Store, session: Json, setpoints: Json): Option<Saver> {
    if NeedsWrite(s, SetpointsFile, setpoints) then Some(Saver(session, setpoints, SetpointsFile, setpoints))
    else NextState(s, session, setpoints)
  }

  /** The next write of a save with these projections, from this file on. */
  function Next(s: Store, session: Json, setpoints: Json, from: File): Option<Saver> {
    match from
    case SessionFile =>
      if NeedsWrite(s, SessionFile, session) then Some(Saver(session, setpoints, SessionFile, session))
      else NextSetpoints(s, session, setpoints)
    case SetpointsFile => NextSetpoints(s, session, setpoints)
    case StateFile => NextState(s, session, setpoints)
  }

  function Queue(next: Option<Saver>): seq<Saver> {
    if next.Some? then [next.value] else []
  }

  function Begin(s: Store): Store
    requires Holds(s.controller)
  {
    var session, setpoints := SessionPayload(s.controller, s.fields), SetpointsPayload(s.controller);
    s.(inflight := s.inflight + Queue(Next(s, session, setpoints, SessionFile)))
  }

  function SaveController(s: Store, c: Json): Store
    requires ValidControllerState(c)
  {
    var revision := Get(c, "revision").n;
    var attempted := if s.attempted.Some? && s.attempted.value > revision then s.attempted else Some(revision);
    Begin(s.(controller := Some(c), attempted := attempted))
  }

  function SaveSession(s: Store, fields: map<string, Json>, rearm: bool): Store
    requires Holds(s.controller)
  {
    Begin(s.(fields := fields, rearm := rearm))
  }

  function Ended(s: Store, i: nat, ending: Ending): Store
    requires i < |s.inflight|
  {
    var v := s.inflight[i];
    var rest := s.inflight[..i] + s.inflight[i + 1..];
    var disk := if ending.Lost? then s.disk else Write(s.disk, v.file, v.payload);
    if !ending.Saved? then s.(disk := disk, inflight := rest)
    else
      var t := s.(disk := disk, written := s.written[v.file := v.payload]);
      if v.file.StateFile? then t.(inflight := rest)
      else
        var next := Next(t, v.session, v.setpoints, if v.file.SessionFile? then SetpointsFile else StateFile);
        t.(inflight := s.inflight[..i] + Queue(next) + s.inflight[i + 1..])
  }

  // ---- runs -------------------------------------------------------------------------

  datatype Event =
    | Controller(c: Json)
    | Session(fields: map<string, Json>, rearm: bool)
    | FileDone(i: nat, ending: Ending)
    | Restart(r: Readable, newProcess: bool)

  /** A crash and a fresh start: memory is gone, what the files say is loaded; the highest
      revision this process tried to save outlives everything but the process. */
  function Restarted(s: Store, r: Readable, newProcess: bool): Store {
    var attempted := if newProcess then None else s.attempted;
    var seen := ReadOf(s.disk, r);
    s.(controller := Load(s.disk, r, attempted), fields := LoadedFields(seen.session), rearm := LoadedRearm(seen),
       written := map[], attempted := attempted, inflight := [])
  }

  predicate Possible(s: Store, e: Event) {
    match e
    case Controller(c) => ValidControllerState(c)
    case Session(_, _) => Holds(s.controller)
    case FileDone(i, _) => i < |s.inflight|
    case Restart(_, _) => true
  }

  function Step(s: Store, e: Event): Store
    requires Possible(s, e)
  {
    match e
    case Controller(c) => SaveController(s, c)
    case Session(fields, rearm) => SaveSession(s, fields, rearm)
    case FileDone(i, ending) => Ended(s, i, ending)
    case Restart(r, newProcess) => Restarted(s, r, newProcess)
  }

  /** The store after the first n events, with saves crossing as they please. */
  function At(s: Store, events: seq<Event>, n: nat): Store
    requires n <= |events|
  {
    if n == 0 then s
    else
      var m := At(s, events, n - 1);
      if Possible(m, events[n - 1]) then Step(m, events[n - 1]) else m
  }

  // ---- the fingerprint tells the truth ------------------------------------------------

  /** The session file, as the state file remembers it. */
  function Remembered(state: Json): Json {
    Get(Get(state, "legacy_fingerprint"), "session")
  }

  /** A fingerprint always agrees with its record's paused flag. */
  predicate Agrees(state: Json) {
    var c := Get(state, "controller");
    ValidControllerState(c) ==> Get(Remembered(state), "stop_inhibit") == Bool(Paused(c))
  }

  lemma PayloadAgrees(c: Json, fields: map<string, Json>, rearm: bool, setpoints: Json)
    requires ValidControllerState(c)
    ensures Agrees(StatePayload(c, rearm, SessionPayload(Some(c), fields), setpoints))
  {
  }

  /** What the legacy projection of the present record says. */
  predicate Flag(c: Option<Json>)
    requires Holds(c)
  {
    c.Some? && Paused(c.value)
  }

  /** A save with its state write ahead projected the present paused flag; a state write
      under way is truthful. */
  predicate Truthful(s: Store, v: Saver)
    requires Holds(s.controller)
  {
    if v.file.StateFile? then Agrees(v.payload) else Get(v.session, "stop_inhibit") == Bool(Flag(s.controller))
  }

  ghost predicate Sound(s: Store) {
    && Holds(s.controller) && Agrees(s.disk.state)
    && (s.attempted.Some? ==> s.attempted.value >= 0)
    && forall i :: 0 <= i < |s.inflight| ==> Truthful(s, s.inflight[i])
  }

  /** Every save under way has come to its state file. */
  predicate AllAtState(s: Store) {
    forall i :: 0 <= i < |s.inflight| ==> s.inflight[i].file.StateFile?
  }

  /** A record with the other paused flag is not saved while an earlier save has its state
      write still ahead.  Saves may cross otherwise. */
  predicate Orderly(s: Store, e: Event) {
    e.Controller? && ValidControllerState(e.c) && Holds(s.controller) && Paused(e.c) != Flag(s.controller) ==>
      AllAtState(s)
  }

  ghost predicate OrderlyAt(s: Store, events: seq<Event>, n: nat)
    requires n < |events|
  {
    Orderly(At(s, events, n), events[n])
  }

  lemma NextIsTruthful(s: Store, session: Json, setpoints: Json, from: File)
    requires Holds(s.controller) && Get(session, "stop_inhibit") == Bool(Flag(s.controller))
    ensures var n := Next(s, session, setpoints, from); n.Some? ==> Truthful(s, n.value)
  {
  }

  lemma EndedIsSound(s: Store, i: nat, ending: Ending)
    requires Sound(s) && i < |s.inflight|
    ensures Sound(Ended(s, i, ending))
  {
    var v := s.inflight[i];
    assert Truthful(s, v);
    if ending.Saved? && !v.file.StateFile? {
      var t := s.(disk := Write(s.disk, v.file, v.payload), written := s.written[v.file := v.payload]);
      NextIsTruthful(t, v.session, v.setpoints, if v.file.SessionFile? then SetpointsFile else StateFile);
    }
  }

  /** A save begins; the ones under way are truthful about the record it is of. */
  lemma BeginIsSound(s: Store)
    requires Sound(s)
    ensures Sound(Begin(s))
  {
    NextIsTruthful(s, SessionPayload(s.controller, s.fields), SetpointsPayload(s.controller), SessionFile);
  }

  lemma NewRecordIsSound(s: Store, c: Json, attempted: Option<int>)
    requires Sound(s) && ValidControllerState(c) && Orderly(s, Controller(c))
    requires attempted.Some? ==> attempted.value >= 0
    ensures Sound(s.(controller := Some(c), attempted := attempted))
  {
    forall i | 0 <= i < |s.inflight|
      ensures Truthful(s.(controller := Some(c), attempted := attempted), s.inflight[i])
    {
      assert Truthful(s, s.inflight[i]);
    }
  }

  lemma StepIsSound(s: Store, e: Event)
    requires Sound(s) && Possible(s, e) && Orderly(s, e)
    ensures Sound(Step(s, e))
  {
    match e
    case Controller(c) =>
      var revision := Get(c, "revision").n;
      var attempted := if s.attempted.Some? && s.attempted.value > revision then s.attempted else Some(revision);
      NewRecordIsSound(s, c, attempted);
      BeginIsSound(s.(controller := Some(c), attempted := attempted));
    case Session(fields, rearm) =>
      var t := s.(fields := fields, rearm := rearm);
      assert forall i :: 0 <= i < |s.inflight| ==> Truthful(s, s.inflight[i]) ==> Truthful(t, t.inflight[i]);
      BeginIsSound(t);
    case FileDone(i, ending) => EndedIsSound(s, i, ending);
    case Restart(r, newProcess) => LoadIsValid(s.disk, r, if newProcess then None else s.attempted);
  }

  lemma {:induction false} RunIsSound(s: Store, events: seq<Event>, n: nat)
    requires Sound(s) && n <= |events| && forall m :: 0 <= m < n ==> OrderlyAt(s, events, m)
    ensures Sound(At(s, events, n))
  {
    if n > 0 {
      RunIsSound(s, events, n - 1);
      var m := At(s, events, n - 1);
      assert OrderlyAt(s, events, n - 1);
      if Possible(m, events[n - 1]) {
        StepIsSound(m, events[n - 1]);
      }
    }
  }

  // ---- torn saves -------------------------------------------------------------------

  /** The session file says stop. */
  predicate SaysStop(session: Json) {
    Get(session, "stop_inhibit") == Bool(true)
  }

  /** As long as the session file can be read and says stop, and the fingerprint is
      truthful, a load is paused, wherever the save was torn. */
  lemma StopFileProtects(d: Disk, r: Readable, attempted: Option<int>)
    requires Agrees(d.state) && r.session && SaysStop(d.session)
    requires attempted.Some? ==> attempted.value >= 0
    ensures var c := Load(d, r, attempted); c.Some? && ValidControllerState(c.value) && Paused(c.value)
  {
    LoadIsValid(d, r, attempted);
    ActiveNeedsEvidence(d, r, attempted);
    if StateIsActive(ReadOf(d, r)) {
      FingerprintMatches(ReadOf(d, r));
    }
  }

  lemma FingerprintMatches(seen: Disk)
    requires UsesState(seen) && !seen.session.Null?
    ensures Remembered(seen.state) == seen.session
  {
  }

  /** Torn-save safety: in any run of saves, crossing ones included, with failures, landed
      failures and restarts, in which no record with the other paused flag is saved while an
      earlier save has its state write ahead: once the session file of a paused, latched or
      stopped record is on disk, no load that can read it charges. */
  lemma TornSaveIsSafe(s: Store, events: seq<Event>, n: nat, c: Json, fields: map<string, Json>, r: Readable)
    requires Sound(s) && n <= |events| && r.session
    requires forall m :: 0 <= m < n ==> OrderlyAt(s, events, m)
    requires ValidControllerState(c) && Paused(c) && At(s, events, n).disk.session == SessionPayload(Some(c), fields)
    ensures var t := At(s, events, n);
            var l := Load(t.disk, r, t.attempted);
            l.Some? && ValidControllerState(l.value) && Paused(l.value)
  {
    RunIsSound(s, events, n);
    var t := At(s, events, n);
    StopFileProtects(t.disk, r, t.attempted);
  }

  /** Without the premises, exactly when: with a paused session file on disk a load still
      charges if and only if the state file holds an active record and either remembers
      that very session file as its own, or the load could read neither legacy file. */
  lemma TornSaveExactly(d: Disk, r: Readable)
    requires SaysStop(d.session)
    ensures var c, seen := Load(d, r, None), ReadOf(d, r);
            (c.Some? && ValidControllerState(c.value) && !Paused(c.value))
            <==> && r.state && ValidControllerState(Get(d.state, "controller")) && !Paused(Get(d.state, "controller"))
                 && (Get(d.state, "legacy_fingerprint") == Fingerprint(seen.session, seen.setpoints)
                     || (!r.session && seen.setpoints.Null?))
  {
    ActiveNeedsEvidence(d, r, None);
  }

  /** Legacy files that cannot be read count as files that are not there: a pause whose save
      got as far as the session file is then forgotten. */
  lemma UnreadableFilesForgetPause()
    ensures var active := Record(true, Some(70), None, 1, false, false);
            var pause := Record(false, Some(70), None, 2, false, false);
            var p := SetpointsPayload(Some(active));
            var d := Disk(SessionPayload(Some(pause), map[]), p,
                          StatePayload(active, false, SessionPayload(Some(active), map[]), p));
            Agrees(d.state) && Load(d, Readable(false, false, true), None) == Some(active)
  {
    var active := Record(true, Some(70), None, 1, false, false);
    RecordIsValid(true, Some(70), None, 1, false, false);
    RecordIsValid(false, Some(70), None, 2, false, false);
    PayloadAgrees(active, map[], false, SetpointsPayload(Some(active)));
  }

  // ---- saves that cross -------------------------------------------------------------

  const RUNNING_FIELDS: map<string, Json> := map["prev_status" := Int(2)]

  function Limit70(enabled: bool, revision: int): Json {
    Record(enabled, Some(70), None, revision, false, false)
  }

  /** A session save begins, an enable's save begins behind it, and the writes alternate.
      The session save then writes the state file: the new record, remembered together with
      the old session file.  The enable's own state write is lost, and the save of a later
      pause is torn after its session file, which is again that old one. */
  const CROSSED_EVENTS: seq<Event> := [
    Session(RUNNING_FIELDS, false),
    Controller(Limit70(true, 2)),
    FileDone(0, Saved), FileDone(1, Saved),      // session files: paused, then running
    FileDone(0, Saved), FileDone(1, Saved),      // setpoints, twice the same
    FileDone(0, Saved),                        // state: running, with the paused session file
    FileDone(0, Lost),
    Controller(Limit70(false, 3)),
    FileDone(0, Saved)]                        // session file: paused

  const BEFORE_CROSSING: Store :=
    Store(Disk(Null, Null, Null), Some(Limit70(false, 1)), map[], false, map[], None, [])

  /** The session file of a pause (or of an enable) while a session was running. */
  function File70(paused: bool): Json {
    Obj(RUNNING_FIELDS["stop_inhibit" := Bool(paused)]["stop_pending" := Bool(paused)])
  }

  const POINTS_70: Json := Obj(map["desired_setpoints" := Obj(map[POWER_KEY := Int(70)])])

  function State70(paused: bool): Json {
    StatePayload(Limit70(true, 2), false, File70(paused), POINTS_70)
  }

  lemma Payloads70(enabled: bool, revision: int)
    requires revision >= 0
    ensures ValidControllerState(Limit70(enabled, revision)) && (Paused(Limit70(enabled, revision)) <==> !enabled)
    ensures Get(Limit70(enabled, revision), "revision") == Int(revision)
    ensures SessionPayload(Some(Limit70(enabled, revision)), RUNNING_FIELDS) == File70(!enabled)
    ensures SetpointsPayload(Some(Limit70(enabled, revision))) == POINTS_70
  {
    RecordIsValid(enabled, Some(70), None, revision, false, false);
  }

  function Waiting(paused: bool, file: File): Saver {
    Saver(File70(paused), POINTS_70, file,
          match file
          case SessionFile => File70(paused)
          case SetpointsFile => POINTS_70
          case StateFile => State70(paused))
  }

  /** The store along the crossing, from the moment the enable's save has begun. */
  function Crossed(disk: Disk, written: map<File, Json>, inflight: seq<Saver>): Store {
    Store(disk, Some(Limit70(true, 2)), RUNNING_FIELDS, false, written, Some(2), inflight)
  }

  lemma CrossStep(s: Store, events: seq<Event>, n: nat, m: Store)
    requires n < |events| && At(s, events, n) == m && Possible(m, events[n])
    ensures At(s, events, n + 1) == Step(m, events[n])
  {
  }

  lemma CrossingBegins()
    ensures At(BEFORE_CROSSING, CROSSED_EVENTS, 2)
            == Crossed(Disk(Null, Null, Null), map[], [Waiting(true, SessionFile), Waiting(false, SessionFile)])
  {
    var s, e := BEFORE_CROSSING, CROSSED_EVENTS;
    Payloads70(false, 1);
    CrossStep(s, e, 0, s);
    var s1 := s.(fields := RUNNING_FIELDS, inflight := [Waiting(true, SessionFile)]);
    assert Step(s, e[0]) == s1;
    Payloads70(true, 2);
    CrossStep(s, e, 1, s1);
  }

  /** The crossing has come to event n with this store. */
  ghost predicate CrossedAt(n: nat, t: Store) {
    n <= |CROSSED_EVENTS| && At(BEFORE_CROSSING, CROSSED_EVENTS, n) == t
  }

  lemma SessionEnds(disk: Disk, written: map<File, Json>, i: nat, paused: bool, a: seq<Saver>)
    requires i < |a| && a[i] == Waiting(paused, SessionFile) && SetpointsFile !in written
    ensures Ended(Crossed(disk, written, a), i, Saved)
            == Crossed(disk.(session := File70(paused)), written[SessionFile := File70(paused)],
                       a[i := Waiting(paused, SetpointsFile)])
  {
    assert a[..i] + [Waiting(paused, SetpointsFile)] + a[i + 1..] == a[i := Waiting(paused, SetpointsFile)];
  }

  lemma SessionWritten(n: nat, disk: Disk, written: map<File, Json>, i: nat, paused: bool, a: seq<Saver>)
    requires CrossedAt(n, Crossed(disk, written, a)) && n < |CROSSED_EVENTS| && CROSSED_EVENTS[n] == FileDone(i, Saved)
    requires i < |a| && a[i] == Waiting(paused, SessionFile) && SetpointsFile !in written
    ensures CrossedAt(n + 1, Crossed(disk.(session := File70(paused)), written[SessionFile := File70(paused)],
                                     a[i := Waiting(paused, SetpointsFile)]))
  {
    SessionEnds(disk, written, i, paused, a);
    CrossStep(BEFORE_CROSSING, CROSSED_EVENTS, n, Crossed(disk, written, a));
  }

  lemma SetpointsEnd(disk: Disk, written: map<File, Json>, i: nat, paused: bool, a: seq<Saver>)
    requires i < |a| && a[i] == Waiting(paused, SetpointsFile) && StateFile !in written
    ensures Ended(Crossed(disk, written, a), i, Saved)
            == Crossed(disk.(setpoints := POINTS_70), written[SetpointsFile := POINTS_70],
                       a[i := Waiting(paused, StateFile)])
  {
    assert a[..i] + [Waiting(paused, StateFile)] + a[i + 1..] == a[i := Waiting(paused, StateFile)];
  }

  lemma SetpointsWritten(n: nat, disk: Disk, written: map<File, Json>, i: nat, paused: bool, a: seq<Saver>)
    requires CrossedAt(n, Crossed(disk, written, a)) && n < |CROSSED_EVENTS| && CROSSED_EVENTS[n] == FileDone(i, Saved)
    requires i < |a| && a[i] == Waiting(paused, SetpointsFile) && StateFile !in written
    ensures CrossedAt(n + 1, Crossed(disk.(setpoints := POINTS_70), written[SetpointsFile := POINTS_70],
                                     a[i := Waiting(paused, StateFile)]))
  {
    SetpointsEnd(disk, written, i, paused, a);
    CrossStep(BEFORE_CROSSING, CROSSED_EVENTS, n, Crossed(disk, written, a));
  }

  lemma StateWritten(n: nat, disk: Disk, written: map<File, Json>, paused: bool, v: Saver)
    requires CrossedAt(n, Crossed(disk, written, [Waiting(paused, StateFile), v]))
    requires n < |CROSSED_EVENTS| && CROSSED_EVENTS[n] == FileDone(0, Saved)
    ensures CrossedAt(n + 1, Crossed(disk.(state := State70(paused)), written[StateFile := State70(paused)], [v]))
  {
    var a := [Waiting(paused, StateFile), v];
    assert a[..0] + a[1..] == [v];
    CrossStep(BEFORE_CROSSING, CROSSED_EVENTS, n, Crossed(disk, written, a));
  }

  lemma WriteLost(n: nat, disk: Disk, written: map<File, Json>, v: Saver)
    requires CrossedAt(n, Crossed(disk, written, [v])) && n < |CROSSED_EVENTS| && CROSSED_EVENTS[n] == FileDone(0, Lost)
    ensures CrossedAt(n + 1, Crossed(disk, written, []))
  {
    assert [v][..0] + [v][1..] == [];
    CrossStep(BEFORE_CROSSING, CROSSED_EVENTS, n, Crossed(disk, written, [v]));
  }

  lemma FirstSessionWritten()
    ensures CrossedAt(3, Crossed(Disk(File70(true), Null, Null), map[][SessionFile := File70(true)],
                                 [Waiting(true, SetpointsFile), Waiting(false, SessionFile)]))
  {
    CrossingBegins();
    var a := [Waiting(true, SessionFile), Waiting(false, SessionFile)];
    SessionWritten(2, Disk(Null, Null, Null), map[], 0, true, a);
    assert a[0 := Waiting(true, SetpointsFile)] == [Waiting(true, SetpointsFile), Waiting(false, SessionFile)];
  }

  lemma SessionsCross()
    ensures exists w: map<File, Json> :: SetpointsFile !in w && StateFile !in w && SessionFile in w
              && w[SessionFile] == File70(false)
              && CrossedAt(4, Crossed(Disk(File70(false), Null, Null), w,
                                      [Waiting(true, SetpointsFile), Waiting(false, SetpointsFile)]))
  {
    FirstSessionWritten();
    var m: map<File, Json> := map[][SessionFile := File70(true)];
    var b := [Waiting(true, SetpointsFile), Waiting(false, SessionFile)];
    SessionWritten(3, Disk(File70(true), Null, Null), m, 1, false, b);
    assert b[1 := Waiting(false, SetpointsFile)] == [Waiting(true, SetpointsFile), Waiting(false, SetpointsFile)];
  }

  lemma FirstSetpointsWritten() returns (w: map<File, Json>)
    ensures StateFile !in w && SessionFile in w && w[SessionFile] == File70(false)
    ensures SetpointsFile in w && w[SetpointsFile] == POINTS_70
    ensures CrossedAt(5, Crossed(Disk(File70(false), POINTS_70, Null), w,
                                 [Waiting(true, StateFile), Waiting(false, SetpointsFile)]))
  {
    SessionsCross();
    var a := [Waiting(true, SetpointsFile), Waiting(false, SetpointsFile)];
    var m: map<File, Json> :| SetpointsFile !in m && StateFile !in m && SessionFile in m
      && m[SessionFile] == File70(false)
      && CrossedAt(4, Crossed(Disk(File70(false), Null, Null), m, a));
    SetpointsWritten(4, Disk(File70(false), Null, Null), m, 0, true, a);
    w := m[SetpointsFile := POINTS_70];
    assert a[0 := Waiting(true, StateFile)] == [Waiting(true, StateFile), Waiting(false, SetpointsFile)];
  }

  lemma SetpointsCross()
    ensures exists w: map<File, Json> :: StateFile !in w && SessionFile in w && w[SessionFile] == File70(false)
              && CrossedAt(6, Crossed(Disk(File70(false), POINTS_70, Null), w,
                                      [Waiting(true, StateFile), Waiting(false, StateFile)]))
  {
    var w := FirstSetpointsWritten();
    var b := [Waiting(true, StateFile), Waiting(false, SetpointsFile)];
    SetpointsWritten(5, Disk(File70(false), POINTS_70, Null), w, 1, false, b);
    assert b[1 := Waiting(false, StateFile)] == [Waiting(true, StateFile), Waiting(false, StateFile)];
    assert w[SetpointsFile := POINTS_70] == w;
  }

  /** The state file the session save leaves behind: an active record, remembered with the
      session file of a pause. */
  lemma StateCrosses() returns (w: map<File, Json>)
    ensures SessionFile in w && w[SessionFile] == File70(false)
    ensures CrossedAt(8, Crossed(Disk(File70(false), POINTS_70, State70(true)), w, []))
  {
    SetpointsCross();
    var m: map<File, Json> :| StateFile !in m && SessionFile in m && m[SessionFile] == File70(false)
      && CrossedAt(6, Crossed(Disk(File70(false), POINTS_70, Null), m,
                              [Waiting(true, StateFile), Waiting(false, StateFile)]));
    StateWritten(6, Disk(File70(false), POINTS_70, Null), m, true, Waiting(false, StateFile));
    w := m[StateFile := State70(true)];
    WriteLost(7, Disk(File70(false), POINTS_70, State70(true)), w, Waiting(false, StateFile));
  }

  lemma FilesDiffer()
    ensures File70(true) != File70(false)
  {
    assert Get(File70(true), "stop_inhibit") != Get(File70(false), "stop_inhibit");
  }

  /** The pause that follows gets no further than its session file. */
  lemma PauseIsTorn()
    ensures At(BEFORE_CROSSING, CROSSED_EVENTS, 10).disk == Disk(File70(true), POINTS_70, State70(true))
  {
    var w := StateCrosses();
    var s8 := Crossed(Disk(File70(false), POINTS_70, State70(true)), w, []);
    Payloads70(false, 3);
    FilesDiffer();
    CrossStep(BEFORE_CROSSING, CROSSED_EVENTS, 8, s8);
    var s9 := Step(s8, CROSSED_EVENTS[8]);
    assert s9.disk == s8.disk && s9.inflight == [] + [Waiting(true, SessionFile)];
    CrossStep(BEFORE_CROSSING, CROSSED_EVENTS, 9, s9);
  }

  /** Saves that cross break the fingerprint's promise, and with it torn-save safety: the
      session file of a pause is on disk, every file can be read, and the load charges. */
  lemma CrossedSavesForgetPause()
    ensures var t := At(BEFORE_CROSSING, CROSSED_EVENTS, 10);
            && ValidControllerState(Limit70(false, 3)) && Paused(Limit70(false, 3))
            && t.disk.session == SessionPayload(Some(Limit70(false, 3)), RUNNING_FIELDS)
            && Load(t.disk, ALL_READABLE, None) == Some(Limit70(true, 2))
            && ValidControllerState(Limit70(true, 2)) && !Paused(Limit70(true, 2))
            && !Agrees(t.disk.state)
  {
    PauseIsTorn();
    Payloads70(false, 3);
    Payloads70(true, 2);
    LyingFingerprint();
  }

  lemma LyingFingerprint()
    ensures Load(Disk(File70(true), POINTS_70, State70(true)), ALL_READABLE, None) == Some(Limit70(true, 2))
    ensures !Agrees(State70(true))
  {
    Payloads70(true, 2);
  }

  // ---- a completed save is what a load returns ----------------------------------------

  /** How many files a save may still have to write. */
  function Left(s: Store): nat {
    if s.inflight == [] then 0
    else match s.inflight[0].file case SessionFile => 3 case SetpointsFile => 2 case StateFile => 1
  }

  lemma EndedProgress(s: Store)
    requires |s.inflight| == 1
    ensures |Ended(s, 0, Saved).inflight| <= 1 && Left(Ended(s, 0, Saved)) < Left(s)
  {
  }

  /** Every write of the save under way succeeds. */
  function Finished(s: Store): Store
    requires |s.inflight| <= 1
    decreases Left(s)
  {
    if s.inflight == [] then s
    else
      EndedProgress(s);
      Finished(Ended(s, 0, Saved))
  }

  lemma BeginsAlone(s: Store, c: Json)
    requires ValidControllerState(c) && s.inflight == []
    ensures |SaveController(s, c).inflight| <= 1
  {
  }

  function CompleteSave(s: Store, c: Json): Store
    requires ValidControllerState(c) && s.inflight == []
  {
    BeginsAlone(s, c);
    Finished(SaveController(s, c))
  }

  function Put(s: Store, f: File, payload: Json): Store {
    if NeedsWrite(s, f, payload) then s.(disk := Write(s.disk, f, payload), written := s.written[f := payload]) else s
  }

  /** A write that succeeds puts its file, and its save goes on to the next one. */
  lemma EndedPuts(s: Store, v: Saver)
    requires s.inflight == [v] && NeedsWrite(s, v.file, v.payload)
    ensures var t := Put(s, v.file, v.payload);
            Ended(s, 0, Saved) == t.(inflight := match v.file
                                                 case SessionFile => Queue(NextSetpoints(t, v.session, v.setpoints))
                                                 case SetpointsFile => Queue(NextState(t, v.session, v.setpoints))
                                                 case StateFile => [])
  {
    assert s.inflight[..0] == [] && s.inflight[1..] == [];
  }

  lemma FinishState(s: Store, session: Json, setpoints: Json)
    requires s.controller.Some? && s.inflight == Queue(NextState(s, session, setpoints))
    ensures var payload := StatePayload(s.controller.value, s.rearm, session, setpoints);
            Finished(s) == Put(s, StateFile, payload).(inflight := [])
  {
    if s.inflight != [] { EndedPuts(s, s.inflight[0]); }
  }

  /** The setpoints file put, and then the state file. */
  function PutRest(s: Store, session: Json, setpoints: Json): Store
    requires s.controller.Some?
  {
    var t := Put(s, SetpointsFile, setpoints);
    Put(t, StateFile, StatePayload(s.controller.value, s.rearm, session, setpoints)).(inflight := [])
  }

  lemma QueueIsIdle(s: Store, queue: seq<Saver>, session: Json, setpoints: Json)
    requires s.controller.Some?
    ensures PutRest(s.(inflight := queue), session, setpoints) == PutRest(s, session, setpoints)
  {
  }

  lemma FinishSetpoints(s: Store, session: Json, setpoints: Json)
    requires s.controller.Some? && s.inflight == Queue(NextSetpoints(s, session, setpoints))
    ensures Finished(s) == PutRest(s, session, setpoints)
  {
    if NeedsWrite(s, SetpointsFile, setpoints) {
      EndedPuts(s, s.inflight[0]);
      FinishState(Ended(s, 0, Saved), session, setpoints);
    } else {
      FinishState(s, session, setpoints);
    }
  }

  lemma FinishSession(s: Store, session: Json, setpoints: Json)
    requires s.controller.Some? && s.inflight == Queue(Next(s, session, setpoints, SessionFile))
    ensures Finished(s) == PutRest(Put(s, SessionFile, session), session, setpoints)
  {
    if NeedsWrite(s, SessionFile, session) {
      EndedPuts(s, s.inflight[0]);
      var t := Ended(s, 0, Saved);
      QueueIsIdle(Put(s, SessionFile, session), t.inflight, session, setpoints);
      FinishSetpoints(t, session, setpoints);
    } else {
      FinishSetpoints(s, session, setpoints);
    }
  }

  /** Run to its end, a save is its three files put one after the other. */
  lemma CompleteSaveIsStraight(s: Store, c: Json)
    requires ValidControllerState(c) && s.inflight == []
    ensures var session, setpoints := SessionPayload(Some(c), s.fields), SetpointsPayload(Some(c));
            var t := Put(Put(SaveController(s, c), SessionFile, session), SetpointsFile, setpoints);
            CompleteSave(s, c) == Put(t, StateFile, StatePayload(c, s.rearm, session, setpoints)).(inflight := [])
  {
    var session, setpoints := SessionPayload(Some(c), s.fields), SetpointsPayload(Some(c));
    var b := SaveController(s, c);
    assert b.inflight == [] + Queue(Next(b.(inflight := []), session, setpoints, SessionFile));
    FinishSession(b, session, setpoints);
  }

  /** What is taken for written is on disk. */
  predicate Honest(s: Store, f: File, payload: Json) {
    NeedsWrite(s, f, payload) || Read(s.disk, f) == payload
  }

  /** A completed save of a new record is exactly what a load returns, if and only if the
      legacy files it did not write again really hold what it projected for them. */
  lemma SaveIsLoaded(s: Store, c: Json)
    requires ValidControllerState(c) && s.inflight == []
    requires var session, setpoints := SessionPayload(Some(c), s.fields), SetpointsPayload(Some(c));
             && NeedsWrite(s, StateFile, StatePayload(c, s.rearm, session, setpoints))
             && (NeedsWrite(s, SessionFile, session) || !s.disk.session.Null?)
    ensures Load(CompleteSave(s, c).disk, ALL_READABLE, None) == Some(c)
        <==> Honest(s, SessionFile, SessionPayload(Some(c), s.fields))
             && Honest(s, SetpointsFile, SetpointsPayload(Some(c)))
  {
    CompleteSaveIsStraight(s, c);
    var session, setpoints := SessionPayload(Some(c), s.fields), SetpointsPayload(Some(c));
    var d := CompleteSave(s, c).disk;
    assert d == Disk(if NeedsWrite(s, SessionFile, session) then session else s.disk.session,
                     if NeedsWrite(s, SetpointsFile, setpoints) then setpoints else s.disk.setpoints,
                     StatePayload(c, s.rearm, session, setpoints));
    LoadAfterSave(d, c, s.rearm, session, setpoints);
  }

  lemma LoadAfterSave(d: Disk, c: Json, rearm: bool, session: Json, setpoints: Json)
    requires ValidControllerState(c) && d.state == StatePayload(c, rearm, session, setpoints) && !d.session.Null?
    ensures Load(d, ALL_READABLE, None) == Some(c) <==> d.session == session && d.setpoints == setpoints
  {
    if d.session == session && d.setpoints == setpoints {
      assert UsesState(d);
    } else {
      assert Get(Fingerprint(session, setpoints), "session") == session;
      assert Get(Fingerprint(session, setpoints), "setpoints") == setpoints;
      assert Get(Fingerprint(d.session, d.setpoints), "session") == d.session;
      assert Get(Fingerprint(d.session, d.setpoints), "setpoints") == d.setpoints;
      assert !UsesState(d);
      ImportIsNewer(d.session, d.setpoints, d.state, c);
    }
  }

  lemma ImportIsNewer(session: Json, setpoints: Json, state: Json, c: Json)
    requires ValidControllerState(c) && Get(state, "controller") == c
    ensures ImportLegacy(session, setpoints, true, state) != c
  {
    assert Get(ImportLegacy(session, setpoints, true, state), "revision") == Int(Get(c, "revision").n + 1);
  }

  /** Everything taken for written is on disk. */
  predicate Faithful(s: Store) {
    forall f :: f in s.written ==> Read(s.disk, f) == s.written[f]
  }

  lemma FaithfulIsHonest(s: Store, f: File, payload: Json)
    requires Faithful(s) && !payload.Null?
    ensures Honest(s, f, payload)
  {
  }

  /** Only a write that raised and yet landed makes the memory of what was written wrong;
      saves that fail, cross or are torn by a restart do not. */
  lemma StaysFaithful(s: Store, e: Event)
    requires Faithful(s) && Possible(s, e) && !(e.FileDone? && e.ending.LandedAnyway?)
    ensures Faithful(Step(s, e))
  {
    match e
    case FileDone(i, ending) => EndedFaithful(s, i, ending);
    case _ =>
  }

  lemma EndedFaithful(s: Store, i: nat, ending: Ending)
    requires Faithful(s) && i < |s.inflight| && !ending.LandedAnyway?
    ensures Faithful(Ended(s, i, ending))
  {
    var v := s.inflight[i];
    assert Ended(s, i, ending).written == if ending.Saved? then s.written[v.file := v.payload] else s.written;
    assert Ended(s, i, ending).disk == if ending.Saved? then Write(s.disk, v.file, v.payload) else s.disk;
  }

  /** No write in these events raised and landed all the same. */
  ghost predicate NoneLanded(events: seq<Event>) {
    forall i :: 0 <= i < |events| ==> !(events[i].FileDone? && events[i].ending.LandedAnyway?)
  }

  lemma {:induction false} RunStaysFaithful(s: Store, events: seq<Event>, n: nat)
    requires Faithful(s) && NoneLanded(events) && n <= |events|
    ensures Faithful(At(s, events, n))
  {
    if n > 0 {
      RunStaysFaithful(s, events, n - 1);
      var m := At(s, events, n - 1);
      if Possible(m, events[n - 1]) {
        StaysFaithful(m, events[n - 1]);
      }
    }
  }

  /** So after any such run, crossing saves and restarts included, a new record whose save
      completes on its own is exactly what the next load returns. */
  lemma SavedIsLoaded(s: Store, events: seq<Event>, n: nat, c: Json)
    requires Faithful(s) && NoneLanded(events) && n <= |events| && ValidControllerState(c)
    requires var t := At(s, events, n);
             && t.inflight == []
             && var (session, setpoints) := (SessionPayload(Some(c), t.fields), SetpointsPayload(Some(c)));
                NeedsWrite(t, StateFile, StatePayload(c, t.rearm, session, setpoints))
    ensures Load(CompleteSave(At(s, events, n), c).disk, ALL_READABLE, None) == Some(c)
  {
    RunStaysFaithful(s, events, n);
    var t := At(s, events, n);
    FaithfulIsHonest(t, SessionFile, SessionPayload(Some(c), t.fields));
    FaithfulIsHonest(t, SetpointsFile, SetpointsPayload(Some(c)));
    SaveIsLoaded(t, c);
  }

  /** The session's own fields, as the tracker exports them. */
  predicate SessionFields(fields: map<string, Json>) {
    && fields.Keys == {"session_start_wall", "session_start_total", "last_session", "prev_status"}
    && (if fields["session_start_wall"].Null? then fields["session_start_total"].Null?
        else && fields["session_start_wall"].Float? && fields["session_start_wall"].r.Some?
             && fields["session_start_total"].Int? && fields["session_start_total"].n >= 0)
    && (fields["last_session"].Null? || fields["last_session"].Obj?)
    && (fields["prev_status"].Null? || fields["prev_status"].Int?)
  }

  lemma FieldsRoundTrip(c: Option<Json>, fields: map<string, Json>)
    requires Holds(c) && SessionFields(fields)
    ensures LoadedFields(SessionPayload(c, fields)) == fields
  {
    var session := SessionPayload(c, fields);
    assert forall key :: key in fields.Keys ==> Get(session, key) == fields[key];
    assert LoadedFields(session).Keys == fields.Keys;
  }

  lemma DiskAfterSave(s: Store, c: Json)
    requires Faithful(s) && ValidControllerState(c) && s.inflight == []
    requires NeedsWrite(s, StateFile, FullPayload(s, c))
    ensures CompleteSave(s, c).disk
         == Disk(SessionPayload(Some(c), s.fields), SetpointsPayload(Some(c)), FullPayload(s, c))
  {
    CompleteSaveIsStraight(s, c);
    FaithfulIsHonest(s, SessionFile, SessionPayload(Some(c), s.fields));
    FaithfulIsHonest(s, SetpointsFile, SetpointsPayload(Some(c)));
  }

  /** The state file that a save of this record ends with. */
  function FullPayload(s: Store, c: Json): Json
    requires ValidControllerState(c)
  {
    StatePayload(c, s.rearm, SessionPayload(Some(c), s.fields), SetpointsPayload(Some(c)))
  }

  lemma LoadedAfterSave(d: Disk, c: Json, fields: map<string, Json>, rearm: bool)
    requires ValidControllerState(c) && SessionFields(fields)
    requires var (session, setpoints) := (SessionPayload(Some(c), fields), SetpointsPayload(Some(c)));
             d == Disk(session, setpoints, StatePayload(c, rearm, session, setpoints))
    ensures Load(d, ALL_READABLE, None) == Some(c)
    ensures LoadedFields(d.session) == fields && LoadedRearm(d) == rearm
  {
    FieldsRoundTrip(Some(c), fields);
    LoadAfterSave(d, c, rearm, d.session, d.setpoints);
    assert UsesState(d);
  }

  /** A completed save brings back everything after a restart: the record, the session's own
      fields and the re-arm flag. */
  lemma SaveSurvivesRestart(s: Store, c: Json)
    requires Faithful(s) && ValidControllerState(c) && s.inflight == [] && SessionFields(s.fields)
    requires NeedsWrite(s, StateFile, FullPayload(s, c))
    ensures var t := Restarted(CompleteSave(s, c), ALL_READABLE, true);
            t.controller == Some(c) && t.fields == s.fields && t.rearm == s.rearm && t.inflight == []
  {
    DiskAfterSave(s, c);
    LoadedAfterSave(CompleteSave(s, c).disk, c, s.fields, s.rearm);
  }

  /** Limits go into the setpoints file as they come out again. */
  lemma LimitsRoundTrip(enabled: bool, power: Option<int>, current: Option<int>, revision: int,
      latched: bool, stop: bool)
    requires LimitsOk(power, current)
    ensures LegacyLimits(SetpointsPayload(Some(Record(enabled, power, current, revision, latched, stop))))
            == Limits(power, current, false)
  {
  }

  /** Nothing but file writes of the save under way come to their end. */
  predicate OnlyWrites(events: seq<Event>) {
    forall i :: 0 <= i < |events| ==> events[i].FileDone?
  }

  /** The save of a pause: nothing has reached the disk, or its session file has. */
  predicate PausesFirst(s: Store, disk: Disk) {
    || SaysStop(s.disk.session)
    || (s.disk == disk && |s.inflight| <= 1
        && (|s.inflight| == 1 ==> s.inflight[0].file.SessionFile? && SaysStop(s.inflight[0].payload)
                                  && s.inflight[0].session == s.inflight[0].payload))
  }

  lemma PausesFirstStep(s: Store, disk: Disk, i: nat, ending: Ending)
    requires PausesFirst(s, disk) && i < |s.inflight|
    requires forall k :: 0 <= k < |s.inflight| ==> Stops(s.inflight[k])
    ensures PausesFirst(Ended(s, i, ending), disk)
    ensures forall k :: 0 <= k < |Ended(s, i, ending).inflight| ==> Stops(Ended(s, i, ending).inflight[k])
  {
    var v := s.inflight[i];
    assert Stops(v);
  }

  predicate Stops(v: Saver) {
    SaysStop(v.session) && (v.file.SessionFile? ==> v.payload == v.session)
  }

  lemma PauseBegins(s: Store, c: Json)
    requires Faithful(s) && s.inflight == [] && ValidControllerState(c) && Paused(c)
    ensures var b := SaveController(s, c);
            PausesFirst(b, s.disk) && forall k :: 0 <= k < |b.inflight| ==> Stops(b.inflight[k])
  {
    var session := SessionPayload(Some(c), s.fields);
    assert SaysStop(session);
    FaithfulIsHonest(s, SessionFile, session);
  }

  lemma {:induction false} PauseRuns(s: Store, c: Json, events: seq<Event>, n: nat)
    requires Faithful(s) && s.inflight == [] && ValidControllerState(c) && Paused(c)
    requires OnlyWrites(events) && n <= |events|
    ensures var t := At(SaveController(s, c), events, n);
            PausesFirst(t, s.disk) && forall k :: 0 <= k < |t.inflight| ==> Stops(t.inflight[k])
  {
    if n == 0 {
      PauseBegins(s, c);
    } else {
      PauseRuns(s, c, events, n - 1);
      var t := At(SaveController(s, c), events, n - 1);
      if Possible(t, events[n - 1]) {
        PausesFirstStep(t, s.disk, events[n - 1].i, events[n - 1].ending);
      }
    }
  }

  /** Wherever the save of a pause is torn, a load finds the files as they were before the
      save began, or a pause. */
  lemma TornPauseProtects(s: Store, c: Json, events: seq<Event>, n: nat, r: Readable)
    requires Sound(s) && Faithful(s) && s.inflight == [] && ValidControllerState(c) && Paused(c)
    requires OnlyWrites(events) && n <= |events| && r.session
    ensures var t := At(SaveController(s, c), events, n);
            || t.disk == s.disk
            || (var l := Load(t.disk, r, t.attempted); l.Some? && ValidControllerState(l.value) && Paused(l.value))
  {
    PauseRuns(s, c, events, n);
    StepIsSound(s, Controller(c));
    RunIsSound(SaveController(s, c), events, n);
    var t := At(SaveController(s, c), events, n);
    if t.disk != s.disk {
      StopFileProtects(t.disk, r, t.attempted);
    }
  }

  const PAUSED_ON_DISK: Store :=
    Store(Disk(File70(true), POINTS_70, Null), Some(Limit70(false, 1)), RUNNING_FIELDS, false,
          map[SessionFile := File70(true), SetpointsFile := POINTS_70], Some(1), [])

  lemma EnableLanded()
    ensures ValidControllerState(Limit70(true, 2))
    ensures var begun := SaveController(PAUSED_ON_DISK, Limit70(true, 2));
            && |begun.inflight| == 1
            && var s := Ended(begun, 0, LandedAnyway);
            && s.inflight == [] && s.disk == Disk(File70(false), POINTS_70, Null)
            && s.fields == RUNNING_FIELDS && !s.rearm && s.written == PAUSED_ON_DISK.written
  {
    Payloads70(true, 2);
    FilesDiffer();
    var begun := SaveController(PAUSED_ON_DISK, Limit70(true, 2));
    assert begun.inflight == [] + [Waiting(false, SessionFile)];
    assert begun.inflight[..0] + begun.inflight[1..] == [];
  }

  lemma PauseSaved(s: Store)
    requires s.inflight == [] && s.disk == Disk(File70(false), POINTS_70, Null)
    requires s.fields == RUNNING_FIELDS && !s.rearm && s.written == PAUSED_ON_DISK.written
    ensures ValidControllerState(Limit70(false, 3))
    ensures var t := CompleteSave(s, Limit70(false, 3));
            && t.inflight == [] && t.controller == Some(Limit70(false, 3))
            && t.disk == Disk(File70(false), POINTS_70, StatePayload(Limit70(false, 3), false, File70(true), POINTS_70))
  {
    Payloads70(false, 3);
    CompleteSaveIsStraight(s, Limit70(false, 3));
    SkippedFiles(SaveController(s, Limit70(false, 3)));
  }

  /** The pause's legacy files are taken for written: only the state file goes out. */
  lemma SkippedFiles(b: Store)
    requires b.written == PAUSED_ON_DISK.written
    ensures Put(Put(b, SessionFile, File70(true)), SetpointsFile, POINTS_70) == b
    ensures forall p: Json :: !p.Null? ==> Put(b, StateFile, p).disk == b.disk.(state := p)
  {
  }

  /** An enable whose save raised on the session file although it landed; then a pause
      that is saved to its end.  The pause's session file is taken for written already, and
      the load charges. */
  lemma LandedFailureForgetsPause()
    ensures ValidControllerState(Limit70(true, 2)) && ValidControllerState(Limit70(false, 3))
    ensures var begun := SaveController(PAUSED_ON_DISK, Limit70(true, 2));
            && |begun.inflight| == 1
            && var s := Ended(begun, 0, LandedAnyway);
            && s.inflight == []
            && var t := CompleteSave(s, Limit70(false, 3));
            var l := Load(t.disk, ALL_READABLE, None);
            && t.inflight == [] && t.controller == Some(Limit70(false, 3))
            && l.Some? && ValidControllerState(l.value) && !Paused(l.value)
  {
    EnableLanded();
    PauseSaved(Ended(SaveController(PAUSED_ON_DISK, Limit70(true, 2)), 0, LandedAnyway));
    LandedLoad(Disk(File70(false), POINTS_70, StatePayload(Limit70(false, 3), false, File70(true), POINTS_70)));
  }

  lemma LandedLoad(d: Disk)
    requires d == Disk(File70(false), POINTS_70, StatePayload(Limit70(false, 3), false, File70(true), POINTS_70))
    ensures var l := Load(d, ALL_READABLE, None); l.Some? && ValidControllerState(l.value) && !Paused(l.value)
  {
    FilesDiffer();
    Payloads70(false, 3);
    assert Get(Fingerprint(File70(true), POINTS_70), "session") == File70(true);
    assert Get(Fingerprint(d.session, d.setpoints), "session") == File70(false);
    assert !UsesState(d);
    assert LegacyRunning(d.session);
    assert !LegacyLimits(d.setpoints).malformed;
    ActiveNeedsEvidence(d, ALL_READABLE, None);
  }

  // ---- the storage ------------------------------------------------------------------

  class ChargerStorage {
    var disk: Disk                            // what the stores hold
    var controller: Option<Json>
    var fields: map<string, Json>
    var rearm: bool
    var written: map<File, Json>
    var attempted: Option<int>
    var inflight: seq<Saver>                  // saves suspended in a file write

    ghost function Now(): Store
      reads this
    {
      Store(disk, controller, fields, rearm, written, attempted, inflight)
    }

    /** A storage opened on these files, in a process that tried to save so far. */
    constructor (disk: Disk, attempted: Option<int>)
      ensures this.disk == disk && this.attempted == attempted && controller.None? && inflight == [] && written == map[]
    {
      this.disk, this.attempted := disk, attempted;
      controller, fields, rearm, written, inflight := None, map[], false, map[], [];
    }

    /** Load; which files can be read is up to the platform. */
    method AsyncLoad(r: Readable) returns (result: Option<Json>)
      requires attempted.Some? ==> attempted.value >= 0
      requires inflight == [] && written == map[]
      modifies `controller, `fields, `rearm
      ensures Now() == Restarted(old(Now()), r, false) && result == controller
      ensures Holds(controller)
    {
      LoadIsValid(disk, r, attempted);
      var seen := ReadOf(disk, r);
      result := Load(disk, r, attempted);
      controller, fields, rearm := result, LoadedFields(seen.session), LoadedRearm(seen);
    }

    predicate Differs(f: File, payload: Json)
      reads `written
    {
      !payload.Null? && !(f in written && written[f] == payload)
    }

    method ProceedToState(session: Json, setpoints: Json) returns (next: Option<Saver>)
      ensures next == NextState(Now(), session, setpoints)
    {
      if controller.None? {
        return None;
      }
      var payload := StatePayload(controller.value, rearm, session, setpoints);
      next := if Differs(StateFile, payload) then Some(Saver(session, setpoints, StateFile, payload)) else None;
    }

    /** Run on to the next file that has to be written. */
    method Proceed(session: Json, setpoints: Json, from: File) returns (next: Option<Saver>)
      ensures next == Next(Now(), session, setpoints, from)
    {
      if from.SessionFile? && Differs(SessionFile, session) {
        return Some(Saver(session, setpoints, SessionFile, session));
      }
      if !from.StateFile? && Differs(SetpointsFile, setpoints) {
        return Some(Saver(session, setpoints, SetpointsFile, setpoints));
      }
      next := ProceedToState(session, setpoints);
    }

    method WriteAll()
      requires Holds(controller)
      modifies `inflight
      ensures Now() == Begin(old(Now()))
    {
      var session, setpoints := SessionPayload(controller, fields), SetpointsPayload(controller);
      var next := Proceed(session, setpoints, SessionFile);
      inflight := inflight + Queue(next);
    }

    /** A malformed record is refused; otherwise it is the record from here on, and the
        highest revision tried is remembered before anything is written. */
    method AsyncSaveController(c: Json) returns (accepted: bool)
      modifies `controller, `attempted, `inflight
      ensures accepted == ValidControllerState(c)
      ensures Now() == if accepted then SaveController(old(Now()), c) else old(Now())
    {
      accepted := ValidControllerState(c);
      if !accepted {
        return;
      }
      var revision := Get(c, "revision").n;
      if attempted.None? || attempted.value <= revision {
        attempted := Some(revision);
      }
      controller := Some(c);
      WriteAll();
    }

    method AsyncSaveSession(sessionFields: map<string, Json>, rearmRequired: bool)
      requires Holds(controller)
      modifies `fields, `rearm, `inflight
      ensures Now() == SaveSession(old(Now()), sessionFields, rearmRequired)
    {
      fields, rearm := sessionFields, rearmRequired;
      WriteAll();
    }

    /** A file write comes to its end, and its save runs on. */
    method WriteEnds(i: nat, ending: Ending)
      requires i < |inflight|
      modifies `disk, `written, `inflight
      ensures Now() == Ended(old(Now()), i, ending)
    {
      var v := inflight[i];
      if !ending.Lost? {
        disk := Write(disk, v.file, v.payload);
      }
      if !ending.Saved? {
        inflight := inflight[..i] + inflight[i + 1..];
        return;
      }
      written := written[v.file := v.payload];
      if v.file.StateFile? {
        inflight := inflight[..i] + inflight[i + 1..];
        return;
      }
      var next := Proceed(v.session, v.setpoints, if v.file.SessionFile? then SetpointsFile else StateFile);
      inflight := inflight[..i] + Queue(next) + inflight[i + 1..];
    }
  }
}
