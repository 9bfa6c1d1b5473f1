/**
  What survives a restart: three files, written one after the other, and what a load
  makes of whatever it finds in them.

  A file is any JSON value; `Null` is a file that is not there.  A write of one file is
  all or nothing, but a save can stop anywhere between two of them.
 */
module Storage {
  import opened Prelude
  import opened Intents

  /** `Float(None)` is a number that is not finite. */
  datatype Json =
    | Null
    | Bool(b: bool)
    | Int(n: int)
    | Float(r: Option<real>)
    | Str(s: string)
    | Arr(items: seq<Json>)
    | Obj(fields: map<string, Json>)

  const POWER_MAX: int := 220
  const CURRENT_MIN: int := 60
  const CURRENT_MAX: int := 320
  const LEGACY_ACTIVE: set<int> := {2, 3, 4}
  const POWER_KEY: string := "12290"       // 0x3002
  const CURRENT_KEY: string := "12289"     // 0x3001

  /** `value.get(key)`: missing, or not an object at all, reads as `Null`. */
  function Get(j: Json, key: string): Json {
    if j.Obj? && key in j.fields then j.fields[key] else Null
  }

  /** `value.get(key, False)`. */
  function GetFlag(j: Json, key: string): Json {
    if j.Obj? && key in j.fields then j.fields[key] else Bool(false)
  }

  predicate PowerOk(j: Json) {
    j.Int? && 0 <= j.n <= POWER_MAX
  }

  predicate CurrentOk(j: Json) {
    j.Int? && CURRENT_MIN <= j.n <= CURRENT_MAX
  }

  /** Equal to 1 as far as the language is concerned. */
  predicate IsOne(j: Json) {
    j == Int(1) || j == Bool(true) || j == Float(Some(1.0))
  }

  // ---- the controller's record ------------------------------------------------------

  predicate ValidControllerState(s: Json) {
    && s.Obj? && IsOne(Get(s, "schema"))
    && Get(s, "enabled").Bool? && Get(s, "safety_latched").Bool? && Get(s, "stop_fallback").Bool?
    && Get(s, "revision").Int? && Get(s, "revision").n >= 0
    && (Get(s, "power_raw").Null? || PowerOk(Get(s, "power_raw")))
    && (Get(s, "current_raw").Null? || CurrentOk(Get(s, "current_raw")))
  }

  /** The record must not charge. */
  predicate Paused(s: Json)
    requires ValidControllerState(s)
  {
    !Get(s, "enabled").b || Get(s, "safety_latched").b || Get(s, "stop_fallback").b
  }

  function Number(v: Option<int>): Json {
    if v.None? then Null else Int(v.value)
  }

  function Record(enabled: bool, power: Option<int>, current: Option<int>, revision: int,
      latched: bool, stop: bool): Json
  {
    Obj(map["schema" := Int(1), "enabled" := Bool(enabled), "power_raw" := Number(power),
            "current_raw" := Number(current), "revision" := Int(revision),
            "safety_latched" := Bool(latched), "stop_fallback" := Bool(stop)])
  }

  /** Paused, keeping whichever limits are still trustworthy. */
  function ProtectiveState(power: Option<int>, current: Option<int>, revision: int): Json {
    Record(false, power, current, revision, false, false)
  }

  predicate LimitsOk(power: Option<int>, current: Option<int>) {
    (power.Some? ==> 0 <= power.value <= POWER_MAX) && (current.Some? ==> CURRENT_MIN <= current.value <= CURRENT_MAX)
  }

  lemma RecordIsValid(enabled: bool, power: Option<int>, current: Option<int>, revision: int, latched: bool, stop: bool)
    requires LimitsOk(power, current) && revision >= 0
    ensures var s := Record(enabled, power, current, revision, latched, stop);
            && ValidControllerState(s) && (Paused(s) <==> !enabled || latched || stop)
            && Get(s, "revision").n == revision
  {
  }

  // ---- what other files still tell --------------------------------------------------

  datatype Limits = Limits(power: Option<int>, current: Option<int>, malformed: bool)

  function LegacyLimits(setpoints: Json): (l: Limits)
    ensures LimitsOk(l.power, l.current)
  {
    var desired := Get(setpoints, "desired_setpoints");
    if setpoints.Null? then Limits(None, None, false)
    else if !setpoints.Obj? then Limits(None, None, true)
    else if desired.Null? then Limits(None, None, false)
    else if !desired.Obj? then Limits(None, None, true)
    else
      var power, current := Get(desired, POWER_KEY), Get(desired, CURRENT_KEY);
      Limits(if PowerOk(power) then Some(power.n) else None,
             if CurrentOk(current) then Some(current.n) else None,
             !(power.Null? || PowerOk(power)) || !(current.Null? || CurrentOk(current)))
  }

  function SalvageLimits(controller: Json, setpoints: Json): (l: (Option<int>, Option<int>))
    ensures LimitsOk(l.0, l.1)
  {
    var p, c, legacy := Get(controller, "power_raw"), Get(controller, "current_raw"), LegacyLimits(setpoints);
    (if PowerOk(p) then Some(p.n) else legacy.power, if CurrentOk(c) then Some(c.n) else legacy.current)
  }

  /** The session file is one an older version could have written. */
  predicate LegacySessionOk(session: Json) {
    session.Null? || (session.Obj? && GetFlag(session, "stop_inhibit").Bool? && GetFlag(session, "stop_pending").Bool?)
  }

  /** It says that a session was running and nothing asked for a stop. */
  predicate LegacyRunning(session: Json) {
    && session.Obj?
    && GetFlag(session, "stop_inhibit") == Bool(false) && GetFlag(session, "stop_pending") == Bool(false)
    && Get(session, "prev_status").Int? && Get(session, "prev_status").n in LEGACY_ACTIVE
  }

  function NextRevision(state: Json): (n: int)
    ensures n >= 0
  {
    var c := Get(state, "controller");
    if ValidControllerState(c) then Get(c, "revision").n + 1 else 0
  }

  function ImportLegacy(session: Json, setpoints: Json, readable: bool, state: Json): Json {
    var limits := LegacyLimits(setpoints);
    if !LegacySessionOk(session) || limits.malformed || !readable then
      ProtectiveState(limits.power, limits.current, NextRevision(state))
    else
      Record(LegacyRunning(session), limits.power, limits.current, NextRevision(state), false,
             session.Obj? && GetFlag(session, "stop_pending") == Bool(true))
  }

  // ---- loading ----------------------------------------------------------------------

  datatype Disk = Disk(session: Json, setpoints: Json, state: Json)

  datatype Readable = Readable(session: bool, setpoints: bool, state: bool)

  const ALL_READABLE: Readable := Readable(true, true, true)

  /** A file that cannot be read is taken like one that is not there. */
  function ReadOf(d: Disk, r: Readable): Disk {
    Disk(if r.session then d.session else Null, if r.setpoints then d.setpoints else Null,
         if r.state then d.state else Null)
  }

  function Fingerprint(session: Json, setpoints: Json): Json {
    Obj(map["session" := session, "setpoints" := setpoints])
  }

  /** The state file still describes the legacy files, or there are none. */
  predicate UsesState(seen: Disk) {
    && seen.state.Obj?
    && (Get(seen.state, "legacy_fingerprint") == Fingerprint(seen.session, seen.setpoints)
        || (seen.session.Null? && seen.setpoints.Null?))
  }

  function Protected(controller: Json, setpoints: Json, revision: int): Json {
    var l := SalvageLimits(controller, setpoints);
    ProtectiveState(l.0, l.1, revision)
  }

  function LoadRecord(seen: Disk, r: Readable): Option<Json> {
    var c := Get(seen.state, "controller");
    if UsesState(seen) then
      Some(if ValidControllerState(c) then c else Protected(c, seen.setpoints, 0))
    else if !r.state || !(seen.state.Null? || seen.state.Obj?) then
      Some(Protected(Null, seen.setpoints, 0))
    else if seen == Disk(Null, Null, Null) && r.session && r.setpoints then None
    else Some(ImportLegacy(seen.session, seen.setpoints, r.session && r.setpoints, seen.state))
  }

  /** A record older than what this process already tried to save is stale. */
  predicate StaleRecord(c: Json, attempted: Option<int>) {
    attempted.Some? && Get(c, "revision").Int? && Get(c, "revision").n < attempted.value
  }

  function Load(d: Disk, r: Readable, attempted: Option<int>): Option<Json> {
    var seen := ReadOf(d, r);
    var c := LoadRecord(seen, r);
    if c.Some? && StaleRecord(c.value, attempted) then
      Some(Protected(c.value, seen.setpoints, attempted.value + 1))
    else c
  }

  predicate IsNumber(j: Json) {
    j.Int? || (j.Float? && j.r.Some?)
  }

  function AsFloat(j: Json): Json {
    if j.Int? then Float(Some(j.n as real)) else j
  }

  /** The session's own fields, each only if it makes sense. */
  function LoadedFields(session: Json): map<string, Json> {
    var wall, total := Get(session, "session_start_wall"), Get(session, "session_start_total");
    var baseline := IsNumber(wall) && total.Int? && total.n >= 0;
    var last, prev := Get(session, "last_session"), Get(session, "prev_status");
    map["session_start_wall" := if baseline then AsFloat(wall) else Null,
        "session_start_total" := if baseline then total else Null,
        "last_session" := if last.Obj? then last else Null,
        "prev_status" := if prev.Int? then prev else Null]
  }

  function LoadedRearm(seen: Disk): bool {
    UsesState(seen) && Get(Get(seen.state, "session"), "rearm_required") == Bool(true)
  }

  // ---- what comes out, field by field -------------------------------------------------

  /** A limit comes out of the setpoints file exactly if it stands there, in range; the file
      is malformed exactly if something else stands where limits belong. */
  lemma LegacyLimitsExactly(setpoints: Json)
    ensures var (l, d) := (LegacyLimits(setpoints), Get(setpoints, "desired_setpoints"));
            && (forall p :: l.power == Some(p) <==> Get(d, "12290") == Int(p) && 0 <= p <= 220)
            && (forall c :: l.current == Some(c) <==> Get(d, "12289") == Int(c) && 60 <= c <= 320)
            && (l.malformed <==>
                  || !(setpoints.Null? || setpoints.Obj?) || !(d.Null? || d.Obj?)
                  || (!Get(d, "12290").Null? && l.power.None?) || (!Get(d, "12289").Null? && l.current.None?))
  {
  }

  /** What can be trusted of a record's own limits is kept, what cannot is taken from the
      setpoints file. */
  lemma SalvageLimitsExactly(controller: Json, setpoints: Json)
    ensures var (l, legacy) := (SalvageLimits(controller, setpoints), LegacyLimits(setpoints));
            var (p, c) := (Get(controller, "power_raw"), Get(controller, "current_raw"));
            && l.0 == (if p.Int? && 0 <= p.n <= 220 then Some(p.n) else legacy.power)
            && l.1 == (if c.Int? && 60 <= c.n <= 320 then Some(c.n) else legacy.current)
  {
  }

  /** The session file, as an older version wrote it, says that a session was running. */
  predicate SaysRunning(session: Json) {
    && session.Obj?
    && ("stop_inhibit" in session.fields ==> session.fields["stop_inhibit"] == Bool(false))
    && ("stop_pending" in session.fields ==> session.fields["stop_pending"] == Bool(false))
    && "prev_status" in session.fields
    && (session.fields["prev_status"] == Int(2) || session.fields["prev_status"] == Int(3)
        || session.fields["prev_status"] == Int(4))
  }

  /** A flag that is not a boolean. */
  predicate BadFlag(session: Json, key: string) {
    session.Obj? && key in session.fields && !session.fields[key].Bool?
  }

  predicate SoundSession(session: Json) {
    session.Null? || (session.Obj? && !BadFlag(session, "stop_inhibit") && !BadFlag(session, "stop_pending"))
  }

  /** What a load from these files yields, record by record: the stored one if it still
      describes the legacy files, or a pause with what limits can be trusted, or what sound
      legacy files say, one revision on. */
  lemma LoadExactly(d: Disk, r: Readable)
    ensures var (seen, c) := (ReadOf(d, r), Load(d, r, None));
            var (prior, l) := (Get(seen.state, "controller"), LegacyLimits(seen.setpoints));
            var revision := if ValidControllerState(prior) then Get(prior, "revision").n + 1 else 0;
            c == if UsesState(seen) && ValidControllerState(prior) then Some(prior)
                 else if UsesState(seen) then
                   Some(Record(false, SalvageLimits(prior, seen.setpoints).0, SalvageLimits(prior, seen.setpoints).1,
                               0, false, false))
                 else if !r.state || !(seen.state.Null? || seen.state.Obj?) then
                   Some(Record(false, l.power, l.current, 0, false, false))
                 else if d == Disk(Null, Null, Null) && r == Readable(true, true, true) then None
                 else if !r.session || !r.setpoints || l.malformed || !SoundSession(seen.session) then
                   Some(Record(false, l.power, l.current, revision, false, false))
                 else
                   Some(Record(SaysRunning(seen.session), l.power, l.current, revision, false,
                               Get(seen.session, "stop_pending") == Bool(true)))
  {
    NothingSaved(d, r);
    SessionSays(ReadOf(d, r).session);
  }

  /** A load that finds a record older than what this process already tried to save pauses,
      with its limits, and goes on one revision above that; any other record is kept. */
  lemma LoadAfterAttempt(d: Disk, r: Readable, attempted: int)
    ensures var (seen, c) := (ReadOf(d, r), Load(d, r, None));
            var stale := c.Some? && Get(c.value, "revision").Int? && Get(c.value, "revision").n < attempted;
            Load(d, r, Some(attempted))
            == if stale
               then Some(Record(false, SalvageLimits(c.value, seen.setpoints).0,
                                SalvageLimits(c.value, seen.setpoints).1, attempted + 1, false, false))
               else c
  {
    NothingSaved(d, r);
  }

  lemma SessionSays(session: Json)
    ensures SaysRunning(session) <==> LegacyRunning(session)
    ensures SoundSession(session) <==> LegacySessionOk(session)
    ensures session.Obj? && GetFlag(session, "stop_pending") == Bool(true)
        <==> Get(session, "stop_pending") == Bool(true)
  {
  }

  // ---- every load, whatever is in the files -----------------------------------------

  lemma LoadRecordIsValid(seen: Disk, r: Readable)
    ensures var c := LoadRecord(seen, r); c.Some? ==> ValidControllerState(c.value)
  {
    var l := LegacyLimits(seen.setpoints);
    RecordIsValid(false, l.power, l.current, NextRevision(seen.state), false, false);
    RecordIsValid(LegacyRunning(seen.session), l.power, l.current, NextRevision(seen.state), false,
                  seen.session.Obj? && GetFlag(seen.session, "stop_pending") == Bool(true));
    ProtectedIsPaused(Get(seen.state, "controller"), seen.setpoints, 0);
    ProtectedIsPaused(Null, seen.setpoints, 0);
  }

  lemma ProtectedIsPaused(controller: Json, setpoints: Json, revision: int)
    requires revision >= 0
    ensures var s := Protected(controller, setpoints, revision);
            ValidControllerState(s) && Paused(s) && Get(s, "revision").n == revision
  {
    var l := SalvageLimits(controller, setpoints);
    RecordIsValid(false, l.0, l.1, revision, false, false);
  }

  /** Whatever the files hold and however many cannot be read: a load yields a valid record
      no older than anything this process tried to save, or (only with nothing saved at
      all) none. */
  lemma LoadIsValid(d: Disk, r: Readable, attempted: Option<int>)
    requires attempted.Some? ==> attempted.value >= 0
    ensures var c := Load(d, r, attempted);
            && (c.Some? ==> ValidControllerState(c.value)
                            && (attempted.Some? ==> Get(c.value, "revision").n >= attempted.value))
            && (c.None? <==> d == Disk(Null, Null, Null) && r == ALL_READABLE)
  {
    NothingSaved(d, r);
    StaleIsReplaced(ReadOf(d, r), r, attempted);
  }

  lemma NothingSaved(d: Disk, r: Readable)
    ensures LoadRecord(ReadOf(d, r), r).None? <==> d == Disk(Null, Null, Null) && r == ALL_READABLE
  {
  }

  lemma StaleIsReplaced(seen: Disk, r: Readable, attempted: Option<int>)
    requires attempted.Some? ==> attempted.value >= 0
    ensures var c := LoadRecord(seen, r);
            c.Some? ==>
              var l := if StaleRecord(c.value, attempted)
                       then Protected(c.value, seen.setpoints, attempted.value + 1) else c.value;
              ValidControllerState(l) && (attempted.Some? ==> Get(l, "revision").n >= attempted.value)
  {
    LoadRecordIsValid(seen, r);
    if attempted.Some? && LoadRecord(seen, r).Some? {
      ProtectedIsPaused(LoadRecord(seen, r).value, seen.setpoints, attempted.value + 1);
    }
  }

  /** The state file is used and holds an active record. */
  predicate StateIsActive(seen: Disk) {
    && UsesState(seen) && ValidControllerState(Get(seen.state, "controller"))
    && !Paused(Get(seen.state, "controller"))
  }

  /** The legacy files are imported, both of them readable and sound, and say that a
      session was running. */
  predicate LegacyIsActive(seen: Disk, r: Readable) {
    && !UsesState(seen) && r == ALL_READABLE && (seen.state.Null? || seen.state.Obj?)
    && LegacyRunning(seen.session) && !LegacyLimits(seen.setpoints).malformed
  }

  /** Charging is restored exactly from a fresh active record that the legacy files agree
      with (or that stands alone), or from sound legacy files that saw a session running;
      anything malformed, unreadable or stale restores a pause. */
  lemma ActiveNeedsEvidence(d: Disk, r: Readable, attempted: Option<int>)
    requires attempted.Some? ==> attempted.value >= 0
    ensures var seen, c := ReadOf(d, r), Load(d, r, attempted);
            c.Some? && ValidControllerState(c.value) && !Paused(c.value)
            <==> (StateIsActive(seen) || LegacyIsActive(seen, r)) && !StaleRecord(LoadRecord(seen, r).value, attempted)
  {
    var seen := ReadOf(d, r);
    RecordIsActive(seen, r);
    LoadRecordIsValid(seen, r);
    if attempted.Some? && LoadRecord(seen, r).Some? {
      ProtectedIsPaused(LoadRecord(seen, r).value, seen.setpoints, attempted.value + 1);
    }
  }

  lemma RecordIsActive(seen: Disk, r: Readable)
    requires !r.state ==> seen.state.Null?
    requires !r.session ==> seen.session.Null?
    ensures var c := LoadRecord(seen, r);
            c.Some? && ValidControllerState(c.value) && !Paused(c.value)
            <==> StateIsActive(seen) || LegacyIsActive(seen, r)
    ensures StateIsActive(seen) || LegacyIsActive(seen, r) ==> LoadRecord(seen, r).Some?
  {
    var l := LegacyLimits(seen.setpoints);
    RecordIsValid(false, l.power, l.current, NextRevision(seen.state), false, false);
    RecordIsValid(LegacyRunning(seen.session), l.power, l.current, NextRevision(seen.state), false,
                  seen.session.Obj? && GetFlag(seen.session, "stop_pending") == Bool(true));
    ProtectedIsPaused(Get(seen.state, "controller"), seen.setpoints, 0);
    ProtectedIsPaused(Null, seen.setpoints, 0);
  }

  // ---- the controller's own view of a record ------------------------------------------

  function Export(i: Intent): Json {
    Obj(map["schema" := Int(1), "enabled" := Bool(i.enabled),
            "power_raw" := if i.power.Some? then Int(i.power.value) else Null,
            "current_raw" := if i.current.Some? then Int(i.current.value) else Null,
            "revision" := Int(i.revision), "safety_latched" := Bool(i.latched),
            "stop_fallback" := Bool(i.stop), "comms_latch" := Bool(i.comms)])
  }

  function NatOf(j: Json): Option<nat> {
    if j.Int? && j.n >= 0 then Some(j.n) else None
  }

  /** The controller validates what it is handed once more, with its own power bound. */
  function Parse(s: Json): Option<Intent> {
    var power, current := Get(s, "power_raw"), Get(s, "current_raw");
    if s.Obj? && IsOne(Get(s, "schema"))
       && Get(s, "enabled").Bool? && Get(s, "safety_latched").Bool? && Get(s, "stop_fallback").Bool?
       && (power.Null? || (power.Int? && 0 <= power.n <= 1000))
       && (current.Null? || CurrentOk(current))
       && Get(s, "revision").Int? && Get(s, "revision").n >= 0
    then Some(Intent(Get(s, "enabled").b, NatOf(power), NatOf(current), Get(s, "revision").n,
                     Get(s, "safety_latched").b, Get(s, "stop_fallback").b,
                     Get(s, "safety_latched").b && Get(s, "comms_latch") == Bool(true)))
    else None
  }

  /** Every record a load can yield is accepted by the controller, with the same flags. */
  lemma ValidRecordsParse(s: Json)
    requires ValidControllerState(s)
    ensures Parse(s).Some? && Parse(s).value.WellFormed()
    ensures Paused(s) <==> !Parse(s).value.enabled || Parse(s).value.latched || Parse(s).value.stop
  {
  }

  /** An exported intent parses back to itself; the store takes it exactly if its power
      limit is within the store's narrower bound. */
  lemma ExportRoundTrip(i: Intent)
    requires i.WellFormed()
    ensures Parse(Export(i)) == Some(i)
    ensures ValidControllerState(Export(i)) <==> (i.power.Some? ==> i.power.value <= POWER_MAX)
  {
  }
}
