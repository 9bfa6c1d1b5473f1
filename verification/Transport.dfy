/**
  The async register transport: one operation on the wire at a time, whatever happens to
  its callers.

  Every method is one uninterrupted stretch of the event loop between two awaits.  `log`
  is the ghost record of what happened on the wire and to the lock.
 */
module Transport {
  import opened Prelude

  datatype Kind = Reading | Writing | Disconnecting {
    /** Only closing the socket may still be done once closing was requested. */
    predicate ClosingOk() {
      Disconnecting?
    }
  }

  /** One call of the serialized path. */
  datatype Call = Call(id: nat, kind: Kind)

  datatype Event =
    | Requested                      // close was requested
    | Started(call: Call)            // a worker thread began
    | Finished(call: Call)           // the thread is done
    | Released(call: Call)           // its lock was given back

  // ---- what a log says ----------------------------------------------------------------

  datatype Phase = Free | Busy(call: Call) | Done(call: Call)

  function PhaseAfter(p: Phase, e: Event): Phase {
    match e
    case Requested => p
    case Started(c) => Busy(c)
    case Finished(c) => Done(c)
    case Released(_) => Free
  }

  function PhaseAt(log: seq<Event>, n: nat): Phase
    requires n <= |log|
  {
    if n == 0 then Free else PhaseAfter(PhaseAt(log, n - 1), log[n - 1])
  }

  predicate ClosingAt(log: seq<Event>, n: nat)
    requires n <= |log|
  {
    n > 0 && (log[n - 1].Requested? || ClosingAt(log, n - 1))
  }

  predicate Permitted(p: Phase, closing: bool, e: Event) {
    match e
    case Requested => true
    case Started(c) => p.Free? && (closing ==> c.kind.ClosingOk())
    case Finished(c) => p == Busy(c)
    case Released(c) => p == Done(c)
  }

  ghost predicate PermittedAt(log: seq<Event>, n: nat)
    requires n < |log|
  {
    Permitted(PhaseAt(log, n), ClosingAt(log, n), log[n])
  }

  ghost predicate Accepted(log: seq<Event>) {
    forall n: nat :: n < |log| ==> PermittedAt(log, n)
  }

  lemma {:induction false} PrefixStays(log: seq<Event>, e: Event, n: nat)
    requires n <= |log|
    ensures PhaseAt(log + [e], n) == PhaseAt(log, n) && ClosingAt(log + [e], n) == ClosingAt(log, n)
  {
    if n > 0 { PrefixStays(log, e, n - 1); }
  }

  lemma AcceptedGrows(log: seq<Event>, e: Event)
    requires Accepted(log) && Permitted(PhaseAt(log, |log|), ClosingAt(log, |log|), e)
    ensures Accepted(log + [e])
    ensures PhaseAt(log + [e], |log| + 1) == PhaseAfter(PhaseAt(log, |log|), e)
    ensures ClosingAt(log + [e], |log| + 1) == (e.Requested? || ClosingAt(log, |log|))
  {
    var g := log + [e];
    forall n: nat | n < |g| ensures PermittedAt(g, n) {
      PrefixStays(log, e, n);
      if n < |log| { assert PermittedAt(log, n); }
    }
    PrefixStays(log, e, |log|);
  }

  // ---- the transport ------------------------------------------------------------------

  class ModbusRegisterIO {
    var closing: bool
    var closed: bool
    var locked: bool
    var waiting: set<Call>               // calls queued on the lock
    var worker: Option<Call>             // the call whose thread has the lock
    var running: bool                    // that thread has not finished yet
    var awaiting: set<Call>              // calls whose task still waits for its worker
    var returned: set<Call>              // ... and those that got its result

    ghost var log: seq<Event>

    ghost predicate Valid()
      reads this
    {
      && Accepted(log)
      && closing == ClosingAt(log, |log|)
      && locked == worker.Some?
      && PhaseAt(log, |log|) == (if worker.None? then Free
                                 else if running then Busy(worker.value) else Done(worker.value))
      && (closed ==> closing)
      && (forall c :: c in returned ==> Finished(c) in log)
    }

    constructor ()
      ensures Valid() && log == [] && !closing && !closed
    {
      closing, closed, locked, waiting, worker, running := false, false, false, {}, None, false;
      awaiting, returned, log := {}, {}, [];
    }

    ghost method Note(e: Event)
      requires Accepted(log) && Permitted(PhaseAt(log, |log|), ClosingAt(log, |log|), e)
      modifies `log
      ensures log == old(log) + [e] && Accepted(log)
      ensures PhaseAt(log, |log|) == PhaseAfter(old(PhaseAt(log, |log|)), e)
      ensures ClosingAt(log, |log|) == (e.Requested? || old(ClosingAt(log, |log|)))
    {
      AcceptedGrows(log, e);
      log := log + [e];
    }

    /** A task calls the serialized path: refused once closing, queued on the lock
        otherwise. */
    method Enter(c: Call) returns (refused: bool)
      requires Valid()
      modifies `waiting
      ensures Valid()
      ensures refused == (closing && !c.kind.ClosingOk())
      ensures waiting == if refused then old(waiting) else old(waiting) + {c}
    {
      refused := closing && !c.kind.ClosingOk();
      if !refused {
        waiting := waiting + {c};
      }
    }

    /** The lock goes to a queued call: it looks again whether closing was requested, and
        starts its worker; if that fails (it does not launch) the lock goes back. */
    method Acquire(c: Call, launches: bool) returns (started: bool)
      requires Valid() && !locked && c in waiting
      modifies `locked, `waiting, `worker, `running, `awaiting, `log
      ensures Valid() && waiting == old(waiting) - {c}
      ensures started == (launches && (closing ==> c.kind.Disconnecting?))
      ensures started ==> locked && worker == Some(c) && running
                          && log == old(log) + [Started(c)] && awaiting == old(awaiting) + {c}
      ensures !started ==> !locked && log == old(log) && awaiting == old(awaiting)
    {
      waiting := waiting - {c};
      locked := true;
      if closing && !c.kind.ClosingOk() {
        locked := false;
        return false;
      }
      started := launches;
      if !started {
        locked := false;
        return;
      }
      worker, running := Some(c), true;
      awaiting := awaiting + {c};
      Note(Started(c));
    }

    /** A task is cancelled: a queued call leaves the queue, a running worker goes on
        without its caller, lock and all. */
    method Cancel(c: Call)
      requires Valid()
      modifies `waiting, `awaiting
      ensures Valid() && waiting == old(waiting) - {c} && awaiting == old(awaiting) - {c}
    {
      waiting := waiting - {c};
      awaiting := awaiting - {c};
    }

    /** The worker thread is done; its callback has not run yet. */
    method ThreadEnds()
      requires Valid() && worker.Some? && running
      modifies `running, `log
      ensures Valid() && locked && !running && log == old(log) + [Finished(worker.value)]
    {
      running := false;
      Note(Finished(worker.value));
    }

    /** The completion callback gives the lock back, whatever became of the caller. */
    method Completed()
      requires Valid() && worker.Some? && !running
      modifies `locked, `worker, `awaiting, `returned, `log
      ensures Valid() && !locked && log == old(log) + [Released(old(worker).value)]
      ensures returned == old(returned) + if old(worker).value in old(awaiting) then {old(worker).value} else {}
      ensures awaiting == old(awaiting) - {old(worker).value}
    {
      var c := worker.value;
      FinishedIsLogged();
      Note(Released(c));
      locked, worker := false, None;
      if c in awaiting {
        awaiting, returned := awaiting - {c}, returned + {c};
      }
    }

    lemma FinishedIsLogged()
      requires Valid() && worker.Some? && !running
      ensures Finished(worker.value) in log
    {
      var n := DoneSince(log, |log|, worker.value);
    }

    /** Close is requested: no new work from here on; unless already closed, the socket is
        closed behind whatever is in flight. */
    method RequestClose(c: Call) returns (already: bool)
      requires Valid() && c.kind.Disconnecting?
      modifies `closing, `waiting, `log
      ensures Valid() && closing && already == closed
      ensures log == old(log) + [Requested]
      ensures waiting == if already then old(waiting) else old(waiting) + {c}
    {
      closing := true;
      Note(Requested);
      already := closed;
      if !already {
        var refused := Enter(c);
      }
    }

    /** The close call got its disconnect done. */
    method CloseReturns(c: Call)
      requires Valid() && closing && c.kind.Disconnecting? && c in returned
      modifies `closed
      ensures Valid() && closed && Finished(c) in log
    {
      closed := true;
    }

    /** Any mix of callers, cancellations and close. */
    method Drive(steps: nat)
      requires Valid()
      modifies this
      ensures Valid()
    {
      for n := 0 to steps
        invariant Valid()
      {
        var c: Call, choice: int, launches: bool := *, *, *;
        if choice == 0 {
          var _ := Enter(c);
        } else if choice == 1 && !locked && c in waiting {
          var _ := Acquire(c, launches);
        } else if choice == 2 {
          Cancel(c);
        } else if choice == 3 && worker.Some? && running {
          ThreadEnds();
        } else if choice == 4 && worker.Some? && !running {
          Completed();
        } else if choice == 5 && c.kind.Disconnecting? {
          var _ := RequestClose(c);
        } else if choice == 6 && closing && c.kind.Disconnecting? && c in returned {
          CloseReturns(c);
        }
      }
    }
  }

  // ---- what that means ------------------------------------------------------------------

  /** A finished worker whose lock is still held finished at some entry. */
  lemma {:induction false} DoneSince(log: seq<Event>, n: nat, c: Call) returns (m: nat)
    requires n <= |log| && Accepted(log) && PhaseAt(log, n) == Done(c)
    ensures m < n && log[m] == Finished(c) && forall x :: m < x < n ==> log[x].Requested?
  {
    assert PermittedAt(log, n - 1);
    if log[n - 1].Requested? {
      m := DoneSince(log, n - 1, c);
    } else {
      m := n - 1;
    }
  }

  lemma {:induction false} BusySince(log: seq<Event>, n: nat, c: Call) returns (m: nat)
    requires n <= |log| && Accepted(log) && PhaseAt(log, n) == Busy(c)
    ensures m < n && log[m] == Started(c) && forall x :: m < x < n ==> log[x].Requested?
  {
    assert PermittedAt(log, n - 1);
    if log[n - 1].Requested? {
      m := BusySince(log, n - 1, c);
    } else {
      m := n - 1;
    }
  }

  /** A worker's lock is given back after its thread finished, which was after it started,
      and nothing else was on the wire or touched the lock from start to release. */
  lemma ReleaseFollowsFinish(log: seq<Event>, n: nat) returns (s: nat, f: nat)
    requires Accepted(log) && n < |log| && log[n].Released?
    ensures s < f < n && log[s] == Started(log[n].call) && log[f] == Finished(log[n].call)
    ensures forall x :: s < x < n && x != f ==> log[x].Requested?
    ensures forall x :: s < x < n ==> !log[x].Started?
  {
    assert PermittedAt(log, n);
    f := DoneSince(log, n, log[n].call);
    assert PermittedAt(log, f);
    s := BusySince(log, f, log[n].call);
  }

  /** From its start on a worker's thread runs, until it finishes, until its lock is given
      back: how far that is at entry n, and at which entries it happened. */
  ghost predicate Progress(log: seq<Event>, i: nat, n: nat, far: Phase, f: nat, r: nat)
    requires i < n <= |log| && log[i].Started?
  {
    match far
    case Busy(c) => c == log[i].call && PhaseAt(log, n) == far
    case Done(c) => c == log[i].call && PhaseAt(log, n) == far && i < f < n && log[f] == Finished(c)
    case Free => i < f < r < n && log[f] == Finished(log[i].call) && log[r] == Released(log[i].call)
  }

  lemma {:induction false} Progresses(log: seq<Event>, i: nat, n: nat) returns (far: Phase, f: nat, r: nat)
    requires Accepted(log) && i < n <= |log| && log[i].Started?
    ensures Progress(log, i, n, far, f, r)
    decreases n
  {
    if i == n - 1 {
      far, f, r := Busy(log[i].call), 0, 0;
    } else {
      far, f, r := Progresses(log, i, n - 1);
      assert PermittedAt(log, n - 1);
      if far.Busy? && log[n - 1].Finished? {
        far, f := Done(log[i].call), n - 1;
      } else if far.Done? && log[n - 1].Released? {
        far, r := Free, n - 1;
      }
    }
  }

  /** At most one worker is on the wire: a second one (a disconnect included) starts only
      after the first one's thread finished and its own lock was released, in between. */
  lemma OneAtATime(log: seq<Event>, i: nat, n: nat) returns (f: nat, r: nat)
    requires Accepted(log) && i < n < |log| && log[i].Started? && log[n].Started?
    ensures i < f < r < n && log[f] == Finished(log[i].call) && log[r] == Released(log[i].call)
  {
    assert PermittedAt(log, n);
    var far;
    far, f, r := Progresses(log, i, n);
  }

  function Count(log: seq<Event>, n: nat, kind: Event -> bool): nat
    requires n <= |log|
  {
    if n == 0 then 0 else Count(log, n - 1, kind) + if kind(log[n - 1]) then 1 else 0
  }

  const IS_START: Event -> bool := (e: Event) => e.Started?
  const IS_RELEASE: Event -> bool := (e: Event) => e.Released?

  /** The lock is released exactly once per worker: as often as workers started, less the
      one that still has it. */
  lemma {:induction false} OneReleaseEach(log: seq<Event>, n: nat)
    requires Accepted(log) && n <= |log|
    ensures Count(log, n, IS_START) == Count(log, n, IS_RELEASE) + if PhaseAt(log, n).Free? then 0 else 1
  {
    if n > 0 {
      OneReleaseEach(log, n - 1);
      assert PermittedAt(log, n - 1);
    }
  }

  /** No read or write starts after close was requested. */
  lemma NothingStartsAfterClose(log: seq<Event>, i: nat, n: nat)
    requires Accepted(log) && i < n < |log| && log[i].Requested? && log[n].Started?
    ensures log[n].call.kind.Disconnecting?
  {
    ClosingPersists(log, i, n);
    assert PermittedAt(log, n);
  }

  lemma {:induction false} ClosingPersists(log: seq<Event>, i: nat, n: nat)
    requires i < n <= |log| && log[i].Requested?
    ensures ClosingAt(log, n)
    decreases n
  {
    if i < n - 1 { ClosingPersists(log, i, n - 1); }
  }
}
