/**
  One fresh look at the charger.

  A command or a refresh reads the registers 0x1000..0x101B as one block; a poll
  decodes the 30-register status block and masks unknown enum values.  Both end
  up as an `Evidence`, and nothing the controller decides depends on anything else.
 */
module Evidence {
  import opened Prelude

  // Register addresses (const.py) used by the two decoders.
  const REG_STATUS_BLOCK_START: nat := 0x1000
  const REG_STATUS: nat := 0x1003
  const REG_CC_STATUS: nat := 0x1005
  const REG_ACTIVE_POWER: nat := 0x100E
  const REG_FAULT_CODE: nat := 0x101A
  const STATUS_READ_COUNT: nat := 28
  const REG_STATUS_BLOCK_COUNT: nat := 30

  const UNKNOWN_FAULT_CODE: nat := 0xFFFF_FFFF
  const MAX_POWER_RAW: nat := 1000
  const LOW_POWER_RAW: nat := 1
  const FAULT_STATUS: nat := 6
  const OBSERVATION_GAP: real := 1.0

  const VALID_STATUS: set<nat> := {0, 1, 2, 3, 4, 5, 6, 8, 9}
  const PAUSED_STATUS: set<nat> := {0, 1, 4, 5}
  const STOPPED_STATUS: set<nat> := {0, 1, 5}
  const SESSION_STATUS: set<nat> := {2, 3, 4, 9}
  const DRAWING_STATUS: set<nat> := {2, 3}
  const REFUSING_STATUS: set<nat> := {6, 8}

  /** `None` is a value that was not read (or, in a poll, not a known enum value). */
  datatype Evidence = Evidence(
    status: Option<nat>,
    cable: Option<nat>,
    power: Option<nat>,
    fault: Option<nat>,
    at: real)
  {
    predicate Valid() {
      && status.Some? && status.value in VALID_STATUS
      && cable.Some? && cable.value in {0, 1}
      && power.Some? && power.value <= MAX_POWER_RAW
      && fault.Some? && fault.value != UNKNOWN_FAULT_CODE
    }

    predicate Drawing() {
      Valid() && (status.value in DRAWING_STATUS || power.value > LOW_POWER_RAW)
    }

    /** About to charge, or stuck before it. */
    predicate Starting() {
      Valid() && status.value == 2 && power.value <= LOW_POWER_RAW
    }

    /** Readable, fault-free and not drawing. */
    predicate Clean() {
      Valid() && !Drawing() && status.value != FAULT_STATUS && fault.value == 0
    }

    /** Fault evidence stands on its own: the rest of the frame may be unknown. */
    predicate Faulted() {
      || status == Some(FAULT_STATUS)
      || (fault.Some? && fault.value != 0 && fault.value != UNKNOWN_FAULT_CODE)
    }

    predicate SessionActive() {
      Valid() && cable.value == 1 && status.value in SESSION_STATUS
    }

    predicate CableOut() {
      Valid() && cable.value == 0
    }

    predicate Refusing() {
      Valid() && status.value in REFUSING_STATUS
    }

    /** Acceptable after a zero setpoint. */
    predicate PausedQuiet() {
      Valid() && status.value in PAUSED_STATUS && power.value <= LOW_POWER_RAW
    }

    /** Acceptable after 0x4001 Stop. */
    predicate StoppedQuiet() {
      Valid() && status.value in STOPPED_STATUS && power.value <= LOW_POWER_RAW
    }

    predicate Agrees(other: Evidence) {
      status == other.status && cable == other.cable
    }
  }

  function Unread(at: real): Evidence {
    Evidence(None, None, None, None, at)
  }

  /** Two 16-bit registers, high word first. */
  function Word32(high: nat, low: nat): nat {
    high * 0x1_0000 + low
  }

  /** The command/refresh path: one contiguous read of 0x1000..0x101B. */
  function FromStatusRead(regs: seq<nat>, at: real): Evidence
    requires |regs| >= STATUS_READ_COUNT
  {
    var faultOffset := REG_FAULT_CODE - REG_STATUS_BLOCK_START;
    Evidence(Some(regs[3]), Some(regs[5]), Some(regs[14]),
             Some(Word32(regs[faultOffset], regs[faultOffset + 1])), at)
  }

  /** A block that cannot be read, or comes back short, is a missing observation. */
  function Decoded(regs: Option<seq<nat>>, at: real): Evidence {
    if regs.Some? && |regs.value| >= STATUS_READ_COUNT then FromStatusRead(regs.value, at) else Unread(at)
  }

  /** The poll path: each field is looked up by its register address and unknown
      enum values are masked. */
  function FromSnapshot(regs: seq<nat>, at: real): Evidence
    requires |regs| == REG_STATUS_BLOCK_COUNT
  {
    var status := regs[REG_STATUS - REG_STATUS_BLOCK_START];
    var cable := regs[REG_CC_STATUS - REG_STATUS_BLOCK_START];
    var fault := REG_FAULT_CODE - REG_STATUS_BLOCK_START;
    Evidence(if status in VALID_STATUS then Some(status) else None,
             if cable in {0, 1} then Some(cable) else None,
             Some(regs[REG_ACTIVE_POWER - REG_STATUS_BLOCK_START]),
             Some(Word32(regs[fault], regs[fault + 1])), at)
  }

  function DecodedSnapshot(regs: Option<seq<nat>>, at: real): Evidence {
    if regs.Some? && |regs.value| == REG_STATUS_BLOCK_COUNT then FromSnapshot(regs.value, at) else Unread(at)
  }

  /** Whatever the registers hold, the two read paths judge the same hardware state
      the same way: masking an unknown value never turns it into evidence. */
  lemma ReadPathsAgree(regs: seq<nat>, at: real)
    requires |regs| == REG_STATUS_BLOCK_COUNT
    ensures var frame := FromStatusRead(regs[..STATUS_READ_COUNT], at);
            var poll := FromSnapshot(regs, at);
            && frame.Valid() == poll.Valid()
            && frame.Drawing() == poll.Drawing()
            && frame.Faulted() == poll.Faulted()
            && frame.SessionActive() == poll.SessionActive()
            && frame.CableOut() == poll.CableOut()
            && (frame.Valid() ==> frame == poll)
  {
    var frame := FromStatusRead(regs[..STATUS_READ_COUNT], at);
    var poll := FromSnapshot(regs, at);
    assert frame.status == Some(regs[3]) && frame.cable == Some(regs[5]);
    assert frame.power == poll.power && frame.fault == poll.fault;
  }
}
