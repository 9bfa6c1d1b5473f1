/**
  The Modbus TCP client: framing, late replies and the transaction ID.

  `incoming` is what the peer has sent or will send on the present connection and the
  client has not read yet.  How much of it one `recv` yields, and whether it yields
  anything at all before the deadline, is nondeterministic.
 */
module ModbusTcp {
  import opened Prelude

  type byte = x: int | 0 <= x < 0x100
  type word = x: int | 0 <= x < 0x1_0000

  const FC_READ_HOLDING: byte := 0x03
  const FC_WRITE_SINGLE: byte := 0x06
  const FC_WRITE_MULTIPLE: byte := 0x10
  const EXCEPTION_FLAG: byte := 0x80
  const MBAP_HEADER_LEN: nat := 7
  const MIN_MBAP_LENGTH: nat := 2
  const MAX_MBAP_LENGTH: nat := 254
  const MAX_READ_COUNT: nat := 125
  const LAST_TID: nat := 0xFFFE

  // ---- bytes and words --------------------------------------------------------------

  function Bytes(w: word): (b: seq<byte>)
    ensures |b| == 2 && Word(b[0], b[1]) == w
  {
    [w / 0x100, w % 0x100]
  }

  function Word(high: byte, low: byte): word {
    high * 0x100 + low
  }

  /** Registers as they go over the wire, high byte first. */
  function Encode(regs: seq<word>): (b: seq<byte>)
    ensures |b| == 2 * |regs|
  {
    if regs == [] then [] else Bytes(regs[0]) + Encode(regs[1..])
  }

  function Decode(b: seq<byte>): (regs: seq<word>)
    requires |b| % 2 == 0
    ensures 2 * |regs| == |b|
  {
    if b == [] then [] else [Word(b[0], b[1])] + Decode(b[2..])
  }

  lemma {:induction false} DecodeEncode(regs: seq<word>)
    ensures Decode(Encode(regs)) == regs
  {
    if regs != [] {
      DecodeEncode(regs[1..]);
      var b := Encode(regs);
      assert b[2..] == Encode(regs[1..]);
      assert b[0] == Bytes(regs[0])[0] && b[1] == Bytes(regs[0])[1];
    }
  }

  lemma {:induction false} EncodeDecode(b: seq<byte>)
    requires |b| % 2 == 0
    ensures Encode(Decode(b)) == b
  {
    if b != [] {
      EncodeDecode(b[2..]);
      var regs := Decode(b);
      assert regs[1..] == Decode(b[2..]);
      assert Bytes(regs[0]) == [b[0], b[1]];
      assert [b[0], b[1]] + b[2..] == b;
    }
  }

  // ---- frames -----------------------------------------------------------------------

  /** A complete frame: MBAP header (protocol 0, a sane length) and the body it announces. */
  predicate Whole(f: seq<byte>) {
    && |f| > MBAP_HEADER_LEN
    && Word(f[2], f[3]) == 0
    && MIN_MBAP_LENGTH <= Word(f[4], f[5]) <= MAX_MBAP_LENGTH
    && |f| == 6 + Word(f[4], f[5])
  }

  function TidOf(f: seq<byte>): word
    requires Whole(f)
  {
    Word(f[0], f[1])
  }

  /** Transaction ID, protocol 0, the count of what follows, unit ID. */
  function Header(tid: word, length: word, unit: byte): (h: seq<byte>)
    ensures |h| == MBAP_HEADER_LEN && Word(h[0], h[1]) == tid && Word(h[2], h[3]) == 0
    ensures Word(h[4], h[5]) == length && h[6] == unit
  {
    var t, l := Bytes(tid), Bytes(length);
    [t[0], t[1], 0, 0, l[0], l[1], unit]
  }

  function Frame(tid: word, unit: byte, pdu: seq<byte>): (f: seq<byte>)
    requires 1 <= |pdu| <= 253
    ensures Whole(f) && TidOf(f) == tid && f[6] == unit && f[7..] == pdu
  {
    var h := Header(tid, |pdu| + 1, unit);
    assert forall i :: 0 <= i < 7 ==> (h + pdu)[i] == h[i];
    h + pdu
  }

  /** The bytes of these frames, one after the other, from the n-th on. */
  function FlatFrom(fs: seq<seq<byte>>, n: nat): seq<byte>
    requires n <= |fs|
    decreases |fs| - n
  {
    if n == |fs| then [] else fs[n] + FlatFrom(fs, n + 1)
  }

  function Flat(fs: seq<seq<byte>>): seq<byte> {
    FlatFrom(fs, 0)
  }

  predicate AllWhole(fs: seq<seq<byte>>) {
    forall i :: 0 <= i < |fs| ==> Whole(fs[i])
  }

  lemma {:induction false} FromSnoc(fs: seq<seq<byte>>, f: seq<byte>, n: nat)
    requires n <= |fs|
    ensures FlatFrom(fs + [f], n) == FlatFrom(fs, n) + f
    decreases |fs| - n
  {
    if n < |fs| {
      FromSnoc(fs, f, n + 1);
      assert (fs + [f])[n] == fs[n];
    } else {
      assert FlatFrom(fs + [f], n) == f + FlatFrom(fs + [f], n + 1);
    }
  }

  lemma FlatSnoc(fs: seq<seq<byte>>, f: seq<byte>)
    ensures Flat(fs + [f]) == Flat(fs) + f
  {
    FromSnoc(fs, f, 0);
  }

  /** A frame says itself where it ends: two whole frames at the start of the same bytes
      are the same frame. */
  lemma SameFirstFrame(f: seq<byte>, g: seq<byte>, x: seq<byte>, y: seq<byte>)
    requires Whole(f) && Whole(g) && f + x == g + y
    ensures f == g && x == y
  {
    assert (f + x)[4] == f[4] && (g + y)[4] == g[4];
    assert (f + x)[5] == f[5] && (g + y)[5] == g[5];
    assert |f| == |g|;
    assert f == (f + x)[..|f|] && g == (g + y)[..|g|];
    assert x == (f + x)[|f|..] && y == (g + y)[|g|..];
  }

  /** So whole frames read off a stream of whole frames are exactly its first ones, and
      what is left is the rest of them. */
  lemma {:induction false} SameFrames(read: seq<seq<byte>>, left: seq<byte>, fs: seq<seq<byte>>,
      rest: seq<byte>, n: nat)
    requires AllWhole(read) && AllWhole(fs) && n <= |read| <= |fs|
    requires FlatFrom(read, n) + left == FlatFrom(fs, n) + rest
    ensures forall i :: n <= i < |read| ==> read[i] == fs[i]
    ensures left == FlatFrom(fs, |read|) + rest
    decreases |read| - n
  {
    if n == |read| {
      assert FlatFrom(read, n) + left == left;
    } else {
      var x, y := FlatFrom(read, n + 1) + left, FlatFrom(fs, n + 1) + rest;
      assert FlatFrom(read, n) + left == read[n] + x;
      assert FlatFrom(fs, n) + rest == fs[n] + y;
      SameFirstFrame(read[n], fs[n], x, y);
      SameFrames(read, left, fs, rest, n + 1);
    }
  }

  /** On a stream that begins with whole frames, the answer is the first frame with the
      sent ID; the ones dropped are the frames before it, and the rest is untouched. */
  lemma AnswerIsFirstMatch(fs: seq<seq<byte>>, rest: seq<byte>, late: seq<seq<byte>>, answer: seq<byte>,
                           left: seq<byte>, tid: word, unit: byte)
    requires AllWhole(fs) && AllStale(late, tid) && Answers(answer, tid, unit) && |late| < |fs|
    requires Flat(fs) + rest == Flat(late) + answer + left
    ensures late == fs[..|late|] && answer == fs[|late|] && left == FlatFrom(fs, |late| + 1) + rest
    ensures forall i :: 0 <= i < |late| ==> Passed(fs[i], tid)
  {
    var read := late + [answer];
    FlatSnoc(late, answer);
    assert AllWhole(read);
    SameFrames(read, left, fs, rest, 0);
    assert read[|late|] == answer;
    forall i | 0 <= i < |late| ensures fs[i] == late[i] && Passed(fs[i], tid) {
      assert read[i] == late[i];
      NotLateItself(TidOf(late[i]), tid);
    }
  }

  predicate Passed(f: seq<byte>, tid: word) {
    Whole(f) && TidOf(f) != tid && Stale(TidOf(f), tid)
  }

  lemma NotLateItself(got: word, sent: word)
    requires Stale(got, sent)
    ensures got != sent
  {
  }

  // ---- the transaction ID -----------------------------------------------------------

  function NextTid(tid: nat): (t: word) {
    if tid >= LAST_TID then 0 else tid + 1
  }

  /** A reply that trails the request just sent is late; one that leads it cannot be. */
  predicate Stale(got: word, sent: word) {
    0 < (sent - got) % 0x1_0000 < 0x8000
  }

  /** The ID of the k-th request after the one with this ID. */
  function TidAfter(tid: word, k: nat): word {
    if k == 0 then tid else NextTid(TidAfter(tid, k - 1))
  }

  lemma {:induction false} TidsCycle(tid: word, k: nat)
    requires tid <= LAST_TID
    ensures TidAfter(tid, k) == (tid + k) % 0xFFFF <= LAST_TID
  {
    if k > 0 { TidsCycle(tid, k - 1); }
  }

  lemma WrapsOnce(tid: word, k: nat)
    requires tid <= LAST_TID && k < 0xFFFF
    ensures TidAfter(tid, k) == if tid + k <= LAST_TID then tid + k else tid + k - 0xFFFF
  {
    TidsCycle(tid, k);
  }

  /** A reply to the request k back is taken for late exactly up to k = 32766, and at
      32767 if the counter did not wrap in between. */
  lemma LateReplies(tid: word, k: nat)
    requires tid <= LAST_TID && k < 0xFFFF
    ensures Stale(tid, TidAfter(tid, k)) <==> 1 <= k <= 32766 || (k == 32767 && tid + k <= LAST_TID)
  {
    WrapsOnce(tid, k);
  }

  /** A reply to the request k ahead, had there been one, is never taken for late up to
      k = 32767, and at 32768 only if the counter wraps in between. */
  lemma LeadingReplies(tid: word, k: nat)
    requires tid <= LAST_TID && k < 0xFFFF
    ensures Stale(TidAfter(tid, k), tid) <==> k > 32768 || (k == 32768 && tid + k > LAST_TID)
  {
    WrapsOnce(tid, k);
  }

  /** Nor is any ID that is 1 to 32767 ahead as a number, whether it is ever allocated or
      not. */
  lemma LeadingNumbers(sent: word, k: nat)
    requires k <= 0xFFFF
    ensures Stale((sent + k) % 0x1_0000, sent) <==> k > 32768
  {
  }

  // ---- the client -------------------------------------------------------------------

  datatype Chunk = Data(bytes: seq<byte>) | PeerClosed | TimedOut | Failed

  datatype Received = Got(data: seq<byte>) | Ended | NoReplyYet | Late | Broken

  datatype Result = Reply(frame: seq<byte>) | NoResponse(sent: bool)

  datatype ReadResult = Registers(regs: seq<word>) | ReadRefused(code: byte) | ReadFailed(sent: bool)

  datatype WriteResult = Acked | WriteRefused(code: byte) | WriteFailed(sent: bool)

  /** The bytes of the answer, if there is one. */
  function AnswerOf(r: Result): seq<byte> {
    if r.Reply? then r.frame else []
  }

  predicate Answers(f: seq<byte>, tid: word, unit: byte) {
    Whole(f) && TidOf(f) == tid && f[6] == unit
  }

  /** No frame can begin like this. */
  predicate Malformed(s: seq<byte>) {
    |s| >= 7 && (Word(s[2], s[3]) != 0 || !(2 <= Word(s[4], s[5]) <= 254))
  }

  /** What may not follow on the stream: no frame at all, or one that is neither the answer
      nor late. */
  ghost predicate Offends(s: seq<byte>, tid: word, unit: byte) {
    || Malformed(s)
    || exists f: seq<byte> :: Whole(f) && f <= s && !Answers(f, tid, unit)
                              && (TidOf(f) == tid || !Stale(TidOf(f), tid))
  }

  /** ... comes on the stream after these frames. */
  ghost predicate OffendsAfter(s: seq<byte>, fs: seq<seq<byte>>, tid: word, unit: byte) {
    exists rest: seq<byte> :: s == Flat(fs) + rest && Offends(rest, tid, unit)
  }

  lemma Leaves(fs: seq<seq<byte>>, rest: seq<byte>, tid: word, unit: byte)
    ensures Offends(rest, tid, unit) ==> OffendsAfter(Flat(fs) + rest, fs, tid, unit)
  {
  }

  lemma FrameOffends(f: seq<byte>, after: seq<byte>, tid: word, unit: byte)
    requires Whole(f) && !Answers(f, tid, unit) && (TidOf(f) == tid || !Stale(TidOf(f), tid))
    ensures Offends(f + after, tid, unit)
  {
    assert f <= f + after;
  }

  /** Whole frames, each for an older request than this one. */
  predicate AllStale(fs: seq<seq<byte>>, tid: word) {
    AllWhole(fs) && forall i :: 0 <= i < |fs| ==> Stale(TidOf(fs[i]), tid)
  }

  class Client {
    const unit: byte
    var tid: word
    var connected: bool
    var incoming: seq<byte>
    var staleReplies: nat

    /** The frames read off this connection, if nothing else was. */
    ghost var frames: seq<seq<byte>>
    /** Every byte read off this connection. */
    ghost var consumed: seq<byte>
    /** The requests handed to the socket so far; of the last one only a part may have gone
        out. */
    ghost var requests: seq<seq<byte>>

    /** How often `recv` has let us down, and how it did so last. */
    ghost var faults: nat
    ghost var fault: Chunk

    /** Between transactions the connection is closed or at a frame boundary. */
    ghost predicate Aligned()
      reads this
    {
      && tid <= LAST_TID
      && (connected ==> AllWhole(frames) && consumed == Flat(frames))
    }

    constructor (unit: byte)
      ensures Aligned() && !connected && this.unit == unit && tid == 0 && requests == []
    {
      this.unit := unit;
      tid, connected, incoming, staleReplies := 0, false, [], 0;
      frames, consumed, requests, faults, fault := [], [], [], 0, PeerClosed;
    }

    method Recv(n: nat) returns (c: Chunk)
      requires connected && n > 0
      modifies `incoming, `consumed, `faults, `fault
      ensures c.Data? ==> 0 < |c.bytes| <= n && old(incoming) == c.bytes + incoming
                            && consumed == old(consumed) + c.bytes && faults == old(faults)
      ensures !c.Data? ==> incoming == old(incoming) && consumed == old(consumed)
                           && faults == old(faults) + 1 && fault == c
    {
      c := *;
      if c.Data? && 0 < |c.bytes| <= n && c.bytes <= incoming {
        consumed := consumed + c.bytes;
        incoming := incoming[|c.bytes|..];
      } else {
        c := if c.Data? then Failed else c;
        faults, fault := faults + 1, c;
      }
    }

    /** Exactly n bytes, however many `recv` calls it takes. */
    method RecvExact(n: nat, noReplyOk: bool) returns (r: Received)
      requires connected
      modifies `incoming, `consumed, `faults, `fault
      ensures r.Got? ==> |r.data| == n && old(incoming) == r.data + incoming
                         && consumed == old(consumed) + r.data
      ensures r.NoReplyYet? ==> noReplyOk && incoming == old(incoming) && consumed == old(consumed)
      ensures old(faults) <= faults && (r.Got? <==> faults == old(faults))
      ensures r.NoReplyYet? <==>
                noReplyOk && faults > old(faults) && fault.TimedOut? && |consumed| == |old(consumed)|
      ensures old(consumed) <= consumed && |consumed| < |old(consumed)| + n + 1
    {
      var buf: seq<byte> := [];
      while |buf| < n
        invariant |buf| <= n && old(incoming) == buf + incoming && consumed == old(consumed) + buf
        invariant faults == old(faults)
        decreases n - |buf|
      {
        var chunk := Recv(n - |buf|);
        match chunk
        case TimedOut =>
          return if noReplyOk && buf == [] then NoReplyYet else Late;
        case Failed =>
          return Broken;
        case PeerClosed =>
          return Ended;
        case Data(bytes) =>
          buf := buf + bytes;
      }
      return Got(buf);
    }

    method Close()
      modifies `connected
      ensures !connected
    {
      connected := false;
    }

    method TakeTid() returns (t: word)
      requires tid <= LAST_TID
      modifies `tid
      ensures t == tid == NextTid(old(tid)) <= LAST_TID
    {
      tid := NextTid(tid);
      t := tid;
    }

    /** Open a connection if there is none; a new one starts with nothing read. */
    method Connect() returns (ok: bool)
      modifies `connected, `incoming, `frames, `consumed
      ensures ok == connected
      ensures old(connected) ==> ok && incoming == old(incoming) && frames == old(frames) && consumed == old(consumed)
      ensures !old(connected) && ok ==> frames == [] && consumed == []
    {
      if connected {
        return true;
      }
      ok := *;
      if ok {
        connected := true;
        incoming := *;
        frames, consumed := [], [];
      }
    }

    /** One frame, read whole.  Anything wrong with it or with the connection ends in a
        failure; only a deadline before its first byte leaves the stream as it was. */
    method ReadFrame() returns (r: Received)
      requires connected && Aligned()
      modifies `incoming, `consumed, `frames, `faults, `fault
      ensures r.Got? ==> Aligned() && Whole(r.data)
                         && old(incoming) == r.data + incoming && frames == old(frames) + [r.data]
      ensures r.NoReplyYet? ==> Aligned() && incoming == old(incoming) && frames == old(frames)
      ensures old(faults) <= faults && if r.Got? then faults == old(faults) else frames == old(frames)
      ensures r.NoReplyYet? <==> faults > old(faults) && fault.TimedOut? && |consumed| == |old(consumed)|
      ensures faults == old(faults) && !r.Got? ==> Malformed(old(incoming))
    {
      r := RecvExact(MBAP_HEADER_LEN, true);
      if !r.Got? {
        return;
      }
      var header := r.data;
      var length := Word(header[4], header[5]);
      if Word(header[2], header[3]) != 0 || !(MIN_MBAP_LENGTH <= length <= MAX_MBAP_LENGTH) {
        return Broken;
      }
      r := RecvExact(length - 1, false);
      if r.Got? {
        Joined(header, r.data);
        r := Got(header + r.data);
        FlatSnoc(frames, r.data);
        frames := frames + [r.data];
      }
    }

    lemma Joined(header: seq<byte>, body: seq<byte>)
      requires |header| == MBAP_HEADER_LEN && Word(header[2], header[3]) == 0
      requires MIN_MBAP_LENGTH <= Word(header[4], header[5]) <= MAX_MBAP_LENGTH
      requires |body| == Word(header[4], header[5]) - 1
      ensures Whole(header + body)
    {
      var f := header + body;
      assert f[2] == header[2] && f[3] == header[3] && f[4] == header[4] && f[5] == header[5];
    }

    /** Allocate the transaction ID, connect if need be, and send the request. */
    method SendRequest(pdu: seq<byte>) returns (sent: bool, ok: bool)
      requires Aligned() && 1 <= |pdu| <= 253
      modifies `tid, `connected, `incoming, `frames, `consumed, `requests
      ensures Aligned() && tid == NextTid(old(tid)) <= LAST_TID && ok == connected
      ensures !sent ==> !ok
      ensures requests == if sent then old(requests) + [Frame(tid, unit, pdu)] else old(requests)
      ensures old(connected) && ok ==> incoming == old(incoming) && frames == old(frames)
    {
      var t := TakeTid();
      var request := Frame(t, unit, pdu);
      ok := Connect();
      sent := false;
      if ok {
        sent, ok := *, *;                        // out of time before, or part-way through
        ok := ok && sent;
        if sent {
          requests := requests + [request];
        }
        if !ok {
          Close();
        }
      }
    }

    /** Wait for the frame that answers request `tid`, dropping the late ones. */
    method AwaitReply() returns (r: Result, ghost late: seq<seq<byte>>)
      requires Aligned() && connected
      modifies `connected, `incoming, `frames, `consumed, `staleReplies, `faults, `fault
      ensures Aligned()
      ensures AllStale(late, tid) && staleReplies == old(staleReplies) + |late|
      ensures connected ==> old(incoming) == Flat(late) + AnswerOf(r) + incoming
      ensures r.Reply? ==> connected && Answers(r.frame, tid, unit) && frames != [] && frames[|frames| - 1] == r.frame
      ensures r.NoResponse? ==> r.sent
      ensures r.NoResponse? && faults == old(faults) ==>
                !connected && OffendsAfter(old(incoming), late, tid, unit)
      ensures faults > old(faults) ==> r.NoResponse?
      ensures r.NoResponse? ==>
                (connected <==> faults > old(faults) && fault.TimedOut? && |consumed| == |Flat(frames)|)
    {
      late := [];
      assert Flat([]) + incoming == incoming;
      while true
        invariant connected && Aligned() && AllStale(late, tid)
        invariant staleReplies == old(staleReplies) + |late|
        invariant old(incoming) == Flat(late) + incoming && faults == old(faults)
        decreases |incoming|
      {
        ghost var before := incoming;
        var got := ReadFrame();
        if got.NoReplyYet? {
          assert Flat(late) + [] == Flat(late);
          return NoResponse(true), late;
        }
        if !got.Got? {
          Close();
          Leaves(late, before, tid, unit);
          return NoResponse(true), late;
        }
        ReadOn(late, got.data, before, incoming);
        if TidOf(got.data) == tid && got.data[6] == unit {
          return Reply(got.data), late;
        }
        if TidOf(got.data) == tid || !Stale(TidOf(got.data), tid) {
          Close();
          FrameOffends(got.data, incoming, tid, unit);
          Leaves(late, before, tid, unit);
          return NoResponse(true), late;
        }
        staleReplies := staleReplies + 1;
        late := late + [got.data];
      }
    }

    /** Send one PDU and wait for the frame that answers it.  A frame for an older request
        is dropped, whole; every failure but "no reply yet" closes the connection. */
    method Transact(pdu: seq<byte>)
      returns (r: Result, ghost stream: seq<byte>, ghost late: seq<seq<byte>>)
      requires Aligned() && 1 <= |pdu| <= 253
      modifies this
      ensures Aligned() && tid == NextTid(old(tid))
      ensures old(connected) && connected ==> stream == old(incoming)
      ensures AllStale(late, tid) && staleReplies == old(staleReplies) + |late|
      ensures connected ==> stream == Flat(late) + AnswerOf(r) + incoming
      ensures r.Reply? ==> connected && Answers(r.frame, tid, unit) && frames != [] && frames[|frames| - 1] == r.frame
      ensures r == NoResponse(false) ==> !connected && late == []
      ensures requests == if r == NoResponse(false) then old(requests) else old(requests) + [Frame(tid, unit, pdu)]
    {
      var sent, ok := SendRequest(pdu);
      stream, late := incoming, [];
      if !ok {
        return NoResponse(sent), stream, late;
      }
      r, late := AwaitReply();
    }

    lemma ReadOn(late: seq<seq<byte>>, f: seq<byte>, before: seq<byte>, after: seq<byte>)
      requires before == f + after
      ensures Flat(late) + before == Flat(late) + f + after
      ensures Flat(late) + before == Flat(late + [f]) + after
    {
      FlatSnoc(late, f);
    }

    /** An exception reply to our own function code, in exactly two bytes of PDU. */
    static function Exception(frame: seq<byte>, fc: byte): Option<byte>
      requires Whole(frame) && fc < EXCEPTION_FLAG
    {
      if |frame| == 9 && frame[7] == fc + EXCEPTION_FLAG then Some(frame[8]) else None
    }

    static function ReadPdu(address: word, count: nat): (pdu: seq<byte>)
      requires 1 <= count <= MAX_READ_COUNT
      ensures |pdu| == 5
    {
      [FC_READ_HOLDING] + Bytes(address) + Bytes(count)
    }

    /** One transaction, as its caller sees it. */
    method Exchange(pdu: seq<byte>) returns (r: Result)
      requires Aligned() && 1 <= |pdu| <= 253
      modifies this
      ensures Aligned() && tid == NextTid(old(tid))
      ensures r.Reply? ==> connected && Answers(r.frame, tid, unit) && frames != [] && frames[|frames| - 1] == r.frame
      ensures if r == NoResponse(false) then !connected && requests == old(requests)
              else OneMore(old(requests), requests) && requests[|requests| - 1] == Frame(tid, unit, pdu)
    {
      ghost var stream, late;
      r, stream, late := Transact(pdu);
    }

    /** FC03: always a fresh request; exactly the registers asked for, or an error. */
    method ReadRegisters(address: word, count: nat) returns (r: ReadResult, ghost answer: Result)
      requires Aligned() && 1 <= count <= MAX_READ_COUNT
      modifies this
      ensures Aligned() && tid == NextTid(old(tid))
      ensures if r == ReadFailed(false) then requests == old(requests)
              else OneMore(old(requests), requests)
                   && IsReadRequest(requests[|requests| - 1], tid, unit, address, count)
      ensures answer.NoResponse? ==> r == ReadFailed(answer.sent)
      ensures answer.Reply? ==> Answers(answer.frame, tid, unit) && frames != [] && frames[|frames| - 1] == answer.frame
      ensures answer.Reply? ==> (r.Registers? <==> Carries(answer.frame, count))
      ensures answer.Reply? ==> (r.ReadRefused? <==> Refuses(answer.frame, 3)) && connected == !r.ReadFailed?
      ensures r.Registers? ==> Delivers(answer.frame, tid, unit, r.regs) && CarriesAll(answer.frame, r.regs, count)
      ensures r.ReadRefused? ==> r.code == answer.frame[8]
    {
      var t := Exchange(ReadPdu(address, count));
      answer := t;
      ReadRequestLayout(tid, unit, address, count);
      if t.NoResponse? {
        return ReadFailed(t.sent), answer;
      }
      r := Take(t.frame, count);
    }

    /** The registers in a reply frame that matches the request. */
    method Take(frame: seq<byte>, count: nat) returns (r: ReadResult)
      requires Aligned() && connected && 1 <= count <= MAX_READ_COUNT
      requires Answers(frame, tid, unit) && frames != [] && frames[|frames| - 1] == frame
      modifies `connected
      ensures Aligned() && connected == !r.ReadFailed? && (r.ReadFailed? ==> r.sent)
      ensures r.Registers? <==> Carries(frame, count)
      ensures r.Registers? ==> Delivers(frame, tid, unit, r.regs) && CarriesAll(frame, r.regs, count)
      ensures r.ReadRefused? <==> Refuses(frame, 3)
      ensures r.ReadRefused? ==> r.code == frame[8]
    {
      var code := Exception(frame, FC_READ_HOLDING);
      if code.Some? {
        return ReadRefused(code.value);
      }
      if |frame| < 9 || frame[7] != FC_READ_HOLDING || |frame| - 9 != frame[8] || frame[8] != 2 * count {
        Close();
        return ReadFailed(true);
      }
      Redelivered(frame, tid, unit, count);
      RegistersInPlace(frame, count);
      return Registers(Decode(frame[9..]));
    }

    static predicate IsCommandRegister(address: word) {
      0x4000 <= address < 0x4004
    }

    static function WritePdu(address: word, value: word): (pdu: seq<byte>)
      ensures 1 <= |pdu| <= 253
    {
      if IsCommandRegister(address) then [FC_WRITE_SINGLE] + Bytes(address) + Bytes(value)
      else [FC_WRITE_MULTIPLE] + Bytes(address) + Bytes(1) + [2] + Bytes(value)
    }

    /** What an acknowledgement repeats: everything for FC06, all but the value for FC16. */
    static function Echo(address: word, value: word): seq<byte> {
      if IsCommandRegister(address) then WritePdu(address, value) else WritePdu(address, value)[..5]
    }

    /** One register: FC06 for the command registers, FC16 for all others. */
    method WriteRegister(address: word, value: word) returns (r: WriteResult, ghost answer: Result)
      requires Aligned()
      modifies this
      ensures Aligned() && tid == NextTid(old(tid))
      ensures if r == WriteFailed(false) then !connected && requests == old(requests)
              else OneMore(old(requests), requests)
                   && IsWriteRequest(requests[|requests| - 1], tid, unit, address, value)
      ensures answer.NoResponse? ==> r == WriteFailed(answer.sent)
      ensures answer.Reply? ==> Answers(answer.frame, tid, unit) && frames != [] && frames[|frames| - 1] == answer.frame
      ensures answer.Reply? ==> (r.Acked? <==> Acknowledges(answer.frame, tid, unit, address, value))
      ensures answer.Reply? ==> (r.WriteRefused? <==> Refuses(answer.frame, WriteCode(address)))
      ensures answer.Reply? ==> connected == !r.WriteFailed?
      ensures r.WriteRefused? ==> r.code == answer.frame[8]
    {
      var pdu := WritePdu(address, value);
      var t := Exchange(pdu);
      answer := t;
      WriteRequestLayout(tid, unit, address, value);
      if t.NoResponse? {
        return WriteFailed(t.sent), answer;
      }
      EchoLayout(t.frame, tid, unit, address, value);
      var code := Exception(t.frame, pdu[0]);
      if code.Some? {
        return WriteRefused(code.value), answer;
      }
      if t.frame[7..] != Echo(address, value) {
        Close();
        return WriteFailed(true), answer;
      }
      return Acked, answer;
    }

    method Disconnect()
      requires Aligned()
      modifies `connected
      ensures Aligned() && !connected
    {
      Close();
    }
  }

  // ---- what a request asks for, byte by byte ------------------------------------------

  predicate OneMore(before: seq<seq<byte>>, after: seq<seq<byte>>) {
    |after| == |before| + 1 && after[..|before|] == before
  }

  /** Two bytes, the high one first. */
  function Big(high: int, low: int): int {
    high * 256 + low
  }

  /** Transaction ID, protocol 0, the count of what follows, unit ID, function code. */
  predicate IsHeader(f: seq<byte>, tid: word, unit: byte, code: byte) {
    && |f| >= 8
    && Big(f[0], f[1]) == tid && f[2] == 0 && f[3] == 0
    && Big(f[4], f[5]) == |f| - 6
    && f[6] == unit && f[7] == code
  }

  /** FC03: the address and the number of registers. */
  predicate IsReadRequest(f: seq<byte>, tid: word, unit: byte, address: word, count: nat) {
    && IsHeader(f, tid, unit, 3) && |f| == 12
    && Big(f[8], f[9]) == address && Big(f[10], f[11]) == count
  }

  /** FC06 for 0x4000 to 0x4003, the address and the value; FC16 for any other register,
      the address, one register, two bytes, the value. */
  predicate IsWriteRequest(f: seq<byte>, tid: word, unit: byte, address: word, value: word) {
    && IsHeader(f, tid, unit, WriteCode(address)) && |f| >= 12
    && Big(f[8], f[9]) == address
    && if WriteCode(address) == 6 then |f| == 12 && Big(f[10], f[11]) == value
       else |f| == 15 && Big(f[10], f[11]) == 1 && f[12] == 2 && Big(f[13], f[14]) == value
  }

  function WriteCode(address: word): byte {
    if 0x4000 <= address <= 0x4003 then 6 else 16
  }

  /** The reply repeats function and address, and the value (FC06) or the quantity (FC16). */
  predicate Acknowledges(f: seq<byte>, tid: word, unit: byte, address: word, value: word) {
    && IsHeader(f, tid, unit, WriteCode(address)) && |f| == 12
    && Big(f[8], f[9]) == address
    && Big(f[10], f[11]) == if WriteCode(address) == 6 then value else 1
  }

  /** An exception reply: the function code with its high bit set, and a code. */
  predicate Refuses(f: seq<byte>, code: byte) {
    |f| == 9 && f[7] == code + 128
  }

  /** The registers stand in the reply one after the other, high byte first. */
  predicate CarriesAll(f: seq<byte>, regs: seq<word>, count: nat) {
    && |regs| == count && |f| == 9 + 2 * count
    && forall i :: 0 <= i < count ==> regs[i] == Big(f[9 + 2 * i], f[10 + 2 * i])
  }

  lemma BigBytes(w: word)
    ensures var b := Bytes(w); Big(b[0], b[1]) == w
  {
  }

  /** A whole frame starts with its header, and then its PDU. */
  lemma HeaderLayout(f: seq<byte>, tid: word, unit: byte, pdu: seq<byte>)
    requires Whole(f) && TidOf(f) == tid && f[6] == unit && f[7..] == pdu && pdu != []
    ensures IsHeader(f, tid, unit, pdu[0]) && |f| == 7 + |pdu|
  {
    assert f[7] == f[7..][0];
  }

  lemma PduLayout(f: seq<byte>, pdu: seq<byte>)
    requires |f| >= 7 && f[7..] == pdu
    ensures |f| == 7 + |pdu| && forall i :: 0 <= i < |pdu| ==> f[7 + i] == pdu[i]
  {
    assert forall i :: 0 <= i < |pdu| ==> f[7 + i] == f[7..][i];
  }

  /** The PDU p stands in f behind the header. */
  predicate Holds(f: seq<byte>, pdu: seq<byte>) {
    |f| == 7 + |pdu| && forall i :: 0 <= i < |pdu| ==> f[7 + i] == pdu[i]
  }

  lemma FrameHeader(tid: word, unit: byte, pdu: seq<byte>)
    requires 1 <= |pdu| <= 253
    ensures IsHeader(Frame(tid, unit, pdu), tid, unit, pdu[0])
  {
    HeaderLayout(Frame(tid, unit, pdu), tid, unit, pdu);
  }

  lemma FrameHolds(tid: word, unit: byte, pdu: seq<byte>)
    requires 1 <= |pdu| <= 253
    ensures Holds(Frame(tid, unit, pdu), pdu)
  {
    PduLayout(Frame(tid, unit, pdu), pdu);
  }

  lemma ReadLayout(f: seq<byte>, tid: word, unit: byte, pdu: seq<byte>, address: word, count: nat)
    requires |pdu| == 5 && pdu[0] == 3 && Big(pdu[1], pdu[2]) == address && Big(pdu[3], pdu[4]) == count
    requires IsHeader(f, tid, unit, pdu[0]) && Holds(f, pdu)
    ensures IsReadRequest(f, tid, unit, address, count)
  {
    assert f[7 + 1] == pdu[1] && f[7 + 2] == pdu[2] && f[7 + 3] == pdu[3] && f[7 + 4] == pdu[4];
  }

  lemma ReadPduBytes(address: word, count: nat)
    requires 1 <= count <= MAX_READ_COUNT
    ensures var pdu := Client.ReadPdu(address, count);
            |pdu| == 5 && pdu[0] == 3 && Big(pdu[1], pdu[2]) == address && Big(pdu[3], pdu[4]) == count
  {
    BigBytes(address);
    BigBytes(count);
  }

  lemma ReadRequestLayout(tid: word, unit: byte, address: word, count: nat)
    requires 1 <= count <= MAX_READ_COUNT
    ensures IsReadRequest(Frame(tid, unit, Client.ReadPdu(address, count)), tid, unit, address, count)
  {
    var pdu := Client.ReadPdu(address, count);
    ReadPduBytes(address, count);
    FrameHeader(tid, unit, pdu);
    FrameHolds(tid, unit, pdu);
    ReadLayout(Frame(tid, unit, pdu), tid, unit, pdu, address, count);
  }

  predicate IsWritePdu(pdu: seq<byte>, address: word, value: word) {
    && |pdu| >= 5 && pdu[0] == WriteCode(address) && Big(pdu[1], pdu[2]) == address
    && if WriteCode(address) == 6 then |pdu| == 5 && Big(pdu[3], pdu[4]) == value
       else |pdu| == 8 && Big(pdu[3], pdu[4]) == 1 && pdu[5] == 2 && Big(pdu[6], pdu[7]) == value
  }

  lemma WriteLayout(f: seq<byte>, tid: word, unit: byte, pdu: seq<byte>, address: word, value: word)
    requires IsWritePdu(pdu, address, value) && IsHeader(f, tid, unit, pdu[0]) && Holds(f, pdu)
    ensures IsWriteRequest(f, tid, unit, address, value)
  {
    assert f[7 + 1] == pdu[1] && f[7 + 2] == pdu[2] && f[7 + 3] == pdu[3] && f[7 + 4] == pdu[4];
    if |pdu| == 8 {
      assert f[7 + 5] == pdu[5] && f[7 + 6] == pdu[6] && f[7 + 7] == pdu[7];
    }
  }

  lemma WritePduBytes(address: word, value: word)
    ensures IsWritePdu(Client.WritePdu(address, value), address, value)
  {
    BigBytes(address);
    BigBytes(value);
    BigBytes(1);
  }

  lemma WriteRequestLayout(tid: word, unit: byte, address: word, value: word)
    ensures IsWriteRequest(Frame(tid, unit, Client.WritePdu(address, value)), tid, unit, address, value)
  {
    var pdu := Client.WritePdu(address, value);
    WritePduBytes(address, value);
    FrameHeader(tid, unit, pdu);
    FrameHolds(tid, unit, pdu);
    WriteLayout(Frame(tid, unit, pdu), tid, unit, pdu, address, value);
  }

  predicate IsEcho(e: seq<byte>, address: word, value: word) {
    && |e| == 5 && e[0] == WriteCode(address) && Big(e[1], e[2]) == address
    && Big(e[3], e[4]) == if WriteCode(address) == 6 then value else 1
  }

  lemma EchoBytes(address: word, value: word)
    ensures IsEcho(Client.Echo(address, value), address, value)
  {
    WritePduBytes(address, value);
  }

  /** Two echoes of the same request are the same. */
  lemma SameEcho(e: seq<byte>, g: seq<byte>, address: word, value: word)
    requires IsEcho(e, address, value)
    ensures g == e <==> IsEcho(g, address, value)
  {
    if IsEcho(g, address, value) {
      assert forall i :: 0 <= i < 5 ==> g[i] == e[i];
    }
  }

  lemma EchoInFrame(f: seq<byte>, tid: word, unit: byte, address: word, value: word)
    requires Answers(f, tid, unit)
    ensures IsEcho(f[7..], address, value) <==> Acknowledges(f, tid, unit, address, value)
  {
  }

  /** The check for the echo, byte by byte. */
  lemma EchoLayout(f: seq<byte>, tid: word, unit: byte, address: word, value: word)
    requires Answers(f, tid, unit)
    ensures f[7..] == Client.Echo(address, value) <==> Acknowledges(f, tid, unit, address, value)
  {
    EchoBytes(address, value);
    SameEcho(Client.Echo(address, value), f[7..], address, value);
    EchoInFrame(f, tid, unit, address, value);
  }

  lemma {:induction false} DecodeAt(b: seq<byte>, i: nat)
    requires |b| % 2 == 0 && 2 * i < |b|
    ensures Decode(b)[i] == Big(b[2 * i], b[2 * i + 1])
    decreases i
  {
    if i > 0 {
      DecodeAt(b[2..], i - 1);
    }
  }

  lemma RegistersInPlace(f: seq<byte>, count: nat)
    requires |f| == 9 + 2 * count
    ensures CarriesAll(f, Decode(f[9..]), count)
  {
    forall i | 0 <= i < count ensures Decode(f[9..])[i] == Big(f[9 + 2 * i], f[10 + 2 * i]) {
      DecodeAt(f[9..], i);
    }
  }

  // ---- what a reply carries ---------------------------------------------------------

  /** A register reply with exactly as many registers as were asked for. */
  predicate Carries(f: seq<byte>, count: nat)
    requires Whole(f)
  {
    |f| >= 9 && f[7] == FC_READ_HOLDING && |f| - 9 == f[8] && f[8] == 2 * count
    && Client.Exception(f, FC_READ_HOLDING).None?
  }

  /** This very frame delivers these registers, in answer to this request. */
  predicate Delivers(f: seq<byte>, tid: word, unit: byte, regs: seq<word>) {
    1 <= |regs| <= MAX_READ_COUNT && f == RegistersReply(tid, unit, regs)
  }

  function RegistersPdu(regs: seq<word>): (pdu: seq<byte>)
    requires 1 <= |regs| <= MAX_READ_COUNT
    ensures |pdu| == 2 + 2 * |regs|
  {
    [FC_READ_HOLDING, 2 * |regs|] + Encode(regs)
  }

  /** The frame a device sends to deliver these registers. */
  function RegistersReply(tid: word, unit: byte, regs: seq<word>): (f: seq<byte>)
    requires 1 <= |regs| <= MAX_READ_COUNT
  {
    Frame(tid, unit, RegistersPdu(regs))
  }

  lemma ReplyLayout(tid: word, unit: byte, regs: seq<word>)
    requires 1 <= |regs| <= MAX_READ_COUNT
    ensures var f := RegistersReply(tid, unit, regs);
            && |f| == 9 + 2 * |regs| && f[7] == FC_READ_HOLDING && f[8] == 2 * |regs| && f[9..] == Encode(regs)
  {
    var f := RegistersReply(tid, unit, regs);
    assert f[7..] == RegistersPdu(regs);
    assert f[7] == f[7..][0] && f[8] == f[7..][1];
    assert f[9..] == f[7..][2..];
  }

  /** What a device sends for 1 to 125 registers is accepted, and decodes to exactly those
      registers. */
  lemma Delivered(tid: word, unit: byte, regs: seq<word>)
    requires 1 <= |regs| <= MAX_READ_COUNT
    ensures var f := RegistersReply(tid, unit, regs);
            Whole(f) && Carries(f, |regs|) && Decode(f[9..]) == regs
  {
    ReplyLayout(tid, unit, regs);
    DecodeEncode(regs);
  }

  lemma WordBytes(high: byte, low: byte)
    ensures Bytes(Word(high, low)) == [high, low]
  {
  }

  /** A whole frame is nothing but its ID, its unit and its PDU. */
  lemma FrameOf(f: seq<byte>)
    requires Whole(f)
    ensures 1 <= |f[7..]| <= 253 && f == Frame(TidOf(f), f[6], f[7..])
  {
    WordBytes(f[0], f[1]);
    assert f[4] == 0 && f[2] == 0 && f[3] == 0;
    var g := Frame(TidOf(f), f[6], f[7..]);
    assert |g| == |f|;
    forall i | 0 <= i < |f| ensures f[i] == g[i] {
      if i >= 7 { assert g[i] == f[7..][i - 7]; }
    }
  }

  /** And what is accepted is exactly such a frame. */
  lemma Redelivered(f: seq<byte>, tid: word, unit: byte, count: nat)
    requires Answers(f, tid, unit) && 1 <= count <= MAX_READ_COUNT && Carries(f, count)
    ensures var regs := Decode(f[9..]); |regs| == count && Delivers(f, tid, unit, regs)
  {
    PduCarried(f, count);
    FrameOf(f);
  }

  lemma PduCarried(f: seq<byte>, count: nat)
    requires Whole(f) && 1 <= count <= MAX_READ_COUNT && Carries(f, count)
    ensures |Decode(f[9..])| == count && RegistersPdu(Decode(f[9..])) == f[7..]
  {
    EncodeDecode(f[9..]);
    PduOf(f);
  }

  lemma PduOf(f: seq<byte>)
    requires |f| >= 9
    ensures f[7..] == [f[7], f[8]] + f[9..]
  {
  }
}
