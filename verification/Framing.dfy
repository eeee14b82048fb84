/** Record framing: section 3.3 of the FastCGI Specification as `PacketSocket` reads and writes it. */
module Framing {
  import opened Bytes

  const HEADER_LEN := 8
  const MAX_CONTENT := 65535
  const VERSION_1: byte := 1

  datatype Record = Record(requestId: nat, kind: byte, content: bytes)

  /** What one turn of the read loop takes off the buffer. */
  datatype Frame = Packet(record: Record) | Unsupported

  datatype Scan = Wait | Next(frame: Frame, size: nat)

  // ---------------------------------------------------------------- writing

  function Padding(length: nat): nat {
    (8 - length % 8) % 8
  }

  function Header(id: nat, kind: byte, length: nat): bytes
    requires length <= MAX_CONTENT
  {
    [VERSION_1, kind, id / 256 % 256, id % 256, length / 256, length % 256, Padding(length), 0]
  }

  function EncodeRecord(id: nat, kind: byte, content: bytes): bytes
    requires |content| <= MAX_CONTENT
  {
    Header(id, kind, |content|) + content + Zeros(Padding(|content|))
  }

  /** The contents of the records that one `writePacket` call produces. */
  function Split(content: bytes): seq<bytes>
    decreases |content|
  {
    if |content| <= MAX_CONTENT then [content]
    else [content[..MAX_CONTENT]] + Split(content[MAX_CONTENT..])
  }

  function EncodePacket(id: nat, kind: byte, content: bytes): bytes
    decreases |content|
  {
    if |content| <= MAX_CONTENT then EncodeRecord(id, kind, content)
    else EncodeRecord(id, kind, content[..MAX_CONTENT]) + EncodePacket(id, kind, content[MAX_CONTENT..])
  }

  function Stamp(id: nat, kind: byte, pieces: seq<bytes>): (records: seq<Record>)
    ensures |records| == |pieces|
    ensures forall i :: 0 <= i < |pieces| ==> records[i] == Record(id, kind, pieces[i])
  {
    seq(|pieces|, i requires 0 <= i < |pieces| => Record(id, kind, pieces[i]))
  }

  /** Cutting into records loses nothing, fills every record but the last, and makes an
      empty (end-of-stream) record for the empty content and for no other. */
  lemma {:induction false} SplitFaithful(content: bytes)
    ensures Concat(Split(content)) == content
    ensures |Split(content)| == if content == [] then 1 else (|content| + 65534) / 65535
    ensures forall i :: 0 <= i < |Split(content)| ==> |Split(content)[i]| <= 65535
    ensures forall i :: 0 <= i < |Split(content)| - 1 ==> |Split(content)[i]| == 65535
    ensures forall i :: 0 <= i < |Split(content)| ==> (Split(content)[i] == [] <==> content == [])
    decreases |content|
  {
    if |content| > MAX_CONTENT {
      SplitFaithful(content[MAX_CONTENT..]);
      assert content == content[..MAX_CONTENT] + content[MAX_CONTENT..];
    } else {
      assert Concat([content]) == content + Concat([]);
    }
  }

  // ---------------------------------------------------------------- reading

  function RequestIdIn(b: bytes): nat
    requires |b| >= HEADER_LEN
  {
    U16(b[2], b[3])
  }

  function ContentLengthIn(b: bytes): nat
    requires |b| >= HEADER_LEN
  {
    U16(b[4], b[5])
  }

  function DeclaredSize(b: bytes): nat
    requires |b| >= HEADER_LEN
  {
    HEADER_LEN + ContentLengthIn(b) + b[6]
  }

  /** The next thing the read loop does with a buffer. A record of another version is dropped
      as soon as its header is there; `consume` then clamps to what is buffered. */
  function NextFrame(b: bytes): (scan: Scan)
    ensures scan.Next? ==> 0 < scan.size <= |b|
    ensures scan.Next? && scan.frame.Packet? ==>
            scan.frame.record.requestId < 65536 && |scan.frame.record.content| <= MAX_CONTENT
  {
    if |b| < HEADER_LEN then Wait
    else if b[0] != VERSION_1 then Next(Unsupported, Min(DeclaredSize(b), |b|))
    else if |b| < DeclaredSize(b) then Wait
    else Next(Packet(Record(RequestIdIn(b), b[1], b[HEADER_LEN..HEADER_LEN + ContentLengthIn(b)])), DeclaredSize(b))
  }

  function Frames(b: bytes): seq<Frame>
    decreases |b|
  {
    match NextFrame(b)
    case Wait => []
    case Next(frame, size) => [frame] + Frames(b[size..])
  }

  function Residue(b: bytes): bytes
    decreases |b|
  {
    match NextFrame(b)
    case Wait => b
    case Next(_, size) => Residue(b[size..])
  }

  /** The next record is of another version and only partly buffered. */
  predicate Clamped(b: bytes) {
    |b| >= HEADER_LEN && b[0] != VERSION_1 && |b| < DeclaredSize(b)
  }

  /** No turn of the loop over `b` meets a clamped record. */
  predicate SafeCut(b: bytes)
    decreases |b|
  {
    match NextFrame(b)
    case Wait => true
    case Next(_, size) => !Clamped(b) && SafeCut(b[size..])
  }

  /** Every record the loop reaches has version 1. */
  predicate AllSupported(b: bytes) {
    Unsupported !in Frames(b)
  }

  /** One turn of the loop. */
  lemma FramesTurn(b: bytes, f: Frame, size: nat)
    requires NextFrame(b) == Next(f, size)
    ensures Frames(b) == [f] + Frames(b[size..]) && Residue(b) == Residue(b[size..])
  {
  }

  lemma FramesOfNothing()
    ensures Frames([]) == [] && Residue([]) == []
  {
  }

  /** What is left holds no complete record and is bounded by one maximal record. */
  lemma {:induction false} ResidueHoldsNoRecord(b: bytes)
    ensures NextFrame(Residue(b)) == Wait
    ensures |Residue(b)| < 8 + 65535 + 255
    ensures |Residue(b)| <= |b| && b[|b| - |Residue(b)|..] == Residue(b)
    decreases |b|
  {
    match NextFrame(b)
    case Wait =>
    case Next(_, size) =>
      ResidueHoldsNoRecord(b[size..]);
      DropDrop(b, size, |b| - size - |Residue(b)|);
  }

  /** More bytes do not change what the loop does next, unless it was waiting or clamped. */
  lemma NextFrameStable(a: bytes, b: bytes)
    requires NextFrame(a).Next? && !Clamped(a)
    ensures NextFrame(a + b) == NextFrame(a)
    ensures !Clamped(a + b)
    ensures (a + b)[NextFrame(a).size..] == a[NextFrame(a).size..] + b
  {
    assert DeclaredSize(a + b) == DeclaredSize(a);
    assert (a + b)[HEADER_LEN..HEADER_LEN + ContentLengthIn(a)] == a[HEADER_LEN..HEADER_LEN + ContentLengthIn(a)];
  }

  lemma {:induction false} SafeCutAppend(a: bytes, b: bytes)
    requires SafeCut(a)
    ensures Frames(a + b) == Frames(a) + Frames(Residue(a) + b)
    ensures Residue(a + b) == Residue(Residue(a) + b)
    decreases |a|
  {
    match NextFrame(a)
    case Wait =>
    case Next(_, size) =>
      NextFrameStable(a, b);
      SafeCutAppend(a[size..], b);
  }

  // ---------------------------------------------------------------- octet by octet

  /** The layout of a record in section 3.3, as the read loop takes it: version 1, type, id and content
      length with their high octets first, padding length, and a reserved octet. */
  lemma FrameOctets(b: bytes)
    ensures |b| < 8 ==> NextFrame(b) == Wait
    ensures |b| >= 8 && b[0] == 1 ==>
              var length: nat, padding: nat := 256 * b[4] as nat + b[5] as nat, b[6] as nat;
              NextFrame(b) == if |b| < 8 + length + padding then Wait
                              else Next(Packet(Record(256 * b[2] as nat + b[3] as nat, b[1], b[8..8 + length])),
                                        8 + length + padding)
    ensures |b| >= 8 && b[0] != 1 ==>
              var size := 8 + 256 * b[4] as nat + b[5] as nat + b[6] as nat;
              NextFrame(b) == Next(Unsupported, if size < |b| then size else |b|)
  {
  }

  /** `e` is, octet for octet, one version-1 record with the least padding to a multiple of eight. */
  predicate Laid(e: bytes, id: nat, kind: byte, content: bytes) {
    && |e| >= 8 && e[0] == 1 && e[1] == kind
    && 256 * e[2] as nat + e[3] as nat == id % 65536
    && 256 * e[4] as nat + e[5] as nat == |content|
    && e[6] < 8 && e[7] == 0
    && |e| == 8 + |content| + e[6] as nat && |e| % 8 == 0
    && e[8..8 + |content|] == content
    && forall i :: 8 + |content| <= i < |e| ==> e[i] == 0
  }

  /** The buffer holds this record and nothing else. */
  predicate Holds(b: bytes, r: Record) {
    NextFrame(b) == Next(Packet(r), |b|)
  }

  lemma LaidHeld(b: bytes, id: nat, kind: byte, content: bytes)
    requires Laid(b, id, kind, content)
    ensures Holds(b, Record(id % 65536, kind, content))
  {
    FrameOctets(b);
  }

  lemma PaddedToEight(n: nat)
    ensures Padding(n) < 8 && (n + Padding(n)) % 8 == 0
  {
  }

  lemma HeaderLaid(id: nat, kind: byte, length: nat)
    requires length <= MAX_CONTENT
    ensures var h := Header(id, kind, length);
      && h[0] == 1 && h[1] == kind && 256 * h[2] as nat + h[3] as nat == id % 65536
      && 256 * h[4] as nat + h[5] as nat == length
      && h[6] < 8 && h[6] as nat == Padding(length) && (8 + length + h[6] as nat) % 8 == 0 && h[7] == 0
  {
    PaddedToEight(length);
    U16Split(id);
    U16Split(length);
  }

  lemma LaidOut(h: bytes, z: bytes, id: nat, kind: byte, content: bytes)
    requires |h| == 8 && h[0] == 1 && h[1] == kind && 256 * h[2] as nat + h[3] as nat == id % 65536
    requires 256 * h[4] as nat + h[5] as nat == |content|
    requires h[6] < 8 && |z| == h[6] as nat && (8 + |content| + |z|) % 8 == 0 && h[7] == 0
    requires forall i :: 0 <= i < |z| ==> z[i] == 0
    ensures Laid(h + content + z, id, kind, content)
  {
  }

  lemma RecordLaid(id: nat, kind: byte, content: bytes)
    requires |content| <= MAX_CONTENT
    ensures Laid(EncodeRecord(id, kind, content), id, kind, content)
  {
    HeaderLaid(id, kind, |content|);
    LaidOut(Header(id, kind, |content|), Zeros(Padding(|content|)), id, kind, content);
  }

  /** The octets are the records of this id and type with these contents, one behind the other. */
  predicate AllLaid(b: bytes, id: nat, kind: byte, pieces: seq<bytes>)
    decreases |pieces|
  {
    if pieces == [] then b == [] else
      && |b| >= 8
      && var n := 8 + 256 * b[4] as nat + b[5] as nat + b[6] as nat;
         n <= |b| && Laid(b[..n], id, kind, pieces[0]) && AllLaid(b[n..], id, kind, pieces[1..])
  }

  /** `writePacket` lays down, octet for octet, the records of the pieces it cuts the content into. */
  lemma {:induction false} PacketLaid(id: nat, kind: byte, content: bytes)
    ensures AllLaid(EncodePacket(id, kind, content), id, kind, Split(content))
    decreases |content|
  {
    if |content| <= MAX_CONTENT {
      RecordLaid(id, kind, content);
      LaidAlone(EncodePacket(id, kind, content), id, kind, content);
    } else {
      var head, tail := content[..MAX_CONTENT], content[MAX_CONTENT..];
      RecordLaid(id, kind, head);
      PacketLaid(id, kind, tail);
      LaidFirst(EncodeRecord(id, kind, head), EncodePacket(id, kind, tail), id, kind, head, Split(tail));
    }
  }

  lemma {:induction false} LaidAligned(b: bytes, id: nat, kind: byte, pieces: seq<bytes>)
    requires AllLaid(b, id, kind, pieces)
    ensures |b| % 8 == 0
    decreases |pieces|
  {
    if pieces != [] {
      var n := 8 + 256 * b[4] as nat + b[5] as nat + b[6] as nat;
      LaidAligned(b[n..], id, kind, pieces[1..]);
      AddAligned(|b[..n]|, |b[n..]|);
    }
  }

  lemma AddAligned(a: nat, b: nat)
    requires a % 8 == 0 && b % 8 == 0
    ensures (a + b) % 8 == 0
  {
  }

  lemma LaidAlone(e: bytes, id: nat, kind: byte, piece: bytes)
    requires Laid(e, id, kind, piece)
    ensures AllLaid(e, id, kind, [piece])
  {
    LaidFirst(e, [], id, kind, piece, []);
    assert e + [] == e && [piece] + [] == [piece];
  }

  lemma LaidFirst(e: bytes, b: bytes, id: nat, kind: byte, piece: bytes, pieces: seq<bytes>)
    requires Laid(e, id, kind, piece) && AllLaid(b, id, kind, pieces)
    ensures AllLaid(e + b, id, kind, [piece] + pieces)
  {
    var n := |e|;
    assert (e + b)[..n] == e && (e + b)[n..] == b;
    assert ([piece] + pieces)[1..] == pieces;
  }

  /** Any sequence of version-1 records, each padded with fewer than eight zero octets to a multiple of
      eight. */
  predicate Ruled(b: bytes)
    decreases |b|
  {
    b == [] ||
    (&& |b| >= 8 && b[0] == 1 && b[6] < 8 && b[7] == 0
     && var length: nat := 256 * b[4] as nat + b[5] as nat;
        var n := 8 + length + b[6] as nat;
        && n <= |b| && n % 8 == 0
        && (forall i :: 8 + length <= i < n ==> b[i] == 0)
        && Ruled(b[n..]))
  }

  lemma LaidRuled(e: bytes, id: nat, kind: byte, content: bytes, rest: bytes)
    requires Laid(e, id, kind, content) && Ruled(rest)
    ensures Ruled(e + rest)
  {
    assert (e + rest)[|e|..] == rest;
    assert forall i :: 0 <= i < |e| ==> (e + rest)[i] == e[i];
  }

  lemma {:induction false} PacketRuled(id: nat, kind: byte, content: bytes, rest: bytes)
    requires Ruled(rest)
    ensures Ruled(EncodePacket(id, kind, content) + rest)
    decreases |content|
  {
    if |content| <= MAX_CONTENT {
      RecordLaid(id, kind, content);
      LaidRuled(EncodeRecord(id, kind, content), id, kind, content, rest);
    } else {
      var head, tail := content[..MAX_CONTENT], content[MAX_CONTENT..];
      PacketRuled(id, kind, tail, rest);
      RecordLaid(id, kind, head);
      LaidRuled(EncodeRecord(id, kind, head), id, kind, head, EncodePacket(id, kind, tail) + rest);
      Regroup(EncodeRecord(id, kind, head), EncodePacket(id, kind, tail), rest);
    }
  }

  lemma RuledFirst(b: bytes) returns (n: nat)
    requires Ruled(b) && b != []
    ensures 8 <= n <= |b| && n % 8 == 0 && Ruled(b[n..])
  {
    n := 8 + 256 * b[4] as nat + b[5] as nat + b[6] as nat;
  }

  lemma {:induction false} RuledAligned(b: bytes)
    requires Ruled(b)
    ensures |b| % 8 == 0
    decreases |b|
  {
    if b != [] {
      var n := RuledFirst(b);
      RuledAligned(b[n..]);
      AddAligned(n, |b[n..]|);
    }
  }

  // ---------------------------------------------------------------- incremental reading

  datatype Reader = Reader(dispatched: seq<Frame>, residue: bytes)

  const START := Reader([], [])

  /** One `handleRead`: the chunk joins the residue and the loop runs. */
  function Feed(r: Reader, chunk: bytes): Reader {
    var b := r.residue + chunk;
    Reader(r.dispatched + Frames(b), Residue(b))
  }

  function FeedAll(r: Reader, chunks: seq<bytes>): Reader
    decreases |chunks|
  {
    if chunks == [] then r else FeedAll(Feed(r, chunks[0]), chunks[1..])
  }

  lemma FeedStart(b: bytes)
    ensures Feed(START, b) == Reader(Frames(b), Residue(b))
  {
    var residue: bytes := [];
    assert residue + b == b;
    var none: seq<Frame> := [];
    assert none + Frames(b) == Frames(b);
  }

  const PING: bytes := [VERSION_1, 0, 0, 0, 0, 0, 0, 0]

  lemma PingNext()
    ensures NextFrame(PING) == Next(Packet(Record(0, 0, [])), |PING|)
    ensures PING[|PING|..] == []
  {
    assert PING[8..8] == [];
  }

  lemma PingFrames()
    ensures Frames(PING) == [Packet(Record(0, 0, []))]
    ensures Residue(PING) == []
  {
    PingNext();
    FramesTurn(PING, Packet(Record(0, 0, [])), |PING|);
    FramesOfNothing();
  }

  /** After a clamp the cut stream and the whole stream disagree about a following record. */
  lemma {:induction false} ClampLosesAlignment(a: bytes)
    requires !SafeCut(a)
    ensures Residue(a) == []
    ensures |Frames(a + PING)| == |Frames(a)|
    decreases |a|
  {
    var size := NextFrame(a).size;
    if Clamped(a) {
      assert a[size..] == [];
      assert DeclaredSize(a + PING) == DeclaredSize(a);
      var rest := (a + PING)[NextFrame(a + PING).size..];
      assert |rest| < 8;
      assert Frames(rest) == [];
    } else {
      NextFrameStable(a, PING);
      ClampLosesAlignment(a[size..]);
    }
  }

  lemma SafeCutInvisible(a: bytes, b: bytes)
    requires SafeCut(a)
    ensures Feed(Feed(START, a), b) == Feed(START, a + b)
  {
    SafeCutAppend(a, b);
    FeedStart(a);
    FeedStart(a + b);
  }

  lemma UnsafeCutVisible(a: bytes)
    requires !SafeCut(a)
    ensures Feed(Feed(START, a), PING) != Feed(START, a + PING)
  {
    ClampLosesAlignment(a);
    PingFrames();
    FeedStart(a);
    FeedStart(a + PING);
    assert Residue(a) + PING == PING;
  }

  /** A cut after `a` is invisible to every continuation exactly when the loop over `a` never
      drops a partly buffered record of another version. */
  lemma CutInvisibleIffSafe(a: bytes)
    ensures SafeCut(a) <==> forall b :: Feed(Feed(START, a), b) == Feed(START, a + b)
  {
    if SafeCut(a) {
      forall b ensures Feed(Feed(START, a), b) == Feed(START, a + b) {
        SafeCutInvisible(a, b);
      }
    } else {
      UnsafeCutVisible(a);
    }
  }

  /** The header of a version-2 record with eight octets of content, cut before the content: the eight
      octets that follow are taken for a record of their own. */
  const SPLIT_HEADER: bytes := [2, 0, 0, 0, 0, 8, 0, 0]

  lemma SplitHeaderShows()
    ensures !SafeCut(SPLIT_HEADER)
    ensures Feed(Feed(START, SPLIT_HEADER), PING) != Feed(START, SPLIT_HEADER + PING)
  {
    assert Clamped(SPLIT_HEADER);
    UnsafeCutVisible(SPLIT_HEADER);
  }

  lemma {:induction false} SupportedPrefixSafe(a: bytes, b: bytes)
    requires AllSupported(a + b)
    ensures SafeCut(a)
    decreases |a|
  {
    match NextFrame(a)
    case Wait =>
    case Next(frame, size) =>
      if Clamped(a) {
        assert false;
      } else {
        NextFrameStable(a, b);
        assert Frames(a + b) == [frame] + Frames(a[size..] + b);
        SupportedPrefixSafe(a[size..], b);
      }
  }

  lemma WaitingResidue(b: bytes)
    requires Residue(b) == [] && b != []
    ensures Frames(b) != []
  {
  }

  /** A proper part of a stream of complete version-1 records is read as a proper part of them. */
  lemma PartialFrames(a: bytes, b: bytes)
    requires AllSupported(a + b) && Residue(a + b) == []
    ensures Frames(a) <= Frames(a + b)
    ensures b != [] ==> |Frames(a)| < |Frames(a + b)|
  {
    SupportedPrefixSafe(a, b);
    SafeCutAppend(a, b);
    if b != [] {
      WaitingResidue(Residue(a) + b);
    }
  }

  lemma {:induction false} FeedAllWhole(past: bytes, chunks: seq<bytes>)
    requires AllSupported(past + Concat(chunks))
    ensures FeedAll(Feed(START, past), chunks) == Feed(START, past + Concat(chunks))
    decreases |chunks|
  {
    if chunks == [] {
      assert past + Concat(chunks) == past;
    } else {
      var now := past + chunks[0];
      assert past + Concat(chunks) == now + Concat(chunks[1..]);
      SupportedPrefixSafe(past, Concat(chunks));
      CutInvisibleIffSafe(past);
      FeedAllWhole(now, chunks[1..]);
    }
  }

  /** Any way of cutting a version-1 stream into chunks dispatches the same records and leaves
      the same residue as one read of the whole stream. */
  lemma ChunkingInvisible(chunks: seq<bytes>)
    requires AllSupported(Concat(chunks))
    ensures FeedAll(START, chunks) == Feed(START, Concat(chunks))
  {
    assert [] + Concat(chunks) == Concat(chunks);
    assert Feed(START, []) == START;
    FeedAllWhole([], chunks);
  }

  // ---------------------------------------------------------------- round trip

  function Packets(records: seq<Record>): (frames: seq<Frame>)
    ensures |frames| == |records|
    ensures forall i :: 0 <= i < |records| ==> frames[i] == Packet(records[i])
  {
    seq(|records|, i requires 0 <= i < |records| => Packet(records[i]))
  }

  lemma PacketsAppend(a: seq<Record>, b: seq<Record>)
    ensures Packets(a + b) == Packets(a) + Packets(b)
  {
  }

  /** The records a peer reads off a byte stream. */
  function Received(frames: seq<Frame>): seq<Record> {
    if frames == [] then []
    else (if frames[0].Packet? then [frames[0].record] else []) + Received(frames[1..])
  }

  lemma {:induction false} ReceivedPackets(records: seq<Record>)
    ensures Received(Packets(records)) == records
    decreases |records|
  {
    if records != [] {
      assert Packets(records)[1..] == Packets(records[1..]);
      ReceivedPackets(records[1..]);
    }
  }

  lemma HeaderFields(id: nat, kind: byte, content: bytes, tail: bytes)
    requires |content| <= MAX_CONTENT
    ensures var b := Header(id, kind, |content|) + tail;
      && b[0] == VERSION_1 && b[1] == kind
      && RequestIdIn(b) == id % 65536 && ContentLengthIn(b) == |content|
      && DeclaredSize(b) == HEADER_LEN + |content| + Padding(|content|)
  {
    U16Split(id);
    U16Split(|content|);
  }

  lemma RecordNext(id: nat, kind: byte, content: bytes, rest: bytes)
    requires |content| <= MAX_CONTENT
    ensures var e := EncodeRecord(id, kind, content);
      && NextFrame(e + rest) == Next(Packet(Record(id % 65536, kind, content)), |e|)
      && (e + rest)[|e|..] == rest
  {
    var b := EncodeRecord(id, kind, content) + rest;
    assert b == Header(id, kind, |content|) + (content + Zeros(Padding(|content|)) + rest);
    HeaderFields(id, kind, content, content + Zeros(Padding(|content|)) + rest);
    assert b[HEADER_LEN..HEADER_LEN + |content|] == content;
  }

  /** The loop takes one encoded record off as exactly that record. */
  lemma RecordRoundTrip(id: nat, kind: byte, content: bytes, rest: bytes)
    requires |content| <= MAX_CONTENT
    ensures Frames(EncodeRecord(id, kind, content) + rest)
         == [Packet(Record(id % 65536, kind, content))] + Frames(rest)
    ensures Residue(EncodeRecord(id, kind, content) + rest) == Residue(rest)
  {
    var e := EncodeRecord(id, kind, content);
    RecordNext(id, kind, content, rest);
    FramesTurn(e + rest, Packet(Record(id % 65536, kind, content)), |e|);
  }

  function PacketRecords(id: nat, kind: byte, content: bytes): seq<Record> {
    Stamp(id % 65536, kind, Split(content))
  }

  /** Reading back what `writePacket` wrote yields its records, whatever follows on the wire:
      every id (modulo the 16 bits of the header), type and content. */
  lemma {:induction false} PacketRoundTrip(id: nat, kind: byte, content: bytes, rest: bytes)
    ensures Frames(EncodePacket(id, kind, content) + rest) == Packets(PacketRecords(id, kind, content)) + Frames(rest)
    ensures Residue(EncodePacket(id, kind, content) + rest) == Residue(rest)
    decreases |content|
  {
    PacketsOfSplit(id % 65536, kind, content);
    if |content| <= MAX_CONTENT {
      RecordRoundTrip(id, kind, content, rest);
    } else {
      var head, tail := content[..MAX_CONTENT], content[MAX_CONTENT..];
      Regroup(EncodeRecord(id, kind, head), EncodePacket(id, kind, tail), rest);
      RecordRoundTrip(id, kind, head, EncodePacket(id, kind, tail) + rest);
      PacketRoundTrip(id, kind, tail, rest);
      Regroup([Packet(Record(id % 65536, kind, head))], Packets(PacketRecords(id, kind, tail)), Frames(rest));
    }
  }

  lemma StampFirst(id: nat, kind: byte, piece: bytes, pieces: seq<bytes>)
    ensures Packets(Stamp(id, kind, [piece] + pieces))
            == [Packet(Record(id, kind, piece))] + Packets(Stamp(id, kind, pieces))
  {
  }

  lemma PacketsOfSplit(id: nat, kind: byte, content: bytes)
    ensures Packets(Stamp(id, kind, Split(content))) ==
      if |content| <= MAX_CONTENT then [Packet(Record(id, kind, content))]
      else [Packet(Record(id, kind, content[..MAX_CONTENT]))] + Packets(Stamp(id, kind, Split(content[MAX_CONTENT..])))
  {
    if |content| <= MAX_CONTENT {
      assert Split(content) == [content];
      StampFirst(id, kind, content, []);
      assert [content] + [] == [content];
    } else {
      StampFirst(id, kind, content[..MAX_CONTENT], Split(content[MAX_CONTENT..]));
    }
  }
}
