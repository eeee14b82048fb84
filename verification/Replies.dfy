/** Everything the server writes, and what a multiplexing peer makes of it: sections 4.2, 5.3 to
    5.5 of the FastCGI Specification. */
module Replies {
  import opened Bytes
  import opened Protocol
  import opened Framing
  import opened Links

  /** The part of `RequestData` the application fills in. */
  datatype Output = Output(out: bytes, err: bytes, status: int)

  // ---------------------------------------------------------------- sendReply

  datatype ReplySent = ReplySent(link: Link, output: Output, ok: bool)

  /** A stream is written only if non-empty; its length goes through `unsigned int`. */
  function SendStream(l: Link, id: nat, kind: byte, content: bytes): Written {
    if content == [] then Written(l, true) else WritePacket(l, id, kind, Low32(content))
  }

  function SendReply(l: Link, id: nat, o: Output): ReplySent {
    var w1 := SendStream(l, id, STDOUT, o.out);
    if !w1.ok then ReplySent(w1.link, o, false) else
      var o1 := o.(out := []);
      var w2 := SendStream(w1.link, id, STDERR, o.err);
      if !w2.ok then ReplySent(w2.link, o1, false) else
        var o2 := o1.(err := []);
        var w3 := WritePacket(w2.link, id, STDOUT, []);
        if !w3.ok then ReplySent(w3.link, o2, false) else
          var w4 := WritePacket(w3.link, id, STDERR, []);
          if !w4.ok then ReplySent(w4.link, o2, false) else
            var w5 := WritePacket(w4.link, id, END_REQUEST, EndRequestBody(o.status, REQUEST_COMPLETE));
            ReplySent(w5.link, o2, w5.ok)
  }

  // ---------------------------------------------------------------- packets and their octets

  datatype Parcel = Parcel(id: nat, kind: byte, content: bytes)

  function EncodeAll(ps: seq<Parcel>): bytes {
    if ps == [] then [] else
      var last := ps[|ps| - 1];
      EncodeAll(ps[..|ps| - 1]) + EncodePacket(last.id, last.kind, last.content)
  }

  function RecordsOf(ps: seq<Parcel>): seq<Record> {
    if ps == [] then [] else
      var last := ps[|ps| - 1];
      RecordsOf(ps[..|ps| - 1]) + PacketRecords(last.id, last.kind, last.content)
  }

  lemma EncodeOne(ps: seq<Parcel>, p: Parcel)
    ensures EncodeAll(ps + [p]) == EncodeAll(ps) + EncodePacket(p.id, p.kind, p.content)
    ensures RecordsOf(ps + [p]) == RecordsOf(ps) + PacketRecords(p.id, p.kind, p.content)
  {
    assert (ps + [p])[..|ps|] == ps;
  }

  lemma {:induction false} EncodeAppend(ps: seq<Parcel>, qs: seq<Parcel>)
    ensures EncodeAll(ps + qs) == EncodeAll(ps) + EncodeAll(qs)
    ensures RecordsOf(ps + qs) == RecordsOf(ps) + RecordsOf(qs)
    decreases |qs|
  {
    if qs == [] {
      assert ps + qs == ps;
    } else {
      var init, last := qs[..|qs| - 1], qs[|qs| - 1];
      assert qs == init + [last];
      Regroup(ps, init, [last]);
      EncodeAppend(ps, init);
      EncodeOne(ps + init, last);
      EncodeOne(init, last);
      Regroup(EncodeAll(ps), EncodeAll(init), EncodePacket(last.id, last.kind, last.content));
      Regroup(RecordsOf(ps), RecordsOf(init), PacketRecords(last.id, last.kind, last.content));
    }
  }

  lemma FramesJoined(whole: seq<Frame>, middle: seq<Frame>, end: seq<Frame>, rs: seq<Record>, ts: seq<Record>)
    requires whole == Packets(rs) + middle && middle == Packets(ts) + end
    ensures whole == Packets(rs + ts) + end
  {
    PacketsAppend(rs, ts);
  }

  lemma {:induction false} ParcelsReadBack(ps: seq<Parcel>, rest: bytes)
    ensures Frames(EncodeAll(ps) + rest) == Packets(RecordsOf(ps)) + Frames(rest)
    ensures Residue(EncodeAll(ps) + rest) == Residue(rest)
    decreases |ps|
  {
    if ps == [] {
      assert EncodeAll(ps) + rest == rest;
    } else {
      var init, last := ps[..|ps| - 1], ps[|ps| - 1];
      ParcelsReadBack(init, EncodePacket(last.id, last.kind, last.content) + rest);
      PacketRoundTrip(last.id, last.kind, last.content, rest);
      Regroup(EncodeAll(init), EncodePacket(last.id, last.kind, last.content), rest);
      FramesJoined(Frames(EncodeAll(ps) + rest), Frames(EncodePacket(last.id, last.kind, last.content) + rest),
                   Frames(rest), RecordsOf(init), PacketRecords(last.id, last.kind, last.content));
    }
  }

  lemma {:induction false} ParcelsRuled(ps: seq<Parcel>, rest: bytes)
    requires Ruled(rest)
    ensures Ruled(EncodeAll(ps) + rest)
    decreases |ps|
  {
    if ps == [] {
      assert EncodeAll(ps) + rest == rest;
    } else {
      var init, last := ps[..|ps| - 1], ps[|ps| - 1];
      PacketRuled(last.id, last.kind, last.content, rest);
      ParcelsRuled(init, EncodePacket(last.id, last.kind, last.content) + rest);
      Regroup(EncodeAll(init), EncodePacket(last.id, last.kind, last.content), rest);
    }
  }

  // ---------------------------------------------------------------- what gets written

  /** One completed act of writing. */
  datatype Sent =
    | Reply(id: nat, serial: nat, output: Output)
    | Rejection(id: nat)
    | AbortReply(id: nat)
    | ValuesResult(content: bytes)
    | TypeRejected(kind: byte)

  function StreamParcels(id: nat, kind: byte, content: bytes): seq<Parcel> {
    if content == [] then [] else [Parcel(id, kind, Low32(content))]
  }

  /** The first packets of a reply, up to its `n`-th stage. */
  function ReplyStage(id: nat, o: Output, n: nat): seq<Parcel> {
    var ps := StreamParcels(id, STDOUT, o.out);
    if n == 1 then ps else
      var ps2 := ps + StreamParcels(id, STDERR, o.err);
      if n == 2 then ps2 else
        var ps3 := ps2 + [Parcel(id, STDOUT, [])];
        if n == 3 then ps3 else
          var ps4 := ps3 + [Parcel(id, STDERR, [])];
          if n == 4 then ps4 else ps4 + [Parcel(id, END_REQUEST, EndRequestBody(o.status, REQUEST_COMPLETE))]
  }

  function ReplyParcels(id: nat, o: Output): seq<Parcel> {
    ReplyStage(id, o, 5)
  }

  /** The abort answer carries the status constant where a record type belongs. */
  function Parcels(s: Sent): seq<Parcel> {
    match s
    case Reply(id, _, o) => ReplyParcels(id, o)
    case Rejection(id) => [Parcel(id, END_REQUEST, EndRequestBody(0, UNKNOWN_ROLE))]
    case AbortReply(id) => [Parcel(id, REQUEST_COMPLETE, EndRequestBody(1, REQUEST_COMPLETE))]
    case ValuesResult(content) => [Parcel(0, GET_VALUES_RESULT, content)]
    case TypeRejected(kind) => [Parcel(0, UNKNOWN_TYPE, UnknownTypeBody(kind))]
  }

  predicate Fits(s: Sent) {
    s.ValuesResult? ==> |s.content| <= MAX_CONTENT
  }

  predicate Bounded(log: seq<Sent>) {
    forall i :: 0 <= i < |log| ==> Fits(log[i])
  }

  function AllParcels(log: seq<Sent>): seq<Parcel> {
    if log == [] then [] else AllParcels(log[..|log| - 1]) + Parcels(log[|log| - 1])
  }

  lemma LogGrows(log: seq<Sent>, s: Sent)
    ensures AllParcels(log + [s]) == AllParcels(log) + Parcels(s)
    ensures EncodeAll(AllParcels(log + [s])) == EncodeAll(AllParcels(log)) + EncodeAll(Parcels(s))
  {
    assert (log + [s])[..|log|] == log;
    EncodeAppend(AllParcels(log), Parcels(s));
  }

  lemma StreamWritten(l: Link, id: nat, kind: byte, content: bytes)
    ensures var w := SendStream(l, id, kind, content);
      && (w.ok ==> Delivered(l, w.link, EncodeAll(StreamParcels(id, kind, content))))
      && (!w.ok ==> Lost(l, w.link, EncodeAll(StreamParcels(id, kind, content))))
  {
    PacketWritten(l, id, kind, Low32(content));
    if content != [] {
      SingleParcel(Parcel(id, kind, Low32(content)));
    } else {
      assert l.wire + [] == l.wire;
    }
  }

  lemma SingleParcel(p: Parcel)
    ensures EncodeAll([p]) == EncodePacket(p.id, p.kind, p.content)
    ensures RecordsOf([p]) == PacketRecords(p.id, p.kind, p.content)
  {
    assert [] + [p] == [p];
    EncodeOne([], p);
  }

  /** The packets written so far, and whether the last write failed. */
  ghost predicate Progress(l: Link, w: Written, done: seq<Parcel>) {
    if w.ok then Delivered(l, w.link, EncodeAll(done)) else Lost(l, w.link, EncodeAll(done))
  }

  lemma LostEarlier(l: Link, l': Link, done: seq<Parcel>, rest: seq<Parcel>)
    requires Lost(l, l', EncodeAll(done))
    ensures Lost(l, l', EncodeAll(done + rest))
  {
    EncodeAppend(done, rest);
    LostMore(l, l', EncodeAll(done), EncodeAll(rest));
  }

  lemma StreamProgress(l: Link, l': Link, done: seq<Parcel>, id: nat, kind: byte, content: bytes)
    requires Delivered(l, l', EncodeAll(done))
    ensures Progress(l, SendStream(l', id, kind, content), done + StreamParcels(id, kind, content))
  {
    var ps := StreamParcels(id, kind, content);
    StreamWritten(l', id, kind, content);
    DeliveredThen(l, l', SendStream(l', id, kind, content).link, EncodeAll(done), EncodeAll(ps));
    EncodeAppend(done, ps);
  }

  lemma PacketProgress(l: Link, l': Link, done: seq<Parcel>, p: Parcel)
    requires Delivered(l, l', EncodeAll(done))
    ensures Progress(l, WritePacket(l', p.id, p.kind, p.content), done + [p])
  {
    PacketWritten(l', p.id, p.kind, p.content);
    EncodeOne(done, p);
    DeliveredThen(l, l', WritePacket(l', p.id, p.kind, p.content).link,
                  EncodeAll(done), EncodePacket(p.id, p.kind, p.content));
  }

  lemma ReplyStages(id: nat, o: Output)
    ensures forall n :: 1 <= n <= 5 ==> ReplyStage(id, o, n) <= ReplyParcels(id, o)
  {
  }

  lemma LostAtStage(l: Link, l': Link, id: nat, o: Output, n: nat)
    requires 1 <= n <= 5 && Lost(l, l', EncodeAll(ReplyStage(id, o, n)))
    ensures Lost(l, l', EncodeAll(ReplyParcels(id, o)))
  {
    ReplyStages(id, o);
    var done, all := ReplyStage(id, o, n), ReplyParcels(id, o);
    assert done + all[|done|..] == all;
    LostEarlier(l, l', done, all[|done|..]);
  }

  /** A reply arrives whole, or the socket is closed with part of the reply delivered. A whole reply
      empties both buffers. */
  lemma ReplyWritten(l: Link, id: nat, serial: nat, o: Output)
    ensures var s := SendReply(l, id, o);
      && (s.ok ==> Delivered(l, s.link, EncodeAll(Parcels(Reply(id, serial, o)))))
      && (s.ok ==> s.output == Output([], [], o.status))
      && (!s.ok ==> Lost(l, s.link, EncodeAll(Parcels(Reply(id, serial, o)))))
  {
    NothingDelivered(l);
    StreamProgress(l, l, [], id, STDOUT, o.out);
    assert [] + ReplyStage(id, o, 1) == ReplyStage(id, o, 1);
    var w1 := SendStream(l, id, STDOUT, o.out);
    if !w1.ok {
      LostAtStage(l, w1.link, id, o, 1);
    } else {
      StreamProgress(l, w1.link, ReplyStage(id, o, 1), id, STDERR, o.err);
      var w2 := SendStream(w1.link, id, STDERR, o.err);
      if !w2.ok {
        LostAtStage(l, w2.link, id, o, 2);
      } else {
        ControlWritten(l, w2.link, id, o);
      }
    }
  }

  lemma NothingDelivered(l: Link)
    ensures Delivered(l, l, EncodeAll([]))
  {
    assert l.wire + [] == l.wire;
  }

  /** The three packets that close a reply. */
  lemma ControlWritten(l: Link, l': Link, id: nat, o: Output)
    requires Delivered(l, l', EncodeAll(ReplyStage(id, o, 2)))
    ensures var w3 := WritePacket(l', id, STDOUT, []);
      var w4 := WritePacket(w3.link, id, STDERR, []);
      var w5 := WritePacket(w4.link, id, END_REQUEST, EndRequestBody(o.status, REQUEST_COMPLETE));
      var all := EncodeAll(ReplyParcels(id, o));
      && (!w3.ok ==> Lost(l, w3.link, all))
      && (w3.ok && !w4.ok ==> Lost(l, w4.link, all))
      && (w3.ok && w4.ok && !w5.ok ==> Lost(l, w5.link, all))
      && (w3.ok && w4.ok && w5.ok ==> Delivered(l, w5.link, all))
  {
    PacketProgress(l, l', ReplyStage(id, o, 2), Parcel(id, STDOUT, []));
    var w3 := WritePacket(l', id, STDOUT, []);
    if !w3.ok {
      LostAtStage(l, w3.link, id, o, 3);
    } else {
      PacketProgress(l, w3.link, ReplyStage(id, o, 3), Parcel(id, STDERR, []));
      var w4 := WritePacket(w3.link, id, STDERR, []);
      if !w4.ok {
        LostAtStage(l, w4.link, id, o, 4);
      } else {
        var p5 := Parcel(id, END_REQUEST, EndRequestBody(o.status, REQUEST_COMPLETE));
        PacketProgress(l, w4.link, ReplyStage(id, o, 4), p5);
        ReplyStages(id, o);
      }
    }
  }

  // ---------------------------------------------------------------- the peer

  /** One request as the peer sees it end: its streams, how often each stream was ended, and the
      two statuses. */
  datatype Exchange = Exchange(out: bytes, err: bytes, outEnds: nat, errEnds: nat, status: int, protocolStatus: byte)

  /** A peer collecting the records of one request id: type 6 is STDOUT, 7 STDERR, 3 END_REQUEST. */
  datatype Peer = Peer(out: bytes, err: bytes, outEnds: nat, errEnds: nat, received: seq<Exchange>)

  function Idle(received: seq<Exchange>): Peer {
    Peer([], [], 0, 0, received)
  }

  function PeerStep(p: Peer, id: nat, r: Record): Peer {
    if r.requestId != id then p
    else if r.kind == 6 then p.(out := p.out + r.content, outEnds := p.outEnds + if r.content == [] then 1 else 0)
    else if r.kind == 7 then p.(err := p.err + r.content, errEnds := p.errEnds + if r.content == [] then 1 else 0)
    else if r.kind == 3 && |r.content| >= 8 then
      Idle(p.received + [Exchange(p.out, p.err, p.outEnds, p.errEnds, StatusIn(r.content), r.content[4])])
    else p
  }

  function PeerRun(p: Peer, id: nat, rs: seq<Record>): Peer
    decreases |rs|
  {
    if rs == [] then p else PeerRun(PeerStep(p, id, rs[0]), id, rs[1..])
  }

  lemma {:induction false} PeerRunAppend(p: Peer, id: nat, rs: seq<Record>, ts: seq<Record>)
    ensures PeerRun(p, id, rs + ts) == PeerRun(PeerRun(p, id, rs), id, ts)
    decreases |rs|
  {
    if rs == [] {
      assert rs + ts == ts;
    } else {
      assert (rs + ts)[1..] == rs[1..] + ts;
      PeerRunAppend(PeerStep(p, id, rs[0]), id, rs[1..], ts);
    }
  }

  function Hear(p: Peer, kind: byte, content: bytes): Peer
    requires kind == STDOUT || kind == STDERR
  {
    var ends := if content == [] then 1 else 0;
    if kind == STDOUT then p.(out := p.out + content, outEnds := p.outEnds + ends)
    else p.(err := p.err + content, errEnds := p.errEnds + ends)
  }

  lemma {:induction false} StreamHeard(p: Peer, id: nat, kind: byte, content: bytes)
    requires kind == STDOUT || kind == STDERR
    ensures PeerRun(p, id, Stamp(id, kind, Split(content))) == Hear(p, kind, content)
    decreases |content|
  {
    var rs := Stamp(id, kind, Split(content));
    if |content| <= MAX_CONTENT {
      assert rs[1..] == [];
    } else {
      var head, tail := content[..MAX_CONTENT], content[MAX_CONTENT..];
      assert head + tail == content;
      assert rs[1..] == Stamp(id, kind, Split(tail));
      StreamHeard(PeerStep(p, id, rs[0]), id, kind, tail);
      HearTwice(p, kind, head, tail);
    }
  }

  lemma HearTwice(p: Peer, kind: byte, head: bytes, tail: bytes)
    requires kind == STDOUT || kind == STDERR
    requires head != [] && tail != []
    ensures Hear(Hear(p, kind, head), kind, tail) == Hear(p, kind, head + tail)
  {
    assert (p.out + head) + tail == p.out + (head + tail);
    assert (p.err + head) + tail == p.err + (head + tail);
  }

  function Heard(p: Peer, id: nat, ps: seq<Parcel>): Peer {
    PeerRun(p, id, RecordsOf(ps))
  }

  lemma HeardOne(p: Peer, id: nat, ps: seq<Parcel>, q: Parcel)
    ensures Heard(p, id, ps + [q]) == PeerRun(Heard(p, id, ps), id, PacketRecords(q.id, q.kind, q.content))
  {
    EncodeOne(ps, q);
    PeerRunAppend(p, id, RecordsOf(ps), PacketRecords(q.id, q.kind, q.content));
  }

  /** Both streams cut to 32-bit lengths; a stream whose length is a positive multiple of 2^32 is
      ended twice, since its data record comes out empty. */
  function ExchangeOf(o: Output): Exchange {
    Exchange(Low32(o.out), Low32(o.err), Ends(o.out), Ends(o.err), Int32(o.status), 0)
  }

  function Ends(s: bytes): nat {
    if s != [] && Low32(s) == [] then 2 else 1
  }

  function HearStream(p: Peer, kind: byte, content: bytes): Peer
    requires kind == STDOUT || kind == STDERR
  {
    if content == [] then p else Hear(p, kind, Low32(content))
  }

  lemma ParcelsHeard(p: Peer, id: nat, ps: seq<Parcel>, kind: byte, content: bytes)
    requires kind == STDOUT || kind == STDERR
    ensures Heard(p, id % 65536, ps + StreamParcels(id, kind, content))
            == HearStream(Heard(p, id % 65536, ps), kind, content)
  {
    if content == [] {
      assert ps + [] == ps;
    } else {
      HeardOne(p, id % 65536, ps, Parcel(id, kind, Low32(content)));
      StreamHeard(Heard(p, id % 65536, ps), id % 65536, kind, Low32(content));
    }
  }

  /** The peer after the data records of a reply. */
  lemma StreamsHeard(id: nat, o: Output, received: seq<Exchange>)
    ensures Heard(Idle(received), id % 65536, StreamParcels(id, STDOUT, o.out) + StreamParcels(id, STDERR, o.err))
         == Peer(Low32(o.out), Low32(o.err), Ends(o.out) - 1, Ends(o.err) - 1, received)
  {
    var p, p1 := Idle(received), StreamParcels(id, STDOUT, o.out);
    assert [] + p1 == p1;
    ParcelsHeard(p, id, [], STDOUT, o.out);
    ParcelsHeard(p, id, p1, STDERR, o.err);
    assert [] + Low32(o.out) == Low32(o.out) && [] + Low32(o.err) == Low32(o.err);
  }

  /** The peer after the closing records that follow. */
  lemma ClosingHeard(id: nat, status: int, ps: seq<Parcel>, start: Peer, q: Peer)
    requires Heard(start, id % 65536, ps) == q
    ensures Heard(start, id % 65536,
                  ps + [Parcel(id, STDOUT, [])] + [Parcel(id, STDERR, [])]
                  + [Parcel(id, END_REQUEST, EndRequestBody(status, REQUEST_COMPLETE))])
         == Idle(q.received + [Exchange(q.out, q.err, q.outEnds + 1, q.errEnds + 1, Int32(status), REQUEST_COMPLETE)])
  {
    var i := id % 65536;
    var body := EndRequestBody(status, REQUEST_COMPLETE);
    var ps3 := ps + [Parcel(id, STDOUT, [])];
    var ps4 := ps3 + [Parcel(id, STDERR, [])];
    assert q.out + [] == q.out && q.err + [] == q.err;
    HeardOne(start, i, ps, Parcel(id, STDOUT, []));
    SingleRecord(q, i, id, STDOUT, []);
    HeardOne(start, i, ps3, Parcel(id, STDERR, []));
    SingleRecord(Heard(start, i, ps3), i, id, STDERR, []);
    HeardOne(start, i, ps4, Parcel(id, END_REQUEST, body));
    SingleRecord(Heard(start, i, ps4), i, id, END_REQUEST, body);
    StatusRoundTrip(status, REQUEST_COMPLETE);
  }

  lemma ReplyHeard(id: nat, o: Output, received: seq<Exchange>)
    ensures Heard(Idle(received), id % 65536, ReplyParcels(id, o)) == Idle(received + [ExchangeOf(o)])
  {
    var ps := StreamParcels(id, STDOUT, o.out) + StreamParcels(id, STDERR, o.err);
    StreamsHeard(id, o, received);
    ClosingHeard(id, o.status, ps, Idle(received), Heard(Idle(received), id % 65536, ps));
  }

  lemma SingleRecord(p: Peer, i: nat, id: nat, kind: byte, content: bytes)
    requires |content| <= MAX_CONTENT
    ensures PeerRun(p, i, PacketRecords(id, kind, content)) == PeerStep(p, i, Record(id % 65536, kind, content))
  {
    var rs := PacketRecords(id, kind, content);
    assert rs[1..] == [];
  }

  /** The peer gets back both buffers, each stream ended once, and the status, exactly when both
      lengths fit the 32 bits `writePacket` takes. */
  lemma ReplyRoundTripIff(id: nat, o: Output)
    requires id < 65536
    ensures Heard(Idle([]), id, ReplyParcels(id, o)).received
              == [Exchange(o.out, o.err, 1, 1, Int32(o.status), 0)]
            <==> |o.out| < 0x1_0000_0000 && |o.err| < 0x1_0000_0000
  {
    ReplyHeard(id, o, []);
    assert [] + [ExchangeOf(o)] == [ExchangeOf(o)];
    Low32Whole(o.out);
    Low32Whole(o.err);
  }

  /** An output of exactly 2^32 octets arrives as nothing, and its stream is ended twice. */
  lemma LongReplyLost(id: nat, o: Output)
    requires id < 65536 && |o.out| == 0x1_0000_0000 && |o.err| < 0x1_0000_0000
    ensures Heard(Idle([]), id, ReplyParcels(id, o)).received
         == [Exchange([], o.err, 2, 1, Int32(o.status), 0)]
  {
    ReplyHeard(id, o, []);
    assert [] + [ExchangeOf(o)] == [ExchangeOf(o)];
    Low32Whole(o.err);
  }

  // ---------------------------------------------------------------- the whole output stream

  function ExchangesIn(s: Sent, id: nat): seq<Exchange> {
    match s
    case Reply(i, _, o) => if i % 65536 == id then [ExchangeOf(o)] else []
    case Rejection(i) => if i % 65536 == id then [Exchange([], [], 0, 0, 0, 3)] else []
    case _ => []
  }

  /** In the order of the log: the replies to requests of this id and the role rejections. */
  function ExchangesFor(log: seq<Sent>, id: nat): seq<Exchange> {
    if log == [] then [] else ExchangesFor(log[..|log| - 1], id) + ExchangesIn(log[|log| - 1], id)
  }

  lemma {:induction false} ForeignRecords(p: Peer, id: nat, rs: seq<Record>)
    requires forall i :: 0 <= i < |rs| ==> rs[i].requestId != id || rs[i].kind !in {STDOUT, STDERR, END_REQUEST}
    ensures PeerRun(p, id, rs) == p
    decreases |rs|
  {
    if rs != [] {
      ForeignRecords(p, id, rs[1..]);
    }
  }

  lemma {:induction false} ParcelIds(id: nat, ps: seq<Parcel>)
    requires forall i :: 0 <= i < |ps| ==> ps[i].id == id
    ensures forall i :: 0 <= i < |RecordsOf(ps)| ==> RecordsOf(ps)[i].requestId == id % 65536
    decreases |ps|
  {
    if ps != [] {
      ParcelIds(id, ps[..|ps| - 1]);
    }
  }

  lemma ReplySentHeard(i: nat, serial: nat, o: Output, id: nat, received: seq<Exchange>)
    ensures Heard(Idle(received), id, ReplyParcels(i, o)) == Idle(received + ExchangesIn(Reply(i, serial, o), id))
  {
    if i % 65536 == id {
      ReplyHeard(i, o, received);
    } else {
      var s := Reply(i, serial, o);
      ParcelIds(i, Parcels(s));
      ForeignRecords(Idle(received), id, RecordsOf(Parcels(s)));
      assert received + [] == received;
    }
  }

  lemma AnswerSentHeard(s: Sent, id: nat, p: Peer)
    requires !s.Reply? && Fits(s)
    ensures var q := Parcels(s)[0];
      Heard(p, id, Parcels(s)) == PeerStep(p, id, Record(q.id % 65536, q.kind, q.content))
  {
    var q := Parcels(s)[0];
    assert Parcels(s) == [q];
    SingleParcel(q);
    SingleRecord(p, id, q.id, q.kind, q.content);
  }

  /** Of everything written, only a reply and a role rejection complete an exchange, and that of their
      own id. */
  lemma SentHeard(s: Sent, id: nat, received: seq<Exchange>)
    requires Fits(s)
    ensures Heard(Idle(received), id, Parcels(s)) == Idle(received + ExchangesIn(s, id))
  {
    if s.Reply? {
      ReplySentHeard(s.id, s.serial, s.output, id, received);
    } else {
      AnswerSentHeard(s, id, Idle(received));
      StatusRoundTrip(0, UNKNOWN_ROLE);
      assert received + [] == received;
    }
  }

  lemma {:induction false} LogHeard(log: seq<Sent>, id: nat)
    requires Bounded(log)
    ensures Heard(Idle([]), id, AllParcels(log)) == Idle(ExchangesFor(log, id))
    decreases |log|
  {
    if log != [] {
      var init, last := log[..|log| - 1], log[|log| - 1];
      LogHeard(init, id);
      EncodeAppend(AllParcels(init), Parcels(last));
      PeerRunAppend(Idle([]), id, RecordsOf(AllParcels(init)), RecordsOf(Parcels(last)));
      SentHeard(last, id, ExchangesFor(init, id));
    }
  }

  /** A peer reading the octets of a log, and nothing else, demultiplexes for each id exactly that
      id's replies and rejections, complete and in order. */
  lemma OutputDemultiplexed(log: seq<Sent>, id: nat, wire: bytes)
    requires Bounded(log)
    requires wire == EncodeAll(AllParcels(log))
    ensures Residue(wire) == [] && Unsupported !in Frames(wire)
    ensures Received(Frames(wire)) == RecordsOf(AllParcels(log))
    ensures PeerRun(Idle([]), id, Received(Frames(wire))) == Idle(ExchangesFor(log, id))
  {
    ParcelsReadBack(AllParcels(log), []);
    assert wire + [] == wire;
    FramesOfNothing();
    var rs := RecordsOf(AllParcels(log));
    assert Frames(wire) == Packets(rs);
    ReceivedPackets(rs);
    LogHeard(log, id);
  }

  // ---------------------------------------------------------------- an interrupted write

  /** The octets of a log, and a proper part of those of one more act of writing. */
  ghost predicate Torn(wire: bytes, log: seq<Sent>, s: Sent) {
    Fits(s) && EncodeAll(AllParcels(log)) <= wire < EncodeAll(AllParcels(log)) + EncodeAll(Parcels(s))
  }

  predicate NoneEnds(rs: seq<Record>) {
    forall i :: 0 <= i < |rs| ==> rs[i].kind != END_REQUEST
  }

  lemma {:induction false} NoneEndsUnheard(p: Peer, id: nat, rs: seq<Record>)
    requires NoneEnds(rs)
    ensures PeerRun(p, id, rs).received == p.received
    decreases |rs|
  {
    if rs != [] {
      NoneEndsUnheard(PeerStep(p, id, rs[0]), id, rs[1..]);
    }
  }

  lemma {:induction false} ParcelKinds(ps: seq<Parcel>)
    requires forall i :: 0 <= i < |ps| ==> ps[i].kind != END_REQUEST
    ensures NoneEnds(RecordsOf(ps))
    decreases |ps|
  {
    if ps != [] {
      ParcelKinds(ps[..|ps| - 1]);
    }
  }

  lemma LastParcel(s: Sent) returns (init: seq<Parcel>, last: Parcel)
    requires Fits(s)
    ensures Parcels(s) == init + [last] && |last.content| <= MAX_CONTENT
    ensures forall i :: 0 <= i < |init| ==> init[i].kind != END_REQUEST
  {
    if s.Reply? {
      init, last := ReplyStage(s.id, s.output, 4),
                    Parcel(s.id, END_REQUEST, EndRequestBody(s.output.status, REQUEST_COMPLETE));
    } else {
      init, last := [], Parcels(s)[0];
    }
  }

  lemma SingleStamp(p: Parcel)
    requires |p.content| <= MAX_CONTENT
    ensures |PacketRecords(p.id, p.kind, p.content)| == 1
  {
  }

  /** Only the last record of anything written can be an END_REQUEST. */
  lemma LastEnds(s: Sent)
    requires Fits(s)
    ensures var rs := RecordsOf(Parcels(s)); rs != [] && NoneEnds(rs[..|rs| - 1])
  {
    var init, last := LastParcel(s);
    ParcelKinds(init);
    EncodeOne(init, last);
    SingleStamp(last);
    assert RecordsOf(Parcels(s))[..|RecordsOf(init)|] == RecordsOf(init);
  }

  lemma InterruptedUnheard(p: Peer, id: nat, s: Sent, extra: seq<Record>)
    requires Fits(s) && extra < RecordsOf(Parcels(s))
    ensures PeerRun(p, id, extra).received == p.received
  {
    LastEnds(s);
    var rs := RecordsOf(Parcels(s));
    forall i | 0 <= i < |extra| ensures extra[i].kind != END_REQUEST {
      assert extra[i] == rs[..|rs| - 1][i];
    }
    NoneEndsUnheard(p, id, extra);
  }

  /** The complete records of an interrupted write are some of its first ones. */
  lemma PartialRecords(part: bytes, s: Sent) returns (extra: seq<Record>)
    requires part < EncodeAll(Parcels(s))
    ensures Frames(part) == Packets(extra) && extra < RecordsOf(Parcels(s))
  {
    var whole, rs := EncodeAll(Parcels(s)), RecordsOf(Parcels(s));
    ParcelsReadBack(Parcels(s), []);
    FramesOfNothing();
    assert whole + [] == whole;
    assert Frames(whole) == Packets(rs);
    assert part + whole[|part|..] == whole;
    PartialFrames(part, whole[|part|..]);
    extra := rs[..|Frames(part)|];
    assert Frames(part) == Packets(extra);
  }

  lemma PartBehind(a: bytes, b: bytes, wire: bytes)
    requires a <= wire < a + b
    ensures wire == a + wire[|a|..] && wire[|a|..] < b
  {
    assert (a + b)[..|wire|] == wire;
  }

  lemma RecordsGrow(log: seq<Sent>, s: Sent, extra: seq<Record>)
    requires extra < RecordsOf(Parcels(s))
    ensures RecordsOf(AllParcels(log)) <= RecordsOf(AllParcels(log)) + extra < RecordsOf(AllParcels(log + [s]))
  {
    LogGrows(log, s);
    EncodeAppend(AllParcels(log), Parcels(s));
  }

  /** Whatever an interrupted write leaves behind the octets of a log: a peer never reads a record
      that was not being written, and it completes exactly the exchanges of the log. */
  lemma TornOutput(log: seq<Sent>, s: Sent, id: nat, wire: bytes)
    requires Bounded(log) && Torn(wire, log, s)
    ensures Unsupported !in Frames(wire)
    ensures RecordsOf(AllParcels(log)) <= Received(Frames(wire)) < RecordsOf(AllParcels(log + [s]))
    ensures PeerRun(Idle([]), id, Received(Frames(wire))).received == ExchangesFor(log, id)
  {
    var all, rs := EncodeAll(AllParcels(log)), RecordsOf(AllParcels(log));
    var part := wire[|all|..];
    PartBehind(all, EncodeAll(Parcels(s)), wire);
    var extra := PartialRecords(part, s);
    ParcelsReadBack(AllParcels(log), part);
    PacketsAppend(rs, extra);
    ReceivedPackets(rs + extra);
    RecordsGrow(log, s, extra);
    LogHeard(log, id);
    PeerRunAppend(Idle([]), id, rs, extra);
    InterruptedUnheard(PeerRun(Idle([]), id, rs), id, s, extra);
  }
}
