/** What a connection does about one record, and what its peer then reads, in plain octets: record types,
    roles, flags and status codes are spelled as numbers here, those of sections 4, 5 and 8 of the FastCGI
    Specification. */
module Answers {
  import opened Bytes
  import opened Framing
  import opened Pairs
  import opened Links
  import opened Replies
  import opened Requests
  import opened Machine
  import opened Invariants
  import opened Lifecycle
  import opened WindDowns
  import Chunks
  import Protocol
  import Runs
  import Values

  // ---------------------------------------------------------------- one record arrives

  /** Open, and nothing left in the buffer. */
  ghost predicate Listening(c: Conn) {
    ConnGood(c) && c.core.link.open && c.input == []
  }

  lemma OneRecordRead(c: Core, b: bytes, r: Record)
    requires Holds(b, r) && !Dispatch(c, r).verdict.Asserted?
    ensures ReadLoop(c, b) == Reading(Dispatch(c, r).core, [], false)
  {
    assert b[|b|..] == [];
    PacketTurn(c, b, Dispatch(c, r));
    Chunks.EmptyRead(Dispatch(c, r).core);
  }

  /** A record that arrives alone is dispatched, and the buffer is empty again. */
  lemma RecordArrives(c: Conn, b: bytes, r: Record)
    requires Listening(c) && Holds(b, r)
    ensures Perform(c, Arrive(b)) == c.(core := Dispatch(c.core, r).core) && ConnGood(Perform(c, Arrive(b)))
  {
    DispatchGood(c.core, r);
    OneRecordRead(c.core, b, r);
    assert c.input + b == b;
    Chunks.OneArrival(c, b);
    DispatchExtends(c.core, r);
    QueueKept(c.queue, c.core.history, Dispatch(c.core, r).core.history);
  }

  // ---------------------------------------------------------------- what the peer reads

  /** The peer reads these records behind those it has read before, and nothing else. */
  predicate Grew(l: Link, l': Link, rs: seq<Record>) {
    && Received(Frames(l'.wire)) == Received(Frames(l.wire)) + rs
    && Residue(l'.wire) == [] && Unsupported !in Frames(l'.wire)
  }

  lemma SentGrew(c: Core, d: Core, s: Sent)
    requires OnWire(c.link, c.log) && OnWire(d.link, d.log) && !c.link.broken && !d.link.broken
    requires d.log == c.log + [s]
    ensures Grew(c.link, d.link, RecordsOf(Parcels(s)))
  {
    OutputDemultiplexed(c.log, 0, c.link.wire);
    OutputDemultiplexed(d.log, 0, d.link.wire);
    LogGrows(c.log, s);
    EncodeAppend(AllParcels(c.log), Parcels(s));
  }

  lemma SingleRecords(p: Parcel)
    requires |p.content| <= 65535
    ensures RecordsOf([p]) == [Record(p.id % 65536, p.kind, p.content)]
  {
    SingleParcel(p);
    assert Split(p.content) == [p.content];
    assert PacketRecords(p.id, p.kind, p.content) == [Record(p.id % 65536, p.kind, p.content)];
  }

  /** Nothing but the wire and the log has changed. */
  predicate OnlyWrote(c: Conn, d: Conn) {
    d == c.(core := c.core.(link := d.core.link, log := d.core.log))
  }

  /** What is sent in one record. */
  function RecordFor(s: Sent): Record
    requires !s.Reply?
  {
    match s
    case Rejection(id) => Record(id, 3, [0, 0, 0, 0, 3, 0, 0, 0])
    case AbortReply(id) => Record(id, 0, [0, 0, 0, 1, 0, 0, 0, 0])
    case ValuesResult(content) => Record(0, 10, content)
    case TypeRejected(kind) => Record(0, 11, [kind, 0, 0, 0, 0, 0, 0, 0])
  }

  lemma RecordSent(s: Sent)
    requires !s.Reply? && Fits(s) && RecordFor(s).requestId < 65536
    ensures RecordsOf(Parcels(s)) == [RecordFor(s)]
  {
    var p := Parcels(s)[0];
    assert Parcels(s) == [p];
    assert RecordFor(s) == Record(p.id % 65536, p.kind, p.content);
    SingleRecords(p);
  }

  lemma AnswerGrew(c: Core, s: Sent)
    requires Good(c) && c.link.open && c.link.budget > 0 && !s.Reply? && Fits(s) && RecordFor(s).requestId < 65536
    ensures var d := Answer(c, s).core;
      d == c.(link := d.link, log := c.log + [s]) && Grew(c.link, d.link, [RecordFor(s)])
  {
    AnswerTaken(c, s);
    AnswerSound(c, s);
    SentGrew(c, Answer(c, s).core, s);
    RecordSent(s);
  }

  /** A record that is answered by one record. */
  lemma AnsweredArrival(c: Conn, b: bytes, r: Record, s: Sent)
    requires Listening(c) && c.core.link.budget > 0 && Holds(b, r)
    requires !s.Reply? && Fits(s) && RecordFor(s).requestId < 65536
    requires Dispatch(c.core, r) == Answer(c.core, s)
    ensures var d := Perform(c, Arrive(b));
      ConnGood(d) && OnlyWrote(c, d) && Grew(c.core.link, d.core.link, [RecordFor(s)])
  {
    RecordArrives(c, b, r);
    AnswerGrew(c.core, s);
  }

  // ---------------------------------------------------------------- management records

  /** Type 9, GET_VALUES, whatever its id: one record of type 10 and id 0, whose content parses to the
      names asked for among the three, with their values. */
  lemma ValuesAnswered(c: Conn, b: bytes, id: nat, query: bytes) returns (answer: bytes)
    requires Listening(c) && c.core.link.budget > 0 && Holds(b, Record(id, 9, query))
    ensures Values.Answers(Parse(answer), Parse(query))
    ensures var d := Perform(c, Arrive(b));
      ConnGood(d) && OnlyWrote(c, d) && Grew(c.core.link, d.core.link, [Record(0, 10, answer)])
  {
    answer := Values.Answer(query);
    Values.AnswerShort(query);
    AnsweredArrival(c, b, Record(id, 9, query), ValuesResult(answer));
    Values.AnswerReadsBack(query);
  }

  /** A type that is none of BEGIN, ABORT, PARAMS, STDIN, DATA and GET_VALUES: one record of type 11 and
      id 0 that names the type. */
  lemma UnknownAnswered(c: Conn, b: bytes, id: nat, kind: byte, body: bytes)
    requires Listening(c) && c.core.link.budget > 0 && Holds(b, Record(id, kind, body))
    requires kind !in {1, 2, 4, 5, 8, 9}
    ensures var d := Perform(c, Arrive(b));
      ConnGood(d) && OnlyWrote(c, d) && Grew(c.core.link, d.core.link, [Record(0, 11, [kind, 0, 0, 0, 0, 0, 0, 0])])
  {
    UnknownRejected(c.core, Record(id, kind, body));
    AnsweredArrival(c, b, Record(id, kind, body), TypeRejected(kind));
  }

  lemma UnknownRejected(c: Core, r: Record)
    requires r.kind !in {1, 2, 4, 5, 8, 9}
    ensures Dispatch(c, r) == Answer(c, TypeRejected(r.kind))
  {
  }

  /** Type 8, DATA, is dropped. */
  lemma DataDropped(c: Conn, b: bytes, id: nat, body: bytes)
    requires Listening(c) && Holds(b, Record(id, 8, body))
    ensures Perform(c, Arrive(b)) == c
  {
    RecordArrives(c, b, Record(id, 8, body));
  }

  // ---------------------------------------------------------------- begin records

  /** Type 1 with fewer than eight octets of content is dropped. */
  lemma ShortBeginDropped(c: Conn, b: bytes, id: nat, body: bytes)
    requires Listening(c) && Holds(b, Record(id, 1, body)) && |body| < 8
    ensures Perform(c, Arrive(b)) == c
  {
    RecordArrives(c, b, Record(id, 1, body));
  }

  /** Type 1 for another role than 1: one END_REQUEST record, type 3, of that id with protocol status 3
      and application status 0. */
  lemma RoleRejected(c: Conn, b: bytes, id: nat, body: bytes)
    requires Listening(c) && c.core.link.budget > 0 && Holds(b, Record(id, 1, body)) && |body| >= 8
    requires !(body[0] == 0 && body[1] == 1)
    ensures var d := Perform(c, Arrive(b));
      ConnGood(d) && OnlyWrote(c, d) && Grew(c.core.link, d.core.link, [Record(id, 3, [0, 0, 0, 0, 3, 0, 0, 0])])
  {
    OtherRole(c.core, Record(id, 1, body));
    AnsweredArrival(c, b, Record(id, 1, body), Rejection(id));
  }

  lemma OtherRole(c: Core, r: Record)
    requires r.kind == 1 && |r.content| >= 8 && !(r.content[0] == 0 && r.content[1] == 1)
    ensures Dispatch(c, r) == Answer(c, Rejection(r.requestId))
  {
  }

  /** Type 1 for role 1 and an id not in use: an empty request with empty output, and the connection
      winds down exactly if the lowest flag bit, FCGI_KEEP_CONN, is clear. Nothing is written. */
  lemma BeginAccepted(c: Conn, b: bytes, id: nat, body: bytes)
    requires Listening(c) && Holds(b, Record(id, 1, body)) && |body| >= 8 && body[0] == 0 && body[1] == 1
    requires id !in c.core.Table()
    ensures var d := Perform(c, Arrive(b));
      && ConnGood(d) && d.core.link == c.core.link && d.queue == c.queue && d.input == []
      && d.core.Table() == c.core.Table()[id := Entry(|c.core.outputs|, false, false, [], [], map[])]
      && d.core.outputs == c.core.outputs + [Output([], [], c.core.noise)]
      && d.core.history.announced == c.core.history.announced
      && d.core.phase == if body[2] % 2 == 0 then Closing else c.core.phase
  {
    RecordArrives(c, b, Record(id, 1, body));
    assert c.core.history.announced + [] == c.core.history.announced;
    assert id in BeginRequest(c.core, id).core.Table();
  }

  /** An id in use: nothing changes but the record of what was thrown, whatever the flags say. */
  lemma BeginDuplicate(c: Conn, b: bytes, id: nat, body: bytes)
    requires Listening(c) && Holds(b, Record(id, 1, body)) && |body| >= 8 && body[0] == 0 && body[1] == 1
    requires id in c.core.Table()
    ensures var d := Perform(c, Arrive(b));
      d == c.(core := c.core.(heard := d.core.heard,
                              history := c.core.history.(rejected := d.core.history.rejected)))
  {
    RecordArrives(c, b, Record(id, 1, body));
    assert c.core.history.announced + [] == c.core.history.announced;
  }

  // ---------------------------------------------------------------- abort records

  /** What an abort that the peer lets be answered comes to. */
  predicate Aborts(c: Core, d: Core, id: nat) {
    && Grew(c.link, d.link, [Record(id, 0, [0, 0, 0, 1, 0, 0, 0, 0])])
    && d.outputs == c.outputs && d.history.announced == c.history.announced
    && d.Table() == c.Table() - {id}
    && (id in c.Table() ==> c.Table()[id].serial < |d.begun| && d.begun[c.Table()[id].serial].fate == Aborted)
    && (d.phase.Closed? <==> c.phase.Closing? && c.Table().Keys == {id})
  }

  /** Type 2, ABORT_REQUEST: one record of that id and of type 0, with application status 1, whether or
      not there is such a request; a live one leaves, aborted. */
  lemma AbortAnswers(c: Conn, b: bytes, id: nat, body: bytes)
    requires Listening(c) && c.core.link.budget > 0 && Holds(b, Record(id, 2, body))
    ensures var d := Perform(c, Arrive(b));
      ConnGood(d) && d.queue == c.queue && Aborts(c.core, d.core, id)
  {
    RecordArrives(c, b, Record(id, 2, body));
    AbortedOnWire(c.core, id);
    AbortDispatched(c.core, Record(id, 2, body));
  }

  lemma AbortDispatched(c: Core, r: Record)
    requires r.kind == 2
    ensures Dispatch(c, r) == OnAbort(c, r.requestId)
  {
  }

  lemma AbortedOnWire(c: Core, id: nat)
    requires Good(c) && c.link.open && c.link.budget > 0 && id < 65536
    ensures Aborts(c, OnAbort(c, id).core, id)
  {
    AbortCounts(c, id);
    AbortSound(c, id);
    SentGrew(c, OnAbort(c, id).core, AbortReply(id));
    RecordSent(AbortReply(id));
    if id in c.Table() {
      AbortFate(c, id);
    }
  }

  lemma AbortFate(c: Core, id: nat)
    requires Good(c) && c.link.open && c.link.budget > 0 && id in c.Table()
    ensures c.Table()[id].serial < |OnAbort(c, id).core.begun|
    ensures OnAbort(c, id).core.begun[c.Table()[id].serial].fate == Aborted
  {
    var r := Answer(c, AbortReply(id));
    AnswerTaken(c, AbortReply(id));
    OnAbortGoesOn(c, id, r);
    Runs.AbortFates(r.core, id);
  }

  // ---------------------------------------------------------------- commits

  /** A stream whose length goes through 32 bits, in records of at most 65535 octets. */
  function StreamRecords(id: nat, kind: byte, content: bytes): seq<Record> {
    if content == [] then [] else Stamp(id, kind, Split(content[..|content| % 0x1_0000_0000]))
  }

  /** The records of a reply: the output as type 6 and the error text as type 7, an empty record ending
      each, and a record of type 3 with the status, high octet first, and protocol status 0. */
  function ReplyRecords(id: nat, o: Output): seq<Record> {
    StreamRecords(id, 6, o.out) + StreamRecords(id, 7, o.err)
    + [Record(id, 6, []), Record(id, 7, []),
       Record(id, 3, [o.status / 0x100_0000 % 256, o.status / 0x1_0000 % 256, o.status / 256 % 256, o.status % 256,
                      0, 0, 0, 0])]
  }

  lemma StreamRecorded(id: nat, kind: byte, content: bytes)
    requires id < 65536
    ensures RecordsOf(StreamParcels(id, kind, content)) == StreamRecords(id, kind, content)
  {
    if content != [] {
      var p := Parcel(id, kind, Low32(content));
      assert StreamParcels(id, kind, content) == [p];
      SingleParcel(p);
      assert Low32(content) == content[..|content| % 0x1_0000_0000];
    }
  }

  lemma OneRecorded(ps: seq<Parcel>, p: Parcel, rs: seq<Record>)
    requires RecordsOf(ps) == rs && p.id < 65536 && |p.content| <= 65535
    ensures RecordsOf(ps + [p]) == rs + [Record(p.id, p.kind, p.content)]
  {
    EncodeAppend(ps, [p]);
    SingleRecords(p);
  }

  lemma StreamsRecorded(id: nat, o: Output)
    requires id < 65536
    ensures RecordsOf(ReplyStage(id, o, 2)) == StreamRecords(id, 6, o.out) + StreamRecords(id, 7, o.err)
  {
    StreamRecorded(id, 6, o.out);
    StreamRecorded(id, 7, o.err);
    EncodeAppend(StreamParcels(id, 6, o.out), StreamParcels(id, 7, o.err));
  }

  lemma ThreeRecorded(ps: seq<Parcel>, p: Parcel, q: Parcel, r: Parcel)
    requires p.id < 65536 && q.id < 65536 && r.id < 65536
    requires |p.content| <= 65535 && |q.content| <= 65535 && |r.content| <= 65535
    ensures RecordsOf(ps + [p] + [q] + [r])
         == RecordsOf(ps) + [Record(p.id, p.kind, p.content), Record(q.id, q.kind, q.content),
                             Record(r.id, r.kind, r.content)]
  {
    OneRecorded(ps, p, RecordsOf(ps));
    OneRecorded(ps + [p], q, RecordsOf(ps + [p]));
    OneRecorded(ps + [p] + [q], r, RecordsOf(ps + [p] + [q]));
  }

  lemma StatusOctets(status: int)
    ensures Protocol.EndRequestBody(status, 0)
         == [status / 0x100_0000 % 256, status / 0x1_0000 % 256, status / 256 % 256, status % 256, 0, 0, 0, 0]
  {
  }

  lemma ReplyRecorded(id: nat, serial: nat, o: Output)
    requires id < 65536
    ensures RecordsOf(Parcels(Reply(id, serial, o))) == ReplyRecords(id, o)
  {
    StreamsRecorded(id, o);
    StatusOctets(o.status);
    ThreeRecorded(ReplyStage(id, o, 2), Parcel(id, 6, []), Parcel(id, 7, []),
                  Parcel(id, 3, Protocol.EndRequestBody(o.status, 0)));
  }

  /** A commit that is still valid, on a peer that takes the whole reply: the peer reads exactly the
      records of the request's output of that moment, under its id. */
  lemma CommitAnswered(c: Conn, index: nat)
    requires ConnGood(c) && index < |c.queue| && IsValid(c.core, c.queue[index])
    requires !Perform(c, Run(index)).core.link.broken
    ensures var h, d := c.queue[index], Perform(c, Run(index));
      && h.serial < |c.core.outputs| && ConnGood(d)
      && Grew(c.core.link, d.core.link, ReplyRecords(h.id, c.core.outputs[h.serial]))
      && d.core.log == c.core.log + [Reply(h.id, h.serial, c.core.outputs[h.serial])]
      && d.core.Table() == c.core.Table() - {h.id}
  {
    RunIs(c, index);
    RunGood(c, index);
    CommitGrew(c.core, c.queue[index]);
  }

  lemma RunIs(c: Conn, index: nat)
    requires !c.failed && index < |c.queue|
    ensures Perform(c, Run(index)) == RunCommit(c, index)
    ensures Perform(c, Run(index)).core == CommitReply(c.core, c.queue[index]).core
  {
  }

  lemma CommitGrew(c: Core, h: Handle)
    requires Good(c) && h in c.history.announced && IsValid(c, h) && !CommitReply(c, h).core.link.broken
    ensures var d := CommitReply(c, h).core;
      && h.serial < |c.outputs|
      && Grew(c.link, d.link, ReplyRecords(h.id, c.outputs[h.serial]))
      && d.log == c.log + [Reply(h.id, h.serial, c.outputs[h.serial])]
      && d.Table() == c.Table() - {h.id}
  {
    var o := c.outputs[h.serial];
    CommitSound(c, h);
    if !SendReply(c.link, h.id, o).ok {
      CommitRefused(c, h);
    }
    CommitCounts(c, h);
    SentGrew(c, CommitReply(c, h).core, Reply(h.id, h.serial, o));
    ReplyRecorded(h.id, h.serial, o);
  }

  lemma WholeExchange(o: Output)
    requires |o.out| < 0x1_0000_0000 && |o.err| < 0x1_0000_0000
    ensures ExchangeOf(o) == Exchange(o.out, o.err, 1, 1, Int32(o.status), 0)
  {
    Low32Whole(o.out);
    Low32Whole(o.err);
  }

  lemma RecordsHeard(id: nat, o: Output, received: seq<Exchange>)
    requires id < 65536
    ensures PeerRun(Idle(received), id, ReplyRecords(id, o)) == Idle(received + [ExchangeOf(o)])
  {
    ReplyRecorded(id, 0, o);
    ReplyHeard(id, o, received);
  }

  /** The records of a reply make the peer of its id complete exactly that exchange. */
  lemma ReplyCompletes(c: Core, h: Handle, o: Output)
    requires Sound(c) && !c.link.broken && h.id < 65536 && |o.out| < 0x1_0000_0000 && |o.err| < 0x1_0000_0000
    ensures var p := PeerRun(Idle([]), h.id, Received(Frames(c.link.wire)));
      PeerRun(p, h.id, ReplyRecords(h.id, o))
      == Idle(p.received + [Exchange(o.out, o.err, 1, 1, Int32(o.status), 0)])
  {
    OutputDemultiplexed(c.log, h.id, c.link.wire);
    RecordsHeard(h.id, o, ExchangesFor(c.log, h.id));
    WholeExchange(o);
  }

  // ---------------------------------------------------------------- whole runs

  /** In every run without a write error the wire is nothing but records, each padded with fewer than
      eight zero octets to a multiple of eight. */
  lemma WireRuled(budget: nat, partial: nat, noise: int, steps: seq<Step>)
    requires !Walk(Initial(budget, partial, noise), steps).core.link.broken
    ensures var wire := Walk(Initial(budget, partial, noise), steps).core.link.wire;
      Ruled(wire) && |wire| % 8 == 0
  {
    InitialGood(budget, partial, noise);
    WalkSound(Initial(budget, partial, noise), steps);
    var c := Walk(Initial(budget, partial, noise), steps).core;
    ParcelsRuled(AllParcels(c.log), []);
    assert c.link.wire + [] == c.link.wire;
    RuledAligned(c.link.wire);
  }
}
