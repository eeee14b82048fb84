/** Where a request's input comes from: from the octets that arrived to what the application reads. */
module Inputs {
  import opened Bytes
  import opened Protocol
  import opened Framing
  import opened Requests
  import opened Machine
  import opened Invariants
  import opened Lifecycle
  import Chunks
  import Replies
  import Runs
  import Values

  // ---------------------------------------------------------------- the records of one request

  /** The octets that arrived in a run. */
  function Arrived(steps: seq<Step>): bytes {
    if steps == [] then [] else
      var last := steps[|steps| - 1];
      Arrived(steps[..|steps| - 1]) + if last.Arrive? then last.chunk else []
  }

  predicate IsRecord(f: Frame, kind: byte, id: nat) {
    f.Packet? && f.record.kind == kind && f.record.requestId == id
  }

  /** The contents of the records of one type and id, in order. */
  function Contents(fs: seq<Frame>, kind: byte, id: nat): seq<bytes> {
    if fs == [] then [] else
      var last := fs[|fs| - 1];
      Contents(fs[..|fs| - 1], kind, id) + if IsRecord(last, kind, id) then [last.record.content] else []
  }

  /** A begin record (type 1) for the responder role, which is 1. */
  predicate Begins(f: Frame, id: nat) {
    IsRecord(f, 1, id) && |f.record.content| >= 8 && f.record.content[0] == 0 && f.record.content[1] == 1
  }

  /** The request was begun by the `k`-th record and not aborted (type 2) since, and is what the STDIN
      (type 5) and PARAMS (type 4) records of its id behind that one make it. */
  predicate BegunAt(e: Entry, id: nat, fs: seq<Frame>, k: nat) {
    && k < |fs| && Begins(fs[k], id)
    && (forall j :: k < j < |fs| ==> !IsRecord(fs[j], 2, id))
    && e == Expected(e.serial, Contents(fs[k + 1..], 5, id), Contents(fs[k + 1..], 4, id))
  }

  ghost predicate Traced(t: Table, fs: seq<Frame>) {
    forall id :: id in t ==> exists k: nat :: BegunAt(t[id], id, fs, k)
  }

  lemma ContentsOne(fs: seq<Frame>, f: Frame, kind: byte, id: nat)
    ensures Contents(fs + [f], kind, id)
         == Contents(fs, kind, id) + if IsRecord(f, kind, id) then [f.record.content] else []
  {
    assert (fs + [f])[..|fs|] == fs;
  }

  /** What one more record does to a request: only stream records of its id matter. */
  function Take(e: Entry, id: nat, f: Frame): Entry {
    if IsRecord(f, STDIN, id) && !e.inDone then TakeStdin(e, f.record.content)
    else if IsRecord(f, PARAMS, id) && !e.paramsDone then TakeParams(e, f.record.content)
    else e
  }

  lemma TakeExpected(serial: nat, stdin: seq<bytes>, params: seq<bytes>, id: nat, f: Frame)
    ensures Take(Expected(serial, stdin, params), id, f)
         == Expected(serial, stdin + if IsRecord(f, STDIN, id) then [f.record.content] else [],
                     params + if IsRecord(f, PARAMS, id) then [f.record.content] else [])
  {
    assert stdin + [] == stdin && params + [] == params;
    if IsRecord(f, STDIN, id) {
      LateChunk(serial, stdin, params, f.record.content);
      if [] !in stdin {
        TakeExpectedStdin(serial, stdin, params, f.record.content);
      }
    } else if IsRecord(f, PARAMS, id) {
      LateChunk(serial, stdin, params, f.record.content);
      if [] !in params {
        TakeExpectedParams(serial, stdin, params, f.record.content);
      }
    }
  }

  lemma BegunAtOne(e: Entry, id: nat, fs: seq<Frame>, k: nat, f: Frame)
    requires BegunAt(e, id, fs, k) && !IsRecord(f, ABORT_REQUEST, id)
    ensures BegunAt(Take(e, id, f), id, fs + [f], k)
  {
    var after := fs[k + 1..];
    assert (fs + [f])[k + 1..] == after + [f];
    ContentsOne(after, f, STDIN, id);
    ContentsOne(after, f, PARAMS, id);
    TakeExpected(e.serial, Contents(after, STDIN, id), Contents(after, PARAMS, id), id, f);
  }

  lemma JustBegun(serial: nat, id: nat, fs: seq<Frame>, f: Frame)
    requires Begins(f, id)
    ensures BegunAt(Fresh(serial), id, fs + [f], |fs|)
  {
    assert (fs + [f])[|fs| + 1..] == [];
  }

  // ---------------------------------------------------------------- one record

  /** Every request of `t'` was in `t` and took the record in, or was begun by it; an aborted one is
      not there. */
  predicate Took(t: Table, t': Table, f: Frame) {
    forall id :: id in t' ==>
      if id in t then t'[id] == Take(t[id], id, f) && !IsRecord(f, ABORT_REQUEST, id)
      else Begins(f, id) && t'[id] == Fresh(t'[id].serial)
  }

  lemma TookTraced(t: Table, t': Table, fs: seq<Frame>, f: Frame)
    requires Traced(t, fs) && Took(t, t', f)
    ensures Traced(t', fs + [f])
  {
    forall id | id in t' ensures exists k: nat :: BegunAt(t'[id], id, fs + [f], k) {
      if id in t {
        var k: nat :| BegunAt(t[id], id, fs, k);
        BegunAtOne(t[id], id, fs, k, f);
      } else {
        JustBegun(t'[id].serial, id, fs, f);
      }
    }
  }

  lemma AnswerTable(c: Core, s: Replies.Sent)
    requires !s.Reply?
    ensures Answer(c, s).core.Table() == c.Table() || Answer(c, s).core.Table() == map[]
  {
  }

  /** Records that no request takes in. */
  predicate Neutral(f: Frame) {
    f.Packet? && f.record.kind !in {STDIN, PARAMS, ABORT_REQUEST}
  }

  lemma NeutralTook(t: Table, t': Table, f: Frame)
    requires Neutral(f) && (t' == t || t' == map[])
    ensures Took(t, t', f)
  {
  }

  lemma AnswerTook(c: Core, s: Replies.Sent, f: Frame)
    requires !s.Reply? && Neutral(f)
    ensures Took(c.Table(), Answer(c, s).core.Table(), f)
  {
    AnswerTable(c, s);
    NeutralTook(c.Table(), Answer(c, s).core.Table(), f);
  }

  lemma AddedTook(t: Table, t': Table, f: Frame, id: nat, serial: nat)
    requires Begins(f, id) && (t' == t || t' == map[] || (id !in t && t' == t[id := Fresh(serial)]))
    ensures Took(t, t', f)
  {
  }

  lemma OnBeginTable(c: Core, id: nat, body: bytes)
    requires |body| >= BODY_LEN && RoleIn(body) == RESPONDER
    ensures var t, t' := c.Table(), OnBegin(c, id, body).core.Table();
      t' == t || t' == map[] || (id !in t && t' == t[id := Fresh(|c.outputs|)])
  {
  }

  lemma OnBeginTook(c: Core, id: nat, body: bytes)
    ensures Took(c.Table(), OnBegin(c, id, body).core.Table(), Packet(Record(id, BEGIN_REQUEST, body)))
  {
    var f := Packet(Record(id, BEGIN_REQUEST, body));
    NeutralTook(c.Table(), c.Table(), f);
    AnswerTook(c, Replies.Rejection(id), f);
    if |body| >= BODY_LEN && RoleIn(body) == RESPONDER {
      OnBeginTable(c, id, body);
      AddedTook(c.Table(), OnBegin(c, id, body).core.Table(), f, id, |c.outputs|);
    }
  }

  lemma AbortRequestTook(c: Core, id: nat, body: bytes)
    ensures Took(c.Table(), AbortRequest(c, id).core.Table(), Packet(Record(id, ABORT_REQUEST, body)))
  {
  }

  lemma OnAbortTook(c: Core, id: nat, body: bytes)
    requires Good(c) && c.link.open
    ensures Took(c.Table(), OnAbort(c, id).core.Table(), Packet(Record(id, ABORT_REQUEST, body)))
  {
    var r := Answer(c, Replies.AbortReply(id));
    AnswerGood(c, Replies.AbortReply(id));
    OnAbortGoesOn(c, id, r);
    AnswerTable(c, Replies.AbortReply(id));
    AbortRequestTook(r.core, id, body);
  }

  lemma OnStreamTook(c: Core, r: Record)
    requires r.kind == PARAMS || r.kind == STDIN
    ensures var e := if r.kind == PARAMS then Params(r.requestId, r.content) else Stdin(r.requestId, r.content);
      Took(c.Table(), OnStream(c, e).core.Table(), Packet(r))
  {
  }

  lemma DispatchTook(c: Core, r: Record)
    requires Good(c) && c.link.open
    ensures Took(c.Table(), Dispatch(c, r).core.Table(), Packet(r))
  {
    if r.kind == GET_VALUES {
      AnswerTook(c, Replies.ValuesResult(Values.Answer(r.content)), Packet(r));
    } else if r.kind == BEGIN_REQUEST {
      OnBeginTook(c, r.requestId, r.content);
    } else if r.kind == ABORT_REQUEST {
      OnAbortTook(c, r.requestId, r.content);
    } else if r.kind == PARAMS || r.kind == STDIN {
      OnStreamTook(c, r);
    } else if r.kind == DATA {
      NeutralTook(c.Table(), c.Table(), Packet(r));
    } else {
      AnswerTook(c, Replies.TypeRejected(r.kind), Packet(r));
    }
  }

  // ---------------------------------------------------------------- one read

  lemma DispatchTraced(c: Core, r: Record, fs: seq<Frame>)
    requires Good(c) && c.link.open && r.requestId < 65536 && Traced(c.Table(), fs)
    ensures Good(Dispatch(c, r).core) && Traced(Dispatch(c, r).core.Table(), fs + [Packet(r)])
  {
    DispatchGood(c, r);
    DispatchTook(c, r);
    TookTraced(c.Table(), Dispatch(c, r).core.Table(), fs, Packet(r));
  }

  lemma TurnTraced(c: Core, b: bytes, d: Core, rest: bytes, fs: seq<Frame>, f: Frame)
    requires ReadLoop(c, b) == ReadLoop(d, rest) && Frames(b) == [f] + Frames(rest)
    requires Traced(ReadLoop(d, rest).core.Table(), (fs + [f]) + Frames(rest))
    ensures Traced(ReadLoop(c, b).core.Table(), fs + Frames(b))
  {
    Regroup(fs, [f], Frames(rest));
  }

  /** What one turn of the loop leaves to the next. */
  ghost predicate Going(c: Core, b: bytes, fs: seq<Frame>) {
    Good(c) && c.link.open && ReadLoop(c, b).core.link.open && Traced(c.Table(), fs)
  }

  lemma OneTurn(c: Core, b: bytes, fs: seq<Frame>, f: Frame, size: nat) returns (d: Core)
    requires Going(c, b, fs) && NextFrame(b) == Next(f, size)
    ensures Going(d, b[size..], fs + [f]) && ReadLoop(c, b) == ReadLoop(d, b[size..])
  {
    match f
    case Unsupported =>
      TookTraced(c.Table(), c.Table(), fs, f);
      d := c;
    case Packet(r) =>
      DispatchTraced(c, r, fs);
      Chunks.OpenTurn(c, b, r, size);
      d := Dispatch(c, r).core;
  }

  lemma {:induction false} ReadTraced(c: Core, b: bytes, fs: seq<Frame>)
    requires Going(c, b, fs)
    ensures Traced(ReadLoop(c, b).core.Table(), fs + Frames(b))
    decreases |b|
  {
    match NextFrame(b)
    case Wait =>
      assert fs + Frames(b) == fs;
    case Next(f, size) =>
      FramesTurn(b, f, size);
      var d := OneTurn(c, b, fs, f, size);
      ReadTraced(d, b[size..], fs + [f]);
      TurnTraced(c, b, d, b[size..], fs, f);
  }

  // ---------------------------------------------------------------- whole runs

  predicate Within(t': Table, t: Table) {
    forall id :: id in t' ==> id in t && t'[id] == t[id]
  }

  lemma CleanUpWithin(c: Core, h: Handle)
    ensures Within(CleanUp(c, h).core.Table(), c.Table())
  {
  }

  lemma CommitWithin(c: Core, h: Handle)
    ensures Within(CommitReply(c, h).core.Table(), c.Table())
  {
    var s := Replies.SendReply(c.link, h.id, OutputAt(c, h.serial));
    CleanUpWithin(SetOutput(c.(link := s.link), h.serial, s.output)
                  .(log := c.log + [Replies.Reply(h.id, h.serial, OutputAt(c, h.serial))]), h);
  }

  lemma WithinTraced(t: Table, t': Table, fs: seq<Frame>)
    requires Traced(t, fs) && Within(t', t)
    ensures Traced(t', fs)
  {
  }

  lemma CommitStaysClosed(c: Core, h: Handle)
    ensures !c.link.open ==> !CommitReply(c, h).core.link.open
  {
  }

  lemma StepStaysClosed(c: Conn, step: Step)
    ensures !c.core.link.open ==> !Perform(c, step).core.link.open
  {
    if step.Run? && step.index < |c.queue| {
      CommitStaysClosed(c.core, c.queue[step.index]);
    }
  }

  /** The input of the connection is what the octets leave, its requests are what their records make
      them. */
  ghost predicate Fed(c: Conn, octets: bytes) {
    c.input == Residue(octets) && Traced(c.core.Table(), Frames(octets))
  }

  lemma SupportedPrefix(a: bytes, b: bytes)
    requires AllSupported(a + b)
    ensures AllSupported(a)
    ensures Frames(a + b) == Frames(a) + Frames(Residue(a) + b) && Residue(a + b) == Residue(Residue(a) + b)
  {
    SupportedPrefixSafe(a, b);
    SafeCutAppend(a, b);
  }

  lemma ArriveFed(c: Conn, octets: bytes, chunk: bytes)
    requires ConnGood(c) && c.core.link.open && Fed(c, octets)
    requires AllSupported(octets + chunk) && Perform(c, Arrive(chunk)).core.link.open
    ensures Fed(Perform(c, Arrive(chunk)), octets + chunk)
  {
    SupportedPrefix(octets, chunk);
    Chunks.OneArrival(c, chunk);
    ReadTraced(c.core, c.input + chunk, Frames(octets));
    Chunks.ReadInSync(c.core, c.input + chunk);
  }

  lemma StepFed(c: Conn, octets: bytes, step: Step)
    requires ConnGood(c) && c.core.link.open && Fed(c, octets) && Perform(c, step).core.link.open
    requires AllSupported(octets + if step.Arrive? then step.chunk else [])
    ensures Fed(Perform(c, step), octets + if step.Arrive? then step.chunk else [])
  {
    assert octets + [] == octets;
    match step
    case Arrive(chunk) =>
      ArriveFed(c, octets, chunk);
    case ReadFails(chunk) =>
      ReadErrorGood(c.core);
    case Run(index) =>
      if index < |c.queue| {
        CommitWithin(c.core, c.queue[index]);
        WithinTraced(c.core.Table(), CommitReply(c.core, c.queue[index]).core.Table(), Frames(octets));
      }
    case _ =>
  }

  /** A connection that is still open has lost no write, so it is good. */
  lemma OpenGood(c: Conn, steps: seq<Step>)
    requires ConnGood(c) && Walk(c, steps).core.link.open
    ensures ConnGood(Walk(c, steps))
  {
    WalkSound(c, steps);
    Runs.UnbrokenPeaceful(c, steps);
    RunGoodIff(c, steps);
  }

  lemma {:induction false} WalkFed(c: Conn, steps: seq<Step>)
    requires ConnGood(c) && c.core.Table() == map[] && c.input == []
    requires Walk(c, steps).core.link.open && AllSupported(Arrived(steps))
    ensures Fed(Walk(c, steps), Arrived(steps))
    decreases |steps|
  {
    if steps == [] {
      FramesOfNothing();
    } else {
      var init, last := steps[..|steps| - 1], steps[|steps| - 1];
      StepStaysClosed(Walk(c, init), last);
      SupportedPrefix(Arrived(init), if last.Arrive? then last.chunk else []);
      OpenGood(c, init);
      WalkFed(c, init);
      StepFed(Walk(c, init), Arrived(init), last);
    }
  }

  /** In every run, however its octets are cut into chunks and whatever happens in between: as long as
      the connection is open, each request in the table was begun by a record of its id, has not been
      aborted since, and has for its input exactly the contents of the stream records of its id behind
      that one; and it has been announced if and only if both its streams have ended. */
  lemma RequestOfOctets(budget: nat, partial: nat, noise: int, steps: seq<Step>, id: nat)
    requires Walk(Initial(budget, partial, noise), steps).core.link.open && AllSupported(Arrived(steps))
    requires id in Walk(Initial(budget, partial, noise), steps).core.Table()
    ensures var c := Walk(Initial(budget, partial, noise), steps).core; var e := c.Table()[id];
      && (exists k: nat :: BegunAt(e, id, Frames(Arrived(steps)), k))
      && (Handle(id, e.serial) in c.history.announced <==> e.inDone && e.paramsDone)
  {
    var c := Initial(budget, partial, noise);
    InitialGood(budget, partial, noise);
    WalkFed(c, steps);
    OpenGood(c, steps);
    var d := Walk(c, steps).core;
    if Handle(id, d.Table()[id].serial) in d.history.announced {
      OnlyCompleteValid(d, Handle(id, d.Table()[id].serial));
    }
  }
}
