/** Consequences over whole runs: the output as the peer sees it, stale commits, conservation. */
module Runs {
  import opened Bytes
  import opened Protocol
  import opened Framing
  import opened Links
  import opened Replies
  import opened Requests
  import opened Machine
  import opened Invariants
  import opened Lifecycle
  import Values

  // ---------------------------------------------------------------- runs without write errors

  lemma AnswerBroken(c: Core, s: Sent)
    requires !s.Reply?
    ensures c.link.broken ==> Answer(c, s).core.link.broken
    ensures c.link.open && c.link.budget == 0 && |Parcels(s)[0].content| <= MAX_CONTENT ==>
            Answer(c, s).core.link.broken
  {
    var p := Parcels(s)[0];
    PacketWritten(c.link, p.id, p.kind, p.content);
  }

  lemma DispatchBroken(c: Core, r: Record)
    ensures c.link.broken ==> Dispatch(c, r).core.link.broken
    ensures c.link.open && LosesAbort(c, r) ==> Dispatch(c, r).core.link.broken
  {
    if r.kind == GET_VALUES {
      AnswerBroken(c, ValuesResult(Values.Answer(r.content)));
    } else if r.kind == BEGIN_REQUEST {
      AnswerBroken(c, Rejection(r.requestId));
    } else if r.kind == ABORT_REQUEST {
      AnswerBroken(c, AbortReply(r.requestId));
    } else if r.kind !in {PARAMS, STDIN, DATA} {
      AnswerBroken(c, TypeRejected(r.kind));
    }
  }

  lemma {:induction false} ReadBroken(c: Core, b: bytes)
    ensures c.link.broken ==> ReadLoop(c, b).core.link.broken
    decreases |b|
  {
    match NextFrame(b)
    case Wait =>
    case Next(Unsupported, size) =>
      ReadBroken(c, b[size..]);
    case Next(Packet(r), size) =>
      DispatchBroken(c, r);
      ReadBroken(Dispatch(c, r).core, b[size..]);
  }

  lemma {:induction false} UnbrokenReadPeaceful(c: Core, b: bytes)
    requires c.link.open && !ReadLoop(c, b).core.link.broken
    requires Good(c)
    ensures Peaceful(c, Frames(b))
    decreases |b|
  {
    match NextFrame(b)
    case Wait =>
    case Next(f, size) =>
      assert Frames(b)[0] == f && Frames(b)[1..] == Frames(b[size..]);
      match f
      case Unsupported =>
        UnbrokenReadPeaceful(c, b[size..]);
      case Packet(r) =>
        var d := Dispatch(c, r).core;
        DispatchGood(c, r);
        DispatchBroken(c, r);
        ReadBroken(d, b[size..]);
        if d.link.open {
          UnbrokenReadPeaceful(d, b[size..]);
        }
  }

  lemma CommitBroken(c: Core, h: Handle)
    ensures c.link.broken ==> CommitReply(c, h).core.link.broken
  {
    ReplyWritten(c.link, h.id, h.serial, OutputAt(c, h.serial));
  }

  lemma StepBroken(c: Conn, step: Step)
    ensures c.core.link.broken ==> Perform(c, step).core.link.broken
  {
    match step
    case Arrive(chunk) => ReadBroken(c.core, c.input + chunk);
    case Run(index) =>
      if index < |c.queue| {
        CommitBroken(c.core, c.queue[index]);
      }
    case _ =>
  }

  /** A run in which no socket write fails is peaceful. */
  lemma {:induction false} UnbrokenPeaceful(c: Conn, steps: seq<Step>)
    requires ConnGood(c) && !Walk(c, steps).core.link.broken
    ensures WalkPeaceful(c, steps)
    decreases |steps|
  {
    if steps != [] {
      var k := |steps| - 1;
      var d := Walk(c, steps[..k]);
      StepBroken(d, steps[k]);
      UnbrokenPeaceful(c, steps[..k]);
      RunGoodIff(c, steps[..k]);
      if steps[k].Arrive? && d.core.link.open {
        UnbrokenReadPeaceful(d.core, d.input + steps[k].chunk);
      }
    }
  }

  /** What a peer makes of the wire: complete records of the server's and nothing else, those of the
      log first and then at most some of the one write that failed. Collecting the records of one id,
      it completes exactly the exchanges of the log. Without a failed write nothing is left over. */
  ghost predicate Collected(l: Link, log: seq<Sent>, id: nat) {
    var rs := Received(Frames(l.wire));
    && Unsupported !in Frames(l.wire)
    && PeerRun(Idle([]), id, rs).received == ExchangesFor(log, id)
    && (!l.broken ==> Residue(l.wire) == [] && rs == RecordsOf(AllParcels(log)))
    && (!l.broken ==> PeerRun(Idle([]), id, rs) == Idle(ExchangesFor(log, id)))
    && (l.broken ==> exists s: Sent :: Fits(s) && Interrupted(rs, log, s))
  }

  /** The records of a log, and a proper part of those of one more act of writing. */
  predicate Interrupted(rs: seq<Record>, log: seq<Sent>, s: Sent) {
    RecordsOf(AllParcels(log)) <= rs < RecordsOf(AllParcels(log + [s]))
  }

  /** In every run, whatever writes fail, the peer of any id completes exactly that id's replies, in
      the order they were committed, and its role rejections. */
  lemma OutputOfRun(budget: nat, partial: nat, noise: int, steps: seq<Step>, id: nat)
    ensures var c := Walk(Initial(budget, partial, noise), steps).core;
      Collected(c.link, c.log, id)
  {
    InitialGood(budget, partial, noise);
    WalkSound(Initial(budget, partial, noise), steps);
    OutputOnWire(Walk(Initial(budget, partial, noise), steps).core, id);
  }

  lemma OutputOnWire(c: Core, id: nat)
    requires OnWire(c.link, c.log)
    ensures Collected(c.link, c.log, id)
  {
    if c.link.broken {
      var s: Sent :| Torn(c.link.wire, c.log, s);
      TornOutput(c.log, s, id, c.link.wire);
      assert Interrupted(Received(Frames(c.link.wire)), c.log, s);
    } else {
      OutputDemultiplexed(c.log, id, c.link.wire);
    }
  }

  /** In every run: a live request is in the table under its id and nowhere else; no request is
      announced twice, and a live one is announced if and only if both its streams have ended; every
      reply is to a request begun under its id, and no request is replied to twice. */
  lemma RequestsOfRun(budget: nat, partial: nat, noise: int, steps: seq<Step>)
    ensures var c := Walk(Initial(budget, partial, noise), steps).core;
      && Linked(c.Table(), c.begun)
      && Announced(c.Table(), c.history.announced, c.begun)
      && Answered(c.log, c.begun)
  {
    InitialGood(budget, partial, noise);
    WalkSound(Initial(budget, partial, noise), steps);
  }

  /** In every run, seen from one id, the table, the announcements and the exceptions are those of
      that id's events alone. */
  lemma InputOfRun(budget: nat, partial: nat, noise: int, steps: seq<Step>, id: nat)
    ensures var c := Walk(Initial(budget, partial, noise), steps).core;
      SameFor(c.history, Replay(EventsFor(c.heard, id)), id)
  {
    InitialGood(budget, partial, noise);
    WalkSound(Initial(budget, partial, noise), steps);
    InputDemultiplexed(Walk(Initial(budget, partial, noise), steps).core.heard, id);
  }

  // ---------------------------------------------------------------- the lost abort answer

  /** A query right behind an abort whose answer the peer refuses fails an assertion. */
  lemma LostThenQuery(c: Core, b: bytes, abort: Record, query: Record)
    requires Good(c) && c.link.open && LosesAbort(c, abort) && query.kind == GET_VALUES
    requires NextIs(b, abort) && NextIs(b[NextFrame(b).size..], query)
    ensures ReadLoop(c, b).failed
  {
    DispatchGood(c, abort);
    var d := Dispatch(c, abort).core;
    HarmfulWhenClosed(d, query);
    StoppedRead(d, b[NextFrame(b).size..], query);
    ThrownRead(c, b, abort);
  }

  predicate NextIs(b: bytes, r: Record) {
    NextFrame(b).Next? && NextFrame(b).frame == Packet(r)
  }

  lemma ThrownRead(c: Core, b: bytes, r: Record)
    requires NextIs(b, r) && Dispatch(c, r).verdict.Threw?
    ensures ReadLoop(c, b) == ReadLoop(Dispatch(c, r).core, b[NextFrame(b).size..])
  {
  }

  lemma StoppedRead(c: Core, b: bytes, r: Record)
    requires NextIs(b, r) && Dispatch(c, r).verdict.Asserted?
    ensures ReadLoop(c, b).failed
  {
  }

  /** The peer refuses the answer to an abort, the exception hides that the socket is closed, and the
      next record writes to it: the assertion against that fails. */
  lemma LostAbortBreaks(id: nat, partial: nat, noise: int)
    ensures var chunk := EncodeRecord(id, ABORT_REQUEST, []) + EncodeRecord(0, GET_VALUES, []);
      Perform(Initial(0, partial, noise), Arrive(chunk)).failed
  {
    var abort, query := EncodeRecord(id, ABORT_REQUEST, []), EncodeRecord(0, GET_VALUES, []);
    var c := Initial(0, partial, noise);
    InitialGood(0, partial, noise);
    assert c.input + (abort + query) == abort + query;
    RecordNext(id, ABORT_REQUEST, [], query);
    RecordNext(0, GET_VALUES, [], []);
    assert query + [] == query;
    LostThenQuery(c.core, abort + query, Record(id % 65536, ABORT_REQUEST, []), Record(0, GET_VALUES, []));
  }

  // ---------------------------------------------------------------- settled requests

  /** What became of a request is final. */
  ghost predicate Settled(c: Core, d: Core) {
    && |c.begun| <= |d.begun|
    && (forall s :: 0 <= s < |c.begun| ==> d.begun[s].id == c.begun[s].id)
    && (forall s :: 0 <= s < |c.begun| && !c.begun[s].fate.Live? ==> d.begun[s] == c.begun[s])
  }

  lemma SettledTrans(a: Core, b: Core, c: Core)
    requires Settled(a, b) && Settled(b, c)
    ensures Settled(a, c)
  {
  }

  lemma OnlyLiveValid(c: Core, h: Handle)
    requires Sound(c)
    ensures IsValid(c, h) ==> h.serial < |c.begun| && c.begun[h.serial] == Instance(h.id, Live)
  {
  }

  /** One request, and no other, has left with this fate; the connection may have closed after. */
  predicate FateSet(begun: seq<Instance>, begun': seq<Instance>, serial: nat, fate: Fate) {
    begun' == SetFate(begun, serial, fate) || begun' == DropLive(SetFate(begun, serial, fate))
  }

  lemma FatesSettle(c: Core, d: Core, serial: nat, fate: Fate)
    requires d.begun == c.begun || d.begun == DropLive(c.begun)
             || (FateSet(c.begun, d.begun, serial, fate) && serial < |c.begun| && c.begun[serial].fate.Live?)
    ensures Settled(c, d)
  {
  }

  lemma AbortFates(c: Core, id: nat)
    requires id in c.Table()
    ensures FateSet(c.begun, AbortRequest(c, id).core.begun, c.Table()[id].serial, Aborted)
  {
  }

  lemma AbortSettles(c: Core, id: nat)
    requires Sound(c)
    ensures Settled(c, AbortRequest(c, id).core)
  {
    if id in c.Table() {
      AbortFates(c, id);
      FatesSettle(c, AbortRequest(c, id).core, c.Table()[id].serial, Aborted);
    }
  }

  lemma AnswerSettles(c: Core, s: Sent)
    requires !s.Reply?
    ensures Settled(c, Answer(c, s).core)
  {
  }

  lemma BeginSettles(c: Core, id: nat, body: bytes)
    ensures Settled(c, OnBegin(c, id, body).core)
  {
    AnswerSettles(c, Rejection(id));
  }

  lemma OnAbortSettles(c: Core, id: nat)
    requires Sound(c)
    ensures Settled(c, OnAbort(c, id).core)
  {
    AnswerSound(c, AbortReply(id));
    AnswerSettles(c, AbortReply(id));
    var d := Answer(c, AbortReply(id)).core;
    AbortSettles(d, id);
    SettledTrans(c, d, AbortRequest(d, id).core);
  }

  lemma DispatchSettles(c: Core, r: Record)
    requires Sound(c)
    ensures Settled(c, Dispatch(c, r).core)
  {
    if r.kind == GET_VALUES {
      AnswerSettles(c, ValuesResult(Values.Answer(r.content)));
    } else if r.kind == BEGIN_REQUEST {
      BeginSettles(c, r.requestId, r.content);
    } else if r.kind == ABORT_REQUEST {
      OnAbortSettles(c, r.requestId);
    } else if r.kind !in {PARAMS, STDIN, DATA} {
      AnswerSettles(c, TypeRejected(r.kind));
    }
  }

  lemma {:induction false} ReadSettles(c: Core, b: bytes)
    requires Sound(c)
    ensures Settled(c, ReadLoop(c, b).core)
    decreases |b|
  {
    match NextFrame(b)
    case Wait =>
    case Next(Unsupported, size) =>
      ReadSettles(c, b[size..]);
    case Next(Packet(r), size) =>
      var d := Dispatch(c, r).core;
      DispatchSound(c, r);
      DispatchSettles(c, r);
      ReadSettles(d, b[size..]);
      SettledTrans(c, d, ReadLoop(d, b[size..]).core);
  }

  /** A commit closes the connection, marks its own request replied, or leaves the record alone. */
  lemma CommitFates(c: Core, h: Handle)
    ensures var begun := CommitReply(c, h).core.begun;
      begun == c.begun || begun == DropLive(c.begun) || (IsValid(c, h) && FateSet(c.begun, begun, h.serial, Replied))
  {
    ReplyWritten(c.link, h.id, h.serial, OutputAt(c, h.serial));
  }

  lemma CommitSettles(c: Core, h: Handle)
    requires Sound(c)
    ensures Settled(c, CommitReply(c, h).core)
  {
    CommitFates(c, h);
    OnlyLiveValid(c, h);
    FatesSettle(c, CommitReply(c, h).core, h.serial, Replied);
  }

  lemma StepSettles(c: Conn, step: Step)
    requires ConnSound(c)
    ensures Settled(c.core, Perform(c, step).core)
  {
    match step
    case Arrive(chunk) =>
      if !c.failed && c.core.link.open {
        ReadSettles(c.core, c.input + chunk);
      }
    case Run(index) =>
      if !c.failed && index < |c.queue| {
        CommitSettles(c.core, c.queue[index]);
      }
    case _ =>
  }

  /** In every run, a request that is replied to, aborted or dropped stays so, and keeps its id. */
  lemma {:induction false} WalkSettles(c: Conn, steps: seq<Step>)
    requires ConnSound(c)
    ensures Settled(c.core, Walk(c, steps).core)
    decreases |steps|
  {
    if steps != [] {
      var k := |steps| - 1;
      var d := Walk(c, steps[..k]);
      WalkSettles(c, steps[..k]);
      WalkSound(c, steps[..k]);
      StepSettles(d, steps[k]);
      SettledTrans(c.core, d.core, Walk(c, steps).core);
    }
  }

  /** A request that is no longer live never comes back, whatever its id is used for since: after
      any further run, a commit posted for it writes nothing and changes nothing but the queue. */
  lemma StaleCommitInert(c: Conn, serial: nat, steps: seq<Step>, index: nat)
    requires ConnSound(c)
    requires serial < |c.core.begun| && !c.core.begun[serial].fate.Live?
    requires index < |Walk(c, steps).queue| && Walk(c, steps).queue[index].serial == serial
    ensures var d := Walk(c, steps);
      Perform(d, Run(index)) == if d.failed then d else d.(queue := d.queue[..index] + d.queue[index + 1..])
  {
    WalkSettles(c, steps);
    WalkSound(c, steps);
    var d := Walk(c, steps);
    OnlyLiveValid(d.core, d.queue[index]);
    InvalidCommitInert(d, index);
  }

  lemma InvalidCommitInert(c: Conn, index: nat)
    requires index < |c.queue| && !IsValid(c.core, c.queue[index])
    ensures Perform(c, Run(index)) == if c.failed then c else c.(queue := c.queue[..index] + c.queue[index + 1..])
  {
  }

  // ---------------------------------------------------------------- conservation

  function Serials(begun: seq<Instance>, fate: Fate): set<nat> {
    set s: nat | s < |begun| && begun[s].fate == fate
  }

  function ReplyCount(log: seq<Sent>): nat {
    if log == [] then 0 else ReplyCount(log[..|log| - 1]) + if log[|log| - 1].Reply? then 1 else 0
  }

  function RepliedSerials(log: seq<Sent>): set<nat> {
    set i | 0 <= i < |log| && log[i].Reply? :: log[i].serial
  }

  lemma RepliedSerialsOne(log: seq<Sent>, s: Sent)
    ensures RepliedSerials(log + [s]) == RepliedSerials(log) + if s.Reply? then {s.serial} else {}
  {
    var log' := log + [s];
    forall n | n in RepliedSerials(log) ensures n in RepliedSerials(log') {
      var i :| 0 <= i < |log| && log[i].Reply? && log[i].serial == n;
      assert log'[i] == log[i];
    }
    if s.Reply? {
      assert log'[|log|].serial == s.serial;
    }
  }

  lemma {:induction false} ReplyCountIsSize(log: seq<Sent>)
    requires forall i, j :: 0 <= i < j < |log| && log[i].Reply? && log[j].Reply? ==> log[i].serial != log[j].serial
    ensures ReplyCount(log) == |RepliedSerials(log)|
    decreases |log|
  {
    if log != [] {
      var k := |log| - 1;
      var init := log[..k];
      assert log == init + [log[k]];
      ReplyCountIsSize(init);
      RepliedSerialsOne(init, log[k]);
      forall i | 0 <= i < k && init[i].Reply? && log[k].Reply? ensures init[i].serial != log[k].serial {
        assert log[i] == init[i];
      }
    }
  }

  lemma {:induction false} TableCount(t: Table, live: set<nat>)
    requires forall id :: id in t ==> t[id].serial in live
    requires forall s :: s in live ==> exists id :: id in t && t[id].serial == s
    requires forall id, k :: id in t && k in t && id != k ==> t[id].serial != t[k].serial
    ensures |t| == |live|
    decreases |t|
  {
    if t == map[] {
      assert forall s :: s in live ==> false;
      assert live == {};
    } else {
      var id :| id in t;
      var t', live' := t - {id}, live - {t[id].serial};
      assert |t'| == |t| - 1 by {
        assert t'.Keys == t.Keys - {id};
      }
      forall s | s in live' ensures exists k :: k in t' && t'[k].serial == s {
        var k :| k in t && t[k].serial == s;
        assert k in t';
      }
      TableCount(t', live');
    }
  }

  lemma SerialsOne(begun: seq<Instance>, i: Instance, fate: Fate)
    ensures |Serials(begun + [i], fate)| == |Serials(begun, fate)| + if i.fate == fate then 1 else 0
  {
    assert Serials(begun + [i], fate) == Serials(begun, fate) + if i.fate == fate then {|begun|} else {};
  }

  lemma {:induction false} FatesCovered(begun: seq<Instance>)
    ensures |begun| == |Serials(begun, Live)| + |Serials(begun, Replied)| + |Serials(begun, Aborted)|
            + |Serials(begun, Dropped)|
    decreases |begun|
  {
    if begun == [] {
      assert forall f :: Serials(begun, f) == {};
    } else {
      var k := |begun| - 1;
      assert begun == begun[..k] + [begun[k]];
      FatesCovered(begun[..k]);
      SerialsOne(begun[..k], begun[k], Live);
      SerialsOne(begun[..k], begun[k], Replied);
      SerialsOne(begun[..k], begun[k], Aborted);
      SerialsOne(begun[..k], begun[k], Dropped);
    }
  }

  /** Requests are conserved: those begun are those in the table, plus one for every reply in the
      output, plus those aborted, plus those dropped when the connection closed. */
  lemma Conservation(c: Core)
    requires Sound(c)
    ensures |c.begun| == |c.Table()| + ReplyCount(c.log) + |Serials(c.begun, Aborted)| + |Serials(c.begun, Dropped)|
  {
    FatesCovered(c.begun);
    var live := Serials(c.begun, Live);
    forall s | s in live ensures exists id :: id in c.Table() && c.Table()[id].serial == s {
      assert c.begun[s].id in c.Table();
    }
    TableCount(c.Table(), live);
    ReplyCountIsSize(c.log);
    assert RepliedSerials(c.log) == Serials(c.begun, Replied) by {
      forall s | s in Serials(c.begun, Replied) ensures s in RepliedSerials(c.log) {
        var i :| 0 <= i < |c.log| && c.log[i].Reply? && c.log[i].serial == s;
      }
    }
  }

  /** So it is at every point of every run. */
  lemma ConservationOfRun(budget: nat, partial: nat, noise: int, steps: seq<Step>)
    ensures var c := Walk(Initial(budget, partial, noise), steps).core;
      |c.begun| == |c.Table()| + ReplyCount(c.log) + |Serials(c.begun, Aborted)| + |Serials(c.begun, Dropped)|
  {
    InitialGood(budget, partial, noise);
    WalkSound(Initial(budget, partial, noise), steps);
    Conservation(Walk(Initial(budget, partial, noise), steps).core);
  }
}
