/** What every step of a connection keeps. */
module Invariants {
  import opened Bytes
  import opened Protocol
  import opened Framing
  import opened Links
  import opened Replies
  import opened Requests
  import opened Machine
  import Values

  // ---------------------------------------------------------------- the invariant

  /** The table and the announcements are what the recorded events produce. */
  ghost predicate Recorded(c: Core) {
    c.history == Replay(c.heard)
  }

  /** The table holds exactly the live requests, each under the id it was begun with. */
  ghost predicate Linked(t: Table, begun: seq<Instance>) {
    && (forall id :: id in t ==> id < 65536 && t[id].serial < |begun| && begun[t[id].serial] == Instance(id, Live))
    && (forall s :: 0 <= s < |begun| && begun[s].fate.Live? ==> begun[s].id in t && t[begun[s].id].serial == s)
  }

  /** No request is announced twice; a live request is announced if and only if both its streams
      have ended. */
  ghost predicate Announced(t: Table, announced: seq<Handle>, begun: seq<Instance>) {
    && (forall i, j :: 0 <= i < j < |announced| ==> announced[i].serial != announced[j].serial)
    && (forall i :: 0 <= i < |announced| ==>
          && announced[i].serial < |begun| && begun[announced[i].serial].id == announced[i].id
          && (announced[i].id in t && t[announced[i].id].serial == announced[i].serial ==>
              Complete(t[announced[i].id])))
    && (forall id :: id in t && Complete(t[id]) ==> Handle(id, t[id].serial) in announced)
  }

  /** The logged replies are to distinct requests, and these are the ones whose fate is Replied. */
  ghost predicate Answered(log: seq<Sent>, begun: seq<Instance>) {
    && (forall i :: 0 <= i < |log| && log[i].Reply? ==>
          log[i].serial < |begun| && begun[log[i].serial] == Instance(log[i].id, Replied))
    && (forall i, j :: 0 <= i < j < |log| && log[i].Reply? && log[j].Reply? ==> log[i].serial != log[j].serial)
    && (forall s :: 0 <= s < |begun| && begun[s].fate.Replied? ==>
          exists i :: 0 <= i < |log| && log[i].Reply? && log[i].serial == s)
  }

  /** The wire carries the logged packets; behind them, if a write has failed, a proper part of what
      was then being written. */
  ghost predicate OnWire(l: Link, log: seq<Sent>) {
    && Bounded(log)
    && (!l.broken ==> l.wire == EncodeAll(AllParcels(log)))
    && (l.broken ==> !l.open && exists s: Sent :: Torn(l.wire, log, s))
  }

  /** Everything but the lifecycle. */
  ghost predicate Sound(c: Core) {
    && Recorded(c)
    && |c.outputs| == |c.begun|
    && Linked(c.Table(), c.begun)
    && Announced(c.Table(), c.history.announced, c.begun)
    && Answered(c.log, c.begun)
    && OnWire(c.link, c.log)
  }

  /** OPEN, CLOSING, CLOSED against the socket, the table and the close callback. */
  predicate Orderly(c: Core) {
    && (c.link.open <==> !c.phase.Closed?)
    && (c.phase.Closed? ==> c.Table() == map[])
    && (c.phase.Closing? ==> c.Table() != map[])
    && c.closeCalls == if c.phase.Closed? then 1 else 0
  }

  ghost predicate Good(c: Core) {
    Sound(c) && Orderly(c)
  }

  // ---------------------------------------------------------------- primitive changes

  lemma RegisterRecorded(c: Core, e: Event)
    requires Recorded(c)
    ensures Recorded(Register(c, e))
  {
    ReplayOne(c.heard, e);
  }

  lemma ClearedTable(t: Table, announced: seq<Handle>, begun: seq<Instance>)
    requires Linked(t, begun) && Announced(t, announced, begun)
    ensures Linked(map[], DropLive(begun)) && Announced(map[], announced, DropLive(begun))
  {
  }

  lemma ClosedSound(c: Core)
    requires Sound(c)
    ensures Sound(CloseAndCleanup(c))
  {
    RegisterRecorded(c, Clear);
    assert c.history.announced + [] == c.history.announced;
    ClearedTable(c.Table(), c.history.announced, c.begun);
    AnsweredSame(c.log, c.begun, DropLive(c.begun));
  }

  lemma AnsweredSame(log: seq<Sent>, begun: seq<Instance>, begun': seq<Instance>)
    requires Answered(log, begun) && |begun'| >= |begun|
    requires forall s :: 0 <= s < |begun| ==>
             (begun[s].fate.Replied? || begun'[s].fate.Replied? ==> begun'[s] == begun[s])
    requires forall s :: |begun| <= s < |begun'| ==> !begun'[s].fate.Replied?
    ensures Answered(log, begun')
  {
  }

  lemma BoundedLonger(log: seq<Sent>, s: Sent)
    requires Bounded(log) && Fits(s)
    ensures Bounded(log + [s])
  {
  }

  lemma SentOnWire(l: Link, l': Link, log: seq<Sent>, s: Sent)
    requires OnWire(l, log) && l.open && Fits(s) && Delivered(l, l', EncodeAll(Parcels(s)))
    ensures OnWire(l', log + [s])
  {
    BoundedLonger(log, s);
    LogGrows(log, s);
  }

  lemma SentSound(c: Core, l: Link, s: Sent)
    requires Sound(c) && c.link.open && Delivered(c.link, l, EncodeAll(Parcels(s)))
    requires !s.Reply? && Fits(s)
    ensures Sound(c.(link := l, log := c.log + [s]))
  {
    SentOnWire(c.link, l, c.log, s);
    AnsweredLonger(c.log, s, c.begun);
  }

  lemma AnsweredLonger(log: seq<Sent>, s: Sent, begun: seq<Instance>)
    requires Answered(log, begun) && !s.Reply?
    ensures Answered(log + [s], begun)
  {
    forall n | 0 <= n < |begun| && begun[n].fate.Replied?
      ensures exists i :: 0 <= i < |log + [s]| && (log + [s])[i].Reply? && (log + [s])[i].serial == n
    {
      var i :| 0 <= i < |log| && log[i].Reply? && log[i].serial == n;
      assert (log + [s])[i] == log[i];
    }
  }

  lemma LostSound(c: Core, l: Link, s: Sent)
    requires Sound(c) && c.link.open && Fits(s) && Lost(c.link, l, EncodeAll(Parcels(s)))
    ensures Sound(c.(link := l))
  {
    assert Torn(l.wire, c.log, s);
  }

  lemma BegunTable(t: Table, announced: seq<Handle>, begun: seq<Instance>, id: nat)
    requires Linked(t, begun) && Announced(t, announced, begun) && id !in t && id < 65536
    ensures Linked(t[id := Fresh(|begun|)], begun + [Instance(id, Live)])
    ensures Announced(t[id := Fresh(|begun|)], announced, begun + [Instance(id, Live)])
  {
  }

  lemma BegunSound(c: Core, id: nat)
    requires Sound(c) && id < 65536
    ensures Sound(BeginRequest(c, id).core)
  {
    RegisterRecorded(c, Begin(id, |c.outputs|));
    assert c.history.announced + [] == c.history.announced;
    if id !in c.Table() {
      BegunTable(c.Table(), c.history.announced, c.begun, id);
      AnsweredSame(c.log, c.begun, c.begun + [Instance(id, Live)]);
    }
  }

  /** A live request takes in a chunk and is announced if that completes it. */
  lemma StreamTable(t: Table, announced: seq<Handle>, begun: seq<Instance>, id: nat, entry: Entry)
    requires Linked(t, begun) && Announced(t, announced, begun) && id in t
    requires entry.serial == t[id].serial && !Complete(t[id])
    ensures Linked(t[id := entry], begun)
    ensures Announced(t[id := entry], announced + if Complete(entry) then [Handle(id, entry.serial)] else [], begun)
  {
    var t' := t[id := entry];
    var announced' := announced + if Complete(entry) then [Handle(id, entry.serial)] else [];
    forall i | 0 <= i < |announced| ensures announced[i].serial != entry.serial {
      var serial := announced[i].serial;
      assert begun[serial].id == announced[i].id;
    }
    forall k | k in t' && Complete(t'[k]) ensures Handle(k, t'[k].serial) in announced' {
      if k != id {
        assert Handle(k, t[k].serial) in announced;
      } else {
        assert announced'[|announced|] == Handle(id, entry.serial);
      }
    }
  }

  lemma StreamSound(c: Core, e: Event)
    requires Sound(c) && (e.Stdin? || e.Params?)
    ensures Sound(Register(c, e)) && (Register(c, e).Table() == map[] <==> c.Table() == map[])
  {
    RegisterRecorded(c, e);
    assert c.history.announced + [] == c.history.announced;
    var effect := Apply(c.Table(), e);
    if !effect.threw {
      StreamTable(c.Table(), c.history.announced, c.begun, e.id, effect.table[e.id]);
      assert e.id in effect.table;
    }
  }

  lemma RetiredTable(t: Table, announced: seq<Handle>, begun: seq<Instance>, id: nat, fate: Fate)
    requires Linked(t, begun) && Announced(t, announced, begun) && id in t && fate != Live
    ensures Linked(t - {id}, SetFate(begun, t[id].serial, fate))
    ensures Announced(t - {id}, announced, SetFate(begun, t[id].serial, fate))
  {
  }

  lemma AbortedSound(c: Core, id: nat)
    requires Sound(c) && id in c.Table()
    ensures Sound(Retire(c, Abort(id), c.Table()[id].serial, Aborted))
  {
    RegisterRecorded(c, Abort(id));
    assert c.history.announced + [] == c.history.announced;
    RetiredTable(c.Table(), c.history.announced, c.begun, id, Aborted);
    AnsweredSame(c.log, c.begun, SetFate(c.begun, c.Table()[id].serial, Aborted));
  }

  lemma AnsweredReply(log: seq<Sent>, begun: seq<Instance>, id: nat, serial: nat, o: Output)
    requires Answered(log, begun) && serial < |begun| && begun[serial] == Instance(id, Live)
    ensures Answered(log + [Reply(id, serial, o)], SetFate(begun, serial, Replied))
  {
    var log' := log + [Reply(id, serial, o)];
    var begun' := SetFate(begun, serial, Replied);
    forall s | 0 <= s < |begun'| && begun'[s].fate.Replied?
      ensures exists i :: 0 <= i < |log'| && log'[i].Reply? && log'[i].serial == s
    {
      if s == serial {
        assert log'[|log|].serial == s;
      } else {
        var i :| 0 <= i < |log| && log[i].Reply? && log[i].serial == s;
        assert log'[i] == log[i];
      }
    }
  }

  lemma RepliedSound(c: Core, id: nat, l: Link, o: Output)
    requires Sound(c) && id in c.Table()
    requires OnWire(l, c.log + [Reply(id, c.Table()[id].serial, o)])
    ensures Sound(Retire(c.(link := l, log := c.log + [Reply(id, c.Table()[id].serial, o)]),
                         Cleanup(id), c.Table()[id].serial, Replied))
  {
    RegisterRecorded(c, Cleanup(id));
    assert c.history.announced + [] == c.history.announced;
    RetiredTable(c.Table(), c.history.announced, c.begun, id, Replied);
    AnsweredReply(c.log, c.begun, id, c.Table()[id].serial, o);
  }

  // ---------------------------------------------------------------- what every handler keeps

  lemma AnswerWritten(c: Core, s: Sent)
    requires !s.Reply? && Fits(s)
    ensures var p := Parcels(s)[0]; var w := WritePacket(c.link, p.id, p.kind, p.content);
      && (w.ok <==> c.link.budget > 0)
      && (w.ok ==> Delivered(c.link, w.link, EncodeAll(Parcels(s))))
      && (!w.ok ==> Lost(c.link, w.link, EncodeAll(Parcels(s))))
  {
    var p := Parcels(s)[0];
    assert Parcels(s) == [p];
    PacketWritten(c.link, p.id, p.kind, p.content);
    SingleParcel(p);
  }

  lemma AnswerSound(c: Core, s: Sent)
    requires Sound(c) && !s.Reply? && Fits(s)
    ensures Sound(Answer(c, s).core)
  {
    if c.link.open {
      var p := Parcels(s)[0];
      var w := WritePacket(c.link, p.id, p.kind, p.content);
      AnswerWritten(c, s);
      WrittenSound(c, s, w);
      AnswerOutcome(c, s, w);
    }
  }

  lemma AnswerOutcome(c: Core, s: Sent, w: Written)
    requires c.link.open && !s.Reply?
    requires w == WritePacket(c.link, Parcels(s)[0].id, Parcels(s)[0].kind, Parcels(s)[0].content)
    ensures Answer(c, s).core == Outcome(c, s, w)
  {
  }

  function Outcome(c: Core, s: Sent, w: Written): Core {
    if w.ok then c.(link := w.link, log := c.log + [s]) else SocketClosed(c.(link := w.link)).core
  }

  lemma WrittenSound(c: Core, s: Sent, w: Written)
    requires Sound(c) && c.link.open && !s.Reply? && Fits(s)
    requires if w.ok then Delivered(c.link, w.link, EncodeAll(Parcels(s)))
             else Lost(c.link, w.link, EncodeAll(Parcels(s)))
    ensures Sound(Outcome(c, s, w))
  {
    if w.ok {
      SentSound(c, w.link, s);
    } else {
      LostSound(c, w.link, s);
      SocketClosedSound(c.(link := w.link));
    }
  }

  lemma SocketClosedSound(c: Core)
    requires Sound(c)
    ensures Sound(SocketClosed(c).core)
  {
    ClosedSound(c);
  }

  lemma EmptySound(c: Core)
    requires Sound(c)
    ensures Sound(CheckForEmpty(c))
  {
    ClosedSound(c);
  }

  lemma WindDownSound(c: Core)
    requires Sound(c)
    ensures Sound(WindDown(c).core)
  {
    ClosedSound(c.(phase := Closing));
  }

  lemma BeginSound(c: Core, id: nat, body: bytes)
    requires Sound(c) && id < 65536
    ensures Sound(OnBegin(c, id, body).core)
  {
    if |body| >= BODY_LEN {
      if RoleIn(body) != RESPONDER {
        AnswerSound(c, Rejection(id));
      } else {
        BegunSound(c, id);
        WindDownSound(BeginRequest(c, id).core);
      }
    }
  }

  lemma RejectedSound(c: Core, e: Event)
    requires Sound(c) && Apply(c.Table(), e).threw
    ensures Sound(Register(c, e))
  {
    RegisterRecorded(c, e);
    assert c.history.announced + [] == c.history.announced;
  }

  lemma AbortRequestSound(c: Core, id: nat)
    requires Sound(c)
    ensures Sound(AbortRequest(c, id).core)
  {
    if id in c.Table() {
      AbortedSound(c, id);
      EmptySound(Retire(c, Abort(id), c.Table()[id].serial, Aborted));
    } else {
      RejectedSound(c, Abort(id));
    }
  }

  lemma AbortSound(c: Core, id: nat)
    requires Sound(c)
    ensures Sound(OnAbort(c, id).core)
  {
    AnswerSound(c, AbortReply(id));
    AbortRequestSound(Answer(c, AbortReply(id)).core, id);
  }

  /** Every record keeps everything but the lifecycle, on an open socket or a closed one. */
  lemma DispatchSound(c: Core, r: Record)
    requires Sound(c) && r.requestId < 65536
    ensures Sound(Dispatch(c, r).core)
  {
    if r.kind == GET_VALUES {
      Values.AnswerShort(r.content);
      AnswerSound(c, ValuesResult(Values.Answer(r.content)));
    } else if r.kind == BEGIN_REQUEST {
      BeginSound(c, r.requestId, r.content);
    } else if r.kind == ABORT_REQUEST {
      AbortSound(c, r.requestId);
    } else if r.kind == PARAMS {
      StreamSound(c, Params(r.requestId, r.content));
    } else if r.kind == STDIN {
      StreamSound(c, Stdin(r.requestId, r.content));
    } else if r.kind != DATA {
      AnswerSound(c, TypeRejected(r.kind));
    }
  }

  lemma OutputSound(c: Core, serial: nat, o: Output)
    requires Sound(c)
    ensures Sound(SetOutput(c, serial, o))
  {
  }

  lemma OnlyCompleteValid(c: Core, h: Handle)
    requires Sound(c) && h in c.history.announced && IsValid(c, h)
    ensures Complete(c.Table()[h.id])
  {
  }

  lemma CleanUpSound(c: Core, h: Handle, l: Link, o: Output)
    requires Sound(c) && c.link.open && IsValid(c, h) && h in c.history.announced
    requires Delivered(c.link, l, EncodeAll(Parcels(Reply(h.id, h.serial, o))))
    ensures Sound(CleanUp(c.(link := l, log := c.log + [Reply(h.id, h.serial, o)]), h).core)
  {
    OnlyCompleteValid(c, h);
    SentOnWire(c.link, l, c.log, Reply(h.id, h.serial, o));
    RepliedSound(c, h.id, l, o);
    EmptySound(Retire(c.(link := l, log := c.log + [Reply(h.id, h.serial, o)]), Cleanup(h.id), h.serial, Replied));
  }

  /** Running a posted commit keeps everything but the lifecycle. */
  lemma CommitSound(c: Core, h: Handle)
    requires Sound(c) && h in c.history.announced
    ensures Sound(CommitReply(c, h).core)
  {
    if IsValid(c, h) && c.link.open {
      var o := OutputAt(c, h.serial);
      var s := SendReply(c.link, h.id, o);
      var d := SetOutput(c, h.serial, s.output);
      ReplyWritten(c.link, h.id, h.serial, o);
      OutputSound(c, h.serial, s.output);
      assert SetOutput(c.(link := s.link), h.serial, s.output) == d.(link := s.link);
      if s.ok {
        CleanUpSound(d, h, s.link, o);
      } else {
        LostSound(d, s.link, Reply(h.id, h.serial, o));
        ClosedSound(d.(link := s.link));
      }
    }
  }

  // ---------------------------------------------------------------- the lifecycle

  lemma ClosedGood(c: Core)
    requires Sound(c) && !c.phase.Closed? && c.closeCalls == 0
    ensures Good(CloseAndCleanup(c)) && CloseAndCleanup(c).phase.Closed?
  {
    ClosedSound(c);
  }

  /** An answer is written and logged, or the connection is closed. */
  lemma AnswerGood(c: Core, s: Sent)
    requires Good(c) && c.link.open && !s.Reply? && Fits(s)
    ensures var r := Answer(c, s);
      && r.verdict.Returned? && Good(r.core)
      && (c.link.budget > 0 ==> r.core.link.open && r.core.history == c.history && r.core.phase == c.phase)
      && (c.link.budget == 0 ==> r.core.phase.Closed? && !r.core.link.open)
  {
    AnswerSound(c, s);
    AnswerWritten(c, s);
  }

  lemma EmptyOrderly(c: Core)
    requires c.link.open && !c.phase.Closed? && c.closeCalls == 0
    ensures Orderly(CheckForEmpty(c))
    ensures CheckForEmpty(c).phase.Closed? <==> c.phase.Closing? && c.Table() == map[]
  {
  }

  lemma BeginRequestGood(c: Core, id: nat)
    requires Good(c) && c.link.open && id < 65536
    ensures var r := BeginRequest(c, id);
      && Good(r.core) && r.core.link.open && !r.verdict.Asserted?
      && (r.verdict.Returned? ==> r.core.Table() != map[])
  {
    BegunSound(c, id);
    assert id in BeginRequest(c, id).core.Table();
  }

  lemma WindDownGood(c: Core)
    requires Good(c) && c.link.open && c.Table() != map[]
    ensures WindDown(c).verdict.Returned? && Good(WindDown(c).core)
  {
  }

  lemma BeginGood(c: Core, id: nat, body: bytes)
    requires Good(c) && c.link.open && id < 65536
    ensures var r := OnBegin(c, id, body);
      !r.verdict.Asserted? && Good(r.core) && (r.verdict.Threw? ==> r.core.link.open)
  {
    if |body| >= BODY_LEN {
      if RoleIn(body) != RESPONDER {
        AnswerGood(c, Rejection(id));
      } else {
        BeginRequestGood(c, id);
        var r := BeginRequest(c, id);
        if r.verdict.Returned? && !KeepsConnection(body) {
          WindDownGood(r.core);
        }
      }
    }
  }

  /** The peer refuses the answer to an abort. */
  predicate LosesAbort(c: Core, r: Record) {
    r.kind == ABORT_REQUEST && c.link.budget == 0
  }

  lemma AbortRequestGood(c: Core, id: nat)
    requires Good(c)
    ensures var r := AbortRequest(c, id);
      && !r.verdict.Asserted? && Good(r.core)
      && (r.verdict.Threw? <==> id !in c.Table()) && (r.verdict.Threw? ==> r.core.link == c.link)
  {
    AbortRequestSound(c, id);
    if id in c.Table() {
      EmptyOrderly(Retire(c, Abort(id), c.Table()[id].serial, Aborted));
    } else {
      RejectedGood(c, Abort(id));
    }
  }

  lemma AbortAnswered(c: Core, id: nat)
    requires Good(c)
    ensures var r := AbortRequest(c, id);
      !r.verdict.Asserted? && Good(r.core) && (r.verdict.Threw? && !r.core.link.open <==> !c.link.open)
  {
    AbortRequestGood(c, id);
  }

  lemma AbortGood(c: Core, id: nat)
    requires Good(c) && c.link.open
    ensures var r := OnAbort(c, id);
      !r.verdict.Asserted? && Good(r.core) && (r.verdict.Threw? && !r.core.link.open <==> c.link.budget == 0)
  {
    var r := Answer(c, AbortReply(id));
    AnswerGood(c, AbortReply(id));
    OnAbortGoesOn(c, id, r);
    AbortAnswered(r.core, id);
  }

  lemma OnAbortGoesOn(c: Core, id: nat, r: Result)
    requires Answer(c, AbortReply(id)) == r && r.verdict.Returned?
    ensures OnAbort(c, id) == AbortRequest(r.core, id)
  {
  }

  lemma RejectedGood(c: Core, e: Event)
    requires Good(c) && Apply(c.Table(), e).threw
    ensures Good(Register(c, e))
  {
    RejectedSound(c, e);
    assert c.history.announced + [] == c.history.announced;
  }

  /** Dispatching a record on an open socket keeps everything and trips no assertion. It ends in
      an exception on a closed socket exactly when an abort answer was refused. */
  lemma DispatchGood(c: Core, r: Record)
    requires Good(c) && c.link.open && r.requestId < 65536
    ensures !Dispatch(c, r).verdict.Asserted? && Good(Dispatch(c, r).core)
    ensures Dispatch(c, r).verdict.Threw? && !Dispatch(c, r).core.link.open <==> LosesAbort(c, r)
  {
    if r.kind == GET_VALUES {
      Values.AnswerShort(r.content);
      AnswerGood(c, ValuesResult(Values.Answer(r.content)));
    } else if r.kind == BEGIN_REQUEST {
      BeginGood(c, r.requestId, r.content);
    } else if r.kind == ABORT_REQUEST {
      AbortGood(c, r.requestId);
    } else if r.kind == PARAMS {
      StreamSound(c, Params(r.requestId, r.content));
    } else if r.kind == STDIN {
      StreamSound(c, Stdin(r.requestId, r.content));
    } else if r.kind != DATA {
      AnswerGood(c, TypeRejected(r.kind));
    }
  }

  lemma CleanUpOrderly(c: Core, h: Handle)
    requires c.link.open && !c.phase.Closed? && c.closeCalls == 0
    requires IsValid(c, h) && Complete(c.Table()[h.id])
    ensures CleanUp(c, h).verdict.Returned? && Orderly(CleanUp(c, h).core)
  {
    EmptyOrderly(Retire(c, Cleanup(h.id), c.Table()[h.id].serial, Replied));
  }

  lemma CommitOrderly(c: Core, h: Handle)
    requires Orderly(c) && (IsValid(c, h) ==> Complete(c.Table()[h.id]))
    ensures CommitReply(c, h).verdict.Returned? && Orderly(CommitReply(c, h).core)
  {
    if IsValid(c, h) {
      var o := OutputAt(c, h.serial);
      var s := SendReply(c.link, h.id, o);
      ReplyWritten(c.link, h.id, h.serial, o);
      if s.ok {
        CleanUpOrderly(SetOutput(c.(link := s.link), h.serial, s.output)
                       .(log := c.log + [Reply(h.id, h.serial, o)]), h);
      }
    }
  }

  /** Running a posted commit keeps everything and trips no assertion: whoever is still valid has
      both its streams complete. */
  lemma CommitGood(c: Core, h: Handle)
    requires Good(c) && h in c.history.announced
    ensures CommitReply(c, h).verdict.Returned? && Good(CommitReply(c, h).core)
    ensures IsValid(c, h) ==> Complete(c.Table()[h.id])
  {
    if IsValid(c, h) {
      OnlyCompleteValid(c, h);
    }
    CommitSound(c, h);
    CommitOrderly(c, h);
  }
}
