/** `Request`: the application's one-shot handle on an announced request. */
module Handles {
  import opened Bytes
  import opened Requests
  import opened Machine
  import Answers
  import Framing
  import Invariants
  import Lifecycle
  import Replies
  import ConnectionDatas
  import Connections

  /** "Request cancelled by application server". */
  const CANCEL_TEXT: bytes :=
    [82, 101, 113, 117, 101, 115, 116, 32, 99, 97, 110, 99, 101, 108, 108, 101, 100, 32, 98, 121, 32,
     97, 112, 112, 108, 105, 99, 97, 116, 105, 111, 110, 32, 115, 101, 114, 118, 101, 114]

  // ---------------------------------------------------------------- specification

  /** Shared pointers to a request's data are held by the table and by posted commits only. */
  predicate DataAlive(c: Conn, h: Handle) {
    IsValid(c.core, h) || h in c.queue
  }

  function CancelOutput(o: Replies.Output): Replies.Output {
    Replies.Output([], o.err + CANCEL_TEXT, o.status)
  }

  datatype Operation = Commit | Cancel | Destroy

  /** The connection, whether the handle has replied, and whether an exception was thrown. */
  datatype Operated = Operated(conn: Conn, hasReplied: bool, threw: bool)

  predicate Usable(c: Conn, h: Handle, hasReplied: bool, connectionAlive: bool) {
    !hasReplied && connectionAlive && DataAlive(c, h)
  }

  function Operate(c: Conn, h: Handle, hasReplied: bool, connectionAlive: bool, op: Operation): Operated {
    if !Usable(c, h, hasReplied, connectionAlive) then Operated(c, hasReplied, !op.Destroy?)
    else
      var d := if op.Commit? then c else Perform(c, Rewrite(h.serial, CancelOutput(OutputAt(c.core, h.serial))));
      Operated(Perform(d, Post(h)), true, false)
  }

  /** A life of a handle: its operations among whatever else happens to the connection. */
  datatype Move = Op(op: Operation, connectionAlive: bool) | Else(step: Step)

  datatype Life = Life(conn: Conn, hasReplied: bool, posted: nat)

  function LifeAfter(l: Life, h: Handle, moves: seq<Move>): Life
    decreases |moves|
  {
    if moves == [] || l.conn.failed then l else
      var l' :=
        match moves[0]
        case Op(op, alive) =>
          var o := Operate(l.conn, h, l.hasReplied, alive, op);
          Life(o.conn, o.hasReplied, l.posted + |o.conn.queue| - |l.conn.queue|)
        case Else(step) => l.(conn := Perform(l.conn, step));
      LifeAfter(l', h, moves[1..])
  }

  lemma OperatePosts(c: Conn, h: Handle, hasReplied: bool, connectionAlive: bool, op: Operation)
    requires !c.failed && h in c.core.history.announced
    ensures var o := Operate(c, h, hasReplied, connectionAlive, op);
      && !o.conn.failed && h in o.conn.core.history.announced
      && o.conn.queue == c.queue + (if o.hasReplied && !hasReplied then [h] else [])
      && (hasReplied ==> o.hasReplied) && (!o.hasReplied ==> o.conn == c)
      && var refused := hasReplied || !connectionAlive || (!IsValid(c.core, h) && h !in c.queue);
         && (refused ==> o == Operated(c, hasReplied, op != Destroy))
         && (!refused ==> o.hasReplied && !o.threw)
  {
    assert c.queue + [] == c.queue;
  }

  lemma StepKeepsAnnounced(c: Conn, step: Step, h: Handle)
    requires h in c.core.history.announced
    ensures h in Perform(c, step).core.history.announced
  {
    match step
    case Arrive(chunk) => Lifecycle.ReadExtends(c.core, c.input + chunk);
    case Run(index) =>
      if index < |c.queue| {
        Lifecycle.CommitExtends(c.core, c.queue[index]);
      }
    case _ =>
  }

  /** Whatever is done with a handle, and whatever else happens meanwhile, it posts at most one
      commit, and has replied exactly when it has posted one. */
  lemma {:induction false} OneShot(c: Conn, h: Handle, moves: seq<Move>, hasReplied: bool)
    requires !c.failed && h in c.core.history.announced
    ensures var l := LifeAfter(Life(c, hasReplied, if hasReplied then 1 else 0), h, moves);
      l.posted == if l.hasReplied then 1 else 0
    decreases |moves|
  {
    if moves != [] {
      match moves[0]
      case Op(op, alive) =>
        OperatePosts(c, h, hasReplied, alive, op);
        var o := Operate(c, h, hasReplied, alive, op);
        OneShot(o.conn, h, moves[1..], o.hasReplied);
      case Else(step) =>
        StepKeepsAnnounced(c, step, h);
        if !Perform(c, step).failed {
          OneShot(Perform(c, step), h, moves[1..], hasReplied);
        }
    }
  }

  /** A cancelled request is answered with its error text alone, marked as cancelled, exactly when
      that text with the mark is no longer than the 32 bits `writePacket` takes. */
  lemma CancelHeardIff(id: nat, o: Replies.Output)
    requires id < 65536
    ensures Replies.Heard(Replies.Idle([]), id, Replies.ReplyParcels(id, CancelOutput(o))).received
              == [Replies.Exchange([], o.err + CANCEL_TEXT, 1, 1, Int32(o.status), 0)]
            <==> |o.err| + |CANCEL_TEXT| < 0x1_0000_0000
  {
    Replies.ReplyRoundTripIff(id, CancelOutput(o));
  }

  lemma TextSpelled(text: bytes)
    requires Spells(text, "Request cancelled by application server")
    ensures text == CANCEL_TEXT
  {
    assert Spells(CANCEL_TEXT, "Request cancelled by application server");
    SpelledOnce(text, CANCEL_TEXT, "Request cancelled by application server");
  }

  /** What the application has asked to be sent: a commit leaves the output alone, a cancel and the
      destructor drop the output and add a text to the errors. */
  function Asked(op: Operation, o: Replies.Output, text: bytes): Replies.Output {
    match op
    case Commit => o
    case Cancel => Replies.Output([], o.err + text, o.status)
    case Destroy => Replies.Output([], o.err + text, o.status)
  }

  /** The connection with this output for the request and its commit posted. */
  function AskedFor(c: Conn, h: Handle, o: Replies.Output): Conn
    requires h.serial < |c.core.outputs|
  {
    c.(core := c.core.(outputs := c.core.outputs[h.serial := o]), queue := c.queue + [h])
  }

  lemma OperateAsks(c: Conn, h: Handle, op: Operation, text: bytes)
    requires !c.failed && h in c.core.history.announced && IsValid(c.core, h) && h.serial < |c.core.outputs|
    requires Spells(text, "Request cancelled by application server")
    ensures var o := Asked(op, c.core.outputs[h.serial], text);
      Operate(c, h, false, true, op).conn == AskedFor(c, h, o)
  {
    TextSpelled(text);
    assert c.core.outputs[h.serial := c.core.outputs[h.serial]] == c.core.outputs;
  }

  lemma LastTaken(queue: seq<Handle>, h: Handle)
    ensures (queue + [h])[..|queue|] + (queue + [h])[|queue| + 1..] == queue
  {
  }

  lemma AskedGood(c: Conn, h: Handle, o: Replies.Output)
    requires Lifecycle.ConnGood(c) && h in c.core.history.announced
    requires h.serial < |c.core.outputs|
    ensures Lifecycle.ConnGood(AskedFor(c, h, o))
  {
    Invariants.OutputSound(c.core, h.serial, o);
  }

  lemma AskedAnswered(c: Conn, h: Handle, o: Replies.Output)
    requires Lifecycle.ConnGood(c) && h in c.core.history.announced && IsValid(c.core, h)
    requires h.serial < |c.core.outputs| && !Perform(AskedFor(c, h, o), Run(|c.queue|)).core.link.broken
    ensures var d := Perform(AskedFor(c, h, o), Run(|c.queue|));
      && d.core.log == c.core.log + [Replies.Reply(h.id, h.serial, o)]
      && Answers.Grew(c.core.link, d.core.link, Answers.ReplyRecords(h.id, o))
      && d.queue == c.queue && d.core.Table() == c.core.Table() - {h.id}
  {
    var e := AskedFor(c, h, o);
    AskedGood(c, h, o);
    assert e.queue[|c.queue|] == h;
    Answers.CommitAnswered(e, |c.queue|);
    LastTaken(c.queue, h);
    Answers.RunIs(e, |c.queue|);
  }

  /** A live request is committed, cancelled or abandoned through its handle, and the commit this posts
      runs on a peer that takes the whole reply: the one thing sent is a reply of this request, with what
      was asked; the request is gone and the queue is as before. */
  lemma OperationAnswered(c: Conn, h: Handle, op: Operation, text: bytes)
    requires Lifecycle.ConnGood(c) && h in c.core.history.announced && IsValid(c.core, h)
    requires Spells(text, "Request cancelled by application server")
    requires !Perform(Operate(c, h, false, true, op).conn, Run(|c.queue|)).core.link.broken
    ensures h.serial < |c.core.outputs|
    ensures var o := Asked(op, c.core.outputs[h.serial], text);
      var d := Perform(Operate(c, h, false, true, op).conn, Run(|c.queue|));
      && d.core.log == c.core.log + [Replies.Reply(h.id, h.serial, o)]
      && Answers.Grew(c.core.link, d.core.link, Answers.ReplyRecords(h.id, o))
      && d.queue == c.queue && d.core.Table() == c.core.Table() - {h.id}
  {
    OperateAsks(c, h, op, text);
    AskedAnswered(c, h, Asked(op, c.core.outputs[h.serial], text));
  }

  /** The peer of that id then completes exactly one more exchange: the asked output and errors, each
      stream ended once, and the status, as long as both are shorter than 2^32 octets. */
  lemma OperationHeard(c: Conn, h: Handle, op: Operation, text: bytes)
    requires Lifecycle.ConnGood(c) && h in c.core.history.announced && IsValid(c.core, h)
    requires Spells(text, "Request cancelled by application server") && h.serial < |c.core.outputs|
    requires !Perform(Operate(c, h, false, true, op).conn, Run(|c.queue|)).core.link.broken
    requires var o := Asked(op, c.core.outputs[h.serial], text); |o.out| < 0x1_0000_0000 && |o.err| < 0x1_0000_0000
    ensures var o := Asked(op, c.core.outputs[h.serial], text);
      var d := Perform(Operate(c, h, false, true, op).conn, Run(|c.queue|));
      Replies.PeerRun(Replies.Idle([]), h.id, Framing.Received(Framing.Frames(d.core.link.wire))).received
      == Replies.PeerRun(Replies.Idle([]), h.id, Framing.Received(Framing.Frames(c.core.link.wire))).received
         + [Replies.Exchange(o.out, o.err, 1, 1, Int32(o.status), 0)]
  {
    var o := Asked(op, c.core.outputs[h.serial], text);
    OperationAnswered(c, h, op, text);
    Answers.ReplyCompletes(c.core, h, o);
    var rs := Framing.Received(Framing.Frames(c.core.link.wire));
    Replies.PeerRunAppend(Replies.Idle([]), h.id, rs, Answers.ReplyRecords(h.id, o));
  }

  // ---------------------------------------------------------------- the handle

  class Request {
    const requestId: nat
    const connectionId: nat
    const connection: Connections.Connection
    const data: ConnectionDatas.RequestData
    var hasReplied: bool

    constructor (requestId: nat, data: ConnectionDatas.RequestData, connectionId: nat,
        connection: Connections.Connection)
      ensures this.requestId == requestId && this.data == data && !hasReplied
      ensures this.connectionId == connectionId && this.connection == connection
    {
      this.requestId, this.data, this.connectionId, this.connection := requestId, data, connectionId, connection;
      hasReplied := false;
    }

    /** The connection is sound and has announced this request. */
    ghost predicate Valid()
      reads this, connection, connection.socket, connection.data, connection.data.objects
    {
      && connection.Valid() && !connection.failed
      && Connections.Ref(requestId, data) in connection.announced
    }

    ghost function Name(): Handle {
      Handle(requestId, data.serial)
    }

    /** Whether the weak pointers still lock and no reply has been given. */
    predicate IsValid(connectionAlive: bool)
      reads this, connection, connection.data
    {
      !hasReplied && connectionAlive
      && (connection.data.IsValidRequest(requestId, data) || Connections.Ref(requestId, data) in connection.queue)
    }

    lemma IsValidUsable(connectionAlive: bool)
      requires Valid()
      ensures IsValid(connectionAlive) <==> Usable(connection.View(), Name(), hasReplied, connectionAlive)
    {
      var refs, h := connection.queue, Name();
      if Connections.Ref(requestId, data) in refs {
        var i :| 0 <= i < |refs| && refs[i] == Connections.Ref(requestId, data);
        assert Connections.HandlesOf(refs)[i] == h;
      }
      if h in Connections.HandlesOf(refs) {
        var i :| 0 <= i < |refs| && Connections.HandlesOf(refs)[i] == h;
        assert refs[i] == Connections.Ref(requestId, data);
      }
    }

    method Commit(connectionAlive: bool) returns (threw: bool)
      requires Valid()
      modifies this`hasReplied, connection`queue
      ensures Valid()
      ensures Operated(connection.View(), hasReplied, threw)
           == Operate(old(connection.View()), Name(), old(hasReplied), connectionAlive, Operation.Commit)
    {
      IsValidUsable(connectionAlive);
      if !IsValid(connectionAlive) {
        return true;
      }
      connection.CommitReply(requestId, data);
      hasReplied, threw := true, false;
    }

    method Cancel(connectionAlive: bool) returns (threw: bool)
      requires Valid()
      modifies this`hasReplied, connection`queue, connection`core, data`outBuffer, data`errBuffer, data`appStatus
      ensures Valid()
      ensures Operated(connection.View(), hasReplied, threw)
           == Operate(old(connection.View()), Name(), old(hasReplied), connectionAlive, Operation.Cancel)
    {
      IsValidUsable(connectionAlive);
      if !IsValid(connectionAlive) {
        return true;
      }
      connection.Rewrite(data, [], data.errBuffer + CANCEL_TEXT, data.appStatus);
      connection.CommitReply(requestId, data);
      hasReplied, threw := true, false;
    }

    /** The destructor cancels a request that could still be answered, and its cancel never throws. */
    method Destroy(connectionAlive: bool)
      requires Valid()
      modifies this`hasReplied, connection`queue, connection`core, data`outBuffer, data`errBuffer, data`appStatus
      ensures Valid()
      ensures Operated(connection.View(), hasReplied, false)
           == Operate(old(connection.View()), Name(), old(hasReplied), connectionAlive, Operation.Destroy)
    {
      IsValidUsable(connectionAlive);
      if IsValid(connectionAlive) {
        var threw := Cancel(connectionAlive);
        assert !threw;
      }
    }

    /** `setAppStatus` takes an unsigned value and stores it as `int`. */
    method SetAppStatus(status: nat, connectionAlive: bool) returns (threw: bool)
      requires Valid() && status < TWO_32
      modifies connection`core, data`outBuffer, data`errBuffer, data`appStatus
      ensures Valid() && (threw <==> !Usable(old(connection.View()), Name(), hasReplied, connectionAlive))
      ensures connection.View() == if threw then old(connection.View()) else
        Perform(old(connection.View()),
                Rewrite(data.serial, OutputAt(old(connection.core), data.serial).(status := Int32(status))))
    {
      IsValidUsable(connectionAlive);
      if !IsValid(connectionAlive) {
        return true;
      }
      connection.Rewrite(data, data.outBuffer, data.errBuffer, Int32(status));
      threw := false;
    }
  }
}
