/** `RecordSocket` and `Connection` over the objects they own, each step proved to be the step of the
    state machine. */
module Connections {
  import opened Bytes
  import opened Protocol
  import opened Framing
  import opened Requests
  import opened PacketSockets
  import opened ConnectionDatas
  import Links
  import Replies
  import Machine
  import Values

  // ---------------------------------------------------------------- RecordSocket

  class RecordSocket {
    const packetSocket: PacketSocket

    constructor (packetSocket: PacketSocket)
      ensures this.packetSocket == packetSocket
    {
      this.packetSocket := packetSocket;
    }

    /** One of the two streams of a reply: skipped if empty, consumed if written. */
    method SendStream(requestId: nat, kind: byte, buffer: bytes) returns (ok: bool)
      requires packetSocket.open
      modifies packetSocket`open, packetSocket`wire, packetSocket`budget, packetSocket`broken
      ensures Links.Written(packetSocket.View(), ok)
              == Replies.SendStream(old(packetSocket.View()), requestId, kind, buffer)
      ensures ok ==> packetSocket.open
    {
      ok := true;
      if |buffer| != 0 {
        ok := packetSocket.WritePacket(requestId, kind, Uint32(|buffer|), buffer);
        Links.PacketWritten(old(packetSocket.View()), requestId, kind, Low32(buffer));
      }
    }

    method SendControl(requestId: nat, kind: byte, content: bytes) returns (ok: bool)
      requires packetSocket.open && |content| <= BODY_LEN
      modifies packetSocket`open, packetSocket`wire, packetSocket`budget, packetSocket`broken
      ensures Links.Written(packetSocket.View(), ok)
              == Links.WritePacket(old(packetSocket.View()), requestId, kind, content)
      ensures ok ==> packetSocket.open
    {
      assert content[..|content|] == content;
      ok := packetSocket.WritePacket(requestId, kind, |content|, content);
      Links.PacketWritten(old(packetSocket.View()), requestId, kind, content);
    }

    method SendReply(requestId: nat, data: RequestData) returns (ok: bool)
      requires packetSocket.open
      modifies packetSocket`open, packetSocket`wire, packetSocket`budget, packetSocket`broken
      modifies data`outBuffer, data`errBuffer
      ensures Replies.ReplySent(packetSocket.View(), data.Output(), ok)
           == Replies.SendReply(old(packetSocket.View()), requestId, old(data.Output()))
    {
      ok := SendStream(requestId, STDOUT, data.outBuffer);
      if !ok {
        return;
      }
      data.outBuffer := [];
      ok := SendStream(requestId, STDERR, data.errBuffer);
      if !ok {
        return;
      }
      data.errBuffer := [];
      ok := SendControl(requestId, STDOUT, []);
      if !ok {
        return;
      }
      ok := SendControl(requestId, STDERR, []);
      if !ok {
        return;
      }
      ok := SendControl(requestId, END_REQUEST, EndRequestBody(data.appStatus, REQUEST_COMPLETE));
    }
  }

  // ---------------------------------------------------------------- Connection

  /** A request id with a shared pointer to its data: what the ready callback hands out and what a
      posted commit carries. */
  datatype Ref = Ref(id: nat, data: RequestData)

  ghost function HandlesOf(refs: seq<Ref>): (handles: seq<Handle>)
    ensures |handles| == |refs|
  {
    seq(|refs|, i requires 0 <= i < |refs| => HandleOf(refs[i]))
  }

  ghost function HandleOf(ref: Ref): Handle {
    Handle(ref.id, ref.data.serial)
  }

  class Connection {
    const socket: PacketSocket
    const recordSocket: RecordSocket
    const data: ConnectionData
    const noise: int
    var phase: Machine.Phase
    var announced: seq<Ref>
    var closeCalls: nat
    var queue: seq<Ref>
    var failed: bool

    /** The state this object stands for, with its record of the past. */
    ghost var core: Machine.Core

    // -------------------------------------------------------------- view

    /** Every field is what `core` says. */
    ghost predicate Mirrored()
      reads this, socket, data
    {
      && core.link == socket.View()
      && core.phase == phase
      && core.history.table == data.table
      && core.history.announced == HandlesOf(announced)
      && core.closeCalls == closeCalls
      && core.noise == noise
    }

    /** A serial names one request, whose output is at that index. */
    ghost predicate Named(outputs: seq<Replies.Output>)
      reads data`objects, data.objects`outBuffer, data.objects`errBuffer, data.objects`appStatus
    {
      && (forall d :: d in data.objects ==> d.serial < |outputs| && outputs[d.serial] == d.Output())
      && (forall d, e :: d in data.objects && e in data.objects && d.serial == e.serial ==> d == e)
    }

    /** Every request referred to was begun here. */
    ghost predicate Referenced()
      reads this`announced, this`queue, data`objects
    {
      && (forall i :: 0 <= i < |announced| ==> announced[i].data in data.objects)
      && (forall i :: 0 <= i < |queue| ==> queue[i].data in data.objects)
    }

    /** The objects fit together. */
    ghost predicate Whole()
      reads this, data, data.objects
    {
      && recordSocket.packetSocket == socket
      && data.Valid()
      && Named(core.outputs)
      && Referenced()
    }

    ghost predicate Valid()
      reads this, socket, data, data.objects
    {
      Whole() && Mirrored()
    }

    ghost function View(): Machine.Conn
      reads this, socket
    {
      Machine.Conn(core, socket.inputBuffer, HandlesOf(queue), failed)
    }

    /** Requests are only ever added, and added ones are new objects. */
    twostate predicate Grown()
      reads this, data
    {
      old(data.objects) <= data.objects && fresh(data.objects - old(data.objects))
    }

    constructor (budget: nat, partial: nat, noise: int)
      ensures Valid() && View() == Machine.Initial(budget, partial, noise)
      ensures fresh(socket) && fresh(data) && data.objects == {}
    {
      var packetSocket := new PacketSocket(budget, partial);
      socket := packetSocket;
      recordSocket := new RecordSocket(packetSocket);
      data := new ConnectionData();
      this.noise := noise;
      phase, announced, closeCalls, queue, failed := Machine.Open, [], 0, [], false;
      core := Machine.Initial(budget, partial, noise).core;
    }

    /** Set down what has happened. */
    ghost method Note(next: Machine.Core)
      requires Whole() && next.outputs == core.outputs
      modifies this`core
      ensures Whole() && core == next
    {
      core := next;
    }

    // -------------------------------------------------------------- Connection

    method CloseAndCleanup()
      requires Valid()
      modifies this`phase, this`closeCalls, this`core, data`requestMap, data`table
      modifies socket`open, socket`wire, socket`budget, socket`broken
      ensures Valid() && core == Machine.CloseAndCleanup(old(core))
    {
      data.Clear();
      socket.Close();
      phase := Machine.Closed;
      closeCalls := closeCalls + 1;
      assert core.history.announced + [] == core.history.announced;
      core := Machine.CloseAndCleanup(core);
    }

    method HandleOnEmpty()
      requires Valid()
      modifies this`phase, this`closeCalls, this`core, data`requestMap, data`table
      modifies socket`open, socket`wire, socket`budget, socket`broken
      ensures Valid() && core == Machine.OnEmpty(old(core))
    {
      if phase == Machine.Closing {
        CloseAndCleanup();
      }
    }

    /** SOCKET_CLOSED. */
    method HandleSocketClosed() returns (verdict: Machine.Verdict)
      requires Valid()
      modifies this`phase, this`closeCalls, this`core, data`requestMap, data`table
      modifies socket`open, socket`wire, socket`budget, socket`broken
      ensures Valid() && Machine.Result(core, verdict) == Machine.SocketClosed(old(core))
    {
      if phase == Machine.Closed {
        return Machine.Asserted;
      }
      CloseAndCleanup();
      verdict := Machine.Returned;
    }

    method StartClosing()
      requires Valid()
      modifies this`phase, this`core
      ensures Valid() && core == old(core).(phase := Machine.Closing)
    {
      phase, core := Machine.Closing, core.(phase := Machine.Closing);
    }

    /** CONNECTION_WIND_DOWN. */
    method HandleWindDown() returns (verdict: Machine.Verdict)
      requires Valid()
      modifies this`phase, this`closeCalls, this`core, data`requestMap, data`table
      modifies socket`open, socket`wire, socket`budget, socket`broken
      ensures Valid() && Machine.Result(core, verdict) == Machine.WindDown(old(core))
    {
      if phase == Machine.Closed {
        return Machine.Asserted;
      }
      StartClosing();
      data.EmptyTable();
      if data.Size() == 0 {
        CloseAndCleanup();
      }
      verdict := Machine.Returned;
    }

    // -------------------------------------------------------------- RecordSocket, packet by packet

    /** One packet on its way to the peer. */
    method WriteOut(requestId: nat, kind: byte, content: bytes) returns (ok: bool)
      requires Valid() && socket.open && |content| < TWO_32
      modifies this`core, socket`open, socket`wire, socket`budget, socket`broken
      ensures Valid()
      ensures var w := Links.WritePacket(old(core).link, requestId, kind, content);
        ok == w.ok && core == old(core).(link := w.link)
    {
      assert content[..|content|] == content;
      ok := socket.WritePacket(requestId, kind, |content|, content);
      assert Whole();
      core := core.(link := socket.View());
    }

    /** Write a one-packet answer and report a failed write to the connection. */
    method WriteAnswer(requestId: nat, kind: byte, content: bytes, ghost sent: Replies.Sent)
      returns (verdict: Machine.Verdict)
      requires Valid() && |content| < TWO_32
      requires !sent.Reply? && Replies.Parcels(sent) == [Replies.Parcel(requestId, kind, content)]
      modifies this`phase, this`closeCalls, this`core, data`requestMap, data`table
      modifies socket`open, socket`wire, socket`budget, socket`broken
      ensures Valid() && Machine.Result(core, verdict) == Machine.Answer(old(core), sent)
    {
      if !socket.open {
        return Machine.Asserted;
      }
      var ok := WriteOut(requestId, kind, content);
      if ok {
        Note(core.(log := core.log + [sent]));
        verdict := Machine.Returned;
      } else {
        verdict := HandleSocketClosed();
      }
    }

    ghost method AppendOutput()
      requires Whole()
      modifies this`core
      ensures Whole() && core == old(core).(outputs := old(core).outputs + [Replies.Output([], [], noise)])
    {
      core := core.(outputs := core.outputs + [Replies.Output([], [], noise)]);
    }

    /** One more request, with the last serial and the last output. */
    lemma NamedGrows(before: set<RequestData>, added: RequestData, outputs: seq<Replies.Output>)
      requires data.objects == before + {added}
      requires outputs != [] && added.serial == |outputs| - 1 && outputs[added.serial] == added.Output()
      requires forall d :: d in before ==> d.serial < |outputs| - 1 && outputs[d.serial] == d.Output()
      requires forall d, e :: d in before && e in before && d.serial == e.serial ==> d == e
      ensures Named(outputs)
    {
    }

    /** The table takes in a new request, whose output is there already. */
    method AddRequest(requestId: nat)
      requires Whole() && requestId !in data.requestMap
      requires core.outputs != [] && core.outputs[|core.outputs| - 1] == Replies.Output([], [], noise)
      requires forall d :: d in data.objects ==> d.serial < |core.outputs| - 1
      modifies data
      ensures Whole() && Grown()
      ensures data.table == old(data.table)[requestId := Fresh(|core.outputs| - 1)]
    {
      var threw := data.HandleBeginRequest(requestId, noise, |core.outputs| - 1);
      NamedGrows(old(data.objects), data.requestMap[requestId].data, core.outputs);
    }

    method BeginRequest(requestId: nat) returns (verdict: Machine.Verdict)
      requires Valid()
      modifies this`core, data
      ensures Valid() && Machine.Result(core, verdict) == Machine.BeginRequest(old(core), requestId)
      ensures Grown()
    {
      ghost var before := core;
      assert before.history.announced + [] == before.history.announced;
      if requestId in data.requestMap {
        Note(Machine.BeginRequest(before, requestId).core);
        return Machine.Threw;
      }
      AppendOutput();
      AddRequest(requestId);
      Note(Machine.BeginRequest(before, requestId).core);
      verdict := Machine.Returned;
    }

    method OnBegin(requestId: nat, content: bytes) returns (verdict: Machine.Verdict)
      requires Valid()
      modifies this`phase, this`closeCalls, this`core, data
      modifies socket`open, socket`wire, socket`budget, socket`broken
      ensures Valid() && Machine.Result(core, verdict) == Machine.OnBegin(old(core), requestId, content)
      ensures Grown()
    {
      if |content| < BODY_LEN {
        return Machine.Threw;
      }
      if RoleIn(content) != RESPONDER {
        verdict := WriteAnswer(requestId, END_REQUEST, EndRequestBody(0, UNKNOWN_ROLE), Replies.Rejection(requestId));
        return;
      }
      verdict := BeginRequest(requestId);
      if verdict == Machine.Returned && !KeepsConnection(content) {
        verdict := HandleWindDown();
      }
    }

    /** The table lets a request go. */
    method RemoveRequest(requestId: nat) returns (threw: bool, empty: bool)
      requires Whole()
      modifies data`requestMap, data`table
      ensures Whole() && Effect(data.table, threw, false) == Apply(old(data.table), Abort(requestId))
      ensures empty <==> !threw && data.table == map[]
    {
      threw, empty := data.HandleAbortRequest(requestId);
    }

    method AbortRequest(requestId: nat) returns (verdict: Machine.Verdict)
      requires Valid()
      modifies this`phase, this`closeCalls, this`core, data`requestMap, data`table
      modifies socket`open, socket`wire, socket`budget, socket`broken
      ensures Valid() && Machine.Result(core, verdict) == Machine.AbortRequest(old(core), requestId)
    {
      var threw, empty := RemoveRequest(requestId);
      assert core.history.announced + [] == core.history.announced;
      Note(if threw then Machine.Register(core, Abort(requestId))
           else Machine.Retire(core, Abort(requestId), core.Table()[requestId].serial, Machine.Aborted));
      verdict := if threw then Machine.Threw else Machine.Returned;
      if empty {
        HandleOnEmpty();
      }
    }

    method OnAbort(requestId: nat) returns (verdict: Machine.Verdict)
      requires Valid()
      modifies this`phase, this`closeCalls, this`core, data`requestMap, data`table
      modifies socket`open, socket`wire, socket`budget, socket`broken
      ensures Valid() && Machine.Result(core, verdict) == Machine.OnAbort(old(core), requestId)
    {
      verdict := WriteAnswer(requestId, REQUEST_COMPLETE, EndRequestBody(1, REQUEST_COMPLETE),
                             Replies.AbortReply(requestId));
      if verdict != Machine.Asserted {
        verdict := AbortRequest(requestId);
      }
    }

    method TakeStdin(requestId: nat, content: bytes) returns (threw: bool, ready: bool)
      requires Whole()
      modifies data`requestMap, data`table, data.objects`stdin
      ensures Whole() && Effect(data.table, threw, ready) == Apply(old(data.table), Stdin(requestId, content))
    {
      threw, ready := data.HandleStdin(requestId, content);
      assert Named(core.outputs) && Referenced();
    }

    method TakeParams(requestId: nat, content: bytes) returns (threw: bool, ready: bool)
      requires Whole()
      modifies data`requestMap, data`table, data.objects`paramsBuffer, data.objects`paramsMap
      ensures Whole() && Effect(data.table, threw, ready) == Apply(old(data.table), Params(requestId, content))
    {
      threw, ready := data.HandleParams(requestId, content);
      assert Named(core.outputs) && Referenced();
    }

    /** The ready callback. */
    method HandleRequestReady(requestId: nat)
      requires Whole() && requestId in data.requestMap
      modifies this`announced
      ensures Whole()
      ensures HandlesOf(announced) == HandlesOf(old(announced)) + [Handle(requestId, data.table[requestId].serial)]
    {
      announced := announced + [Ref(requestId, data.requestMap[requestId].data)];
      assert HandlesOf(announced) == HandlesOf(old(announced)) + [Handle(requestId, data.table[requestId].serial)];
    }

    /** The end of a stream handler. */
    method AnnounceIf(ready: bool, requestId: nat, ghost e: Event)
      requires Whole() && (ready ==> requestId in data.requestMap)
      modifies this`announced, this`core
      ensures Whole() && core == Machine.Register(old(core), e)
      ensures HandlesOf(announced)
           == HandlesOf(old(announced)) + if ready then [Handle(requestId, data.table[requestId].serial)] else []
    {
      if ready {
        HandleRequestReady(requestId);
      } else {
        assert HandlesOf(announced) + [] == HandlesOf(announced);
      }
      Note(Machine.Register(core, e));
    }

    method OnStdin(requestId: nat, content: bytes) returns (verdict: Machine.Verdict)
      requires Valid()
      modifies this`announced, this`core, data`requestMap, data`table, data.objects`stdin
      ensures Valid() && Machine.Result(core, verdict) == Machine.OnStream(old(core), Stdin(requestId, content))
    {
      var threw, ready := TakeStdin(requestId, content);
      AnnounceIf(ready, requestId, Stdin(requestId, content));
      verdict := if threw then Machine.Threw else Machine.Returned;
    }

    method OnParams(requestId: nat, content: bytes) returns (verdict: Machine.Verdict)
      requires Valid()
      modifies this`announced, this`core, data`requestMap, data`table, data.objects`paramsBuffer, data.objects`paramsMap
      ensures Valid() && Machine.Result(core, verdict) == Machine.OnStream(old(core), Params(requestId, content))
    {
      var threw, ready := TakeParams(requestId, content);
      AnnounceIf(ready, requestId, Params(requestId, content));
      verdict := if threw then Machine.Threw else Machine.Returned;
    }

    method OnGetValues(content: bytes) returns (verdict: Machine.Verdict)
      requires Valid() && |content| < TWO_32
      modifies this`phase, this`closeCalls, this`core, data`requestMap, data`table
      modifies socket`open, socket`wire, socket`budget, socket`broken
      ensures Valid() && Machine.Result(core, verdict)
              == Machine.Answer(old(core), Replies.ValuesResult(Values.Answer(content)))
    {
      var outputBuffer := Values.GetValuesResult(content);
      Values.AnswerShort(content);
      verdict := WriteAnswer(0, GET_VALUES_RESULT, outputBuffer, Replies.ValuesResult(outputBuffer));
    }

    method HandleNewPacket(requestId: nat, kind: byte, content: bytes) returns (verdict: Machine.Verdict)
      requires Valid() && |content| < TWO_32
      modifies this`phase, this`closeCalls, this`announced, this`core
      modifies data, data.objects`stdin, data.objects`paramsBuffer, data.objects`paramsMap
      modifies socket`open, socket`wire, socket`budget, socket`broken
      ensures Valid() && Machine.Result(core, verdict) == Machine.Dispatch(old(core), Record(requestId, kind, content))
      ensures Grown()
    {
      if kind == GET_VALUES {
        verdict := OnGetValues(content);
      } else if kind == BEGIN_REQUEST {
        verdict := OnBegin(requestId, content);
      } else if kind == ABORT_REQUEST {
        verdict := OnAbort(requestId);
      } else if kind == PARAMS {
        verdict := OnParams(requestId, content);
      } else if kind == STDIN {
        verdict := OnStdin(requestId, content);
      } else if kind == DATA {
        verdict := Machine.Threw;
      } else {
        verdict := WriteAnswer(0, UNKNOWN_TYPE, UnknownTypeBody(kind), Replies.TypeRejected(kind));
      }
    }

    // -------------------------------------------------------------- PacketSocket's read handler

    /** One complete record: its handler, and unless that stops the program, off the buffer. */
    method ReadPacket() returns (verdict: Machine.Verdict)
      requires Valid() && NextFrame(socket.inputBuffer).Next? && NextFrame(socket.inputBuffer).frame.Packet?
      modifies this`phase, this`closeCalls, this`announced, this`core
      modifies data, data.objects`stdin, data.objects`paramsBuffer, data.objects`paramsMap, socket
      ensures Valid() && Grown()
      ensures Machine.Result(core, verdict)
              == Machine.Dispatch(old(core), NextFrame(old(socket.inputBuffer)).frame.record)
      ensures var b := old(socket.inputBuffer);
        socket.inputBuffer == if verdict.Asserted? then b else b[NextFrame(b).size..]
    {
      var b := socket.inputBuffer;
      verdict := HandleNewPacket(RequestIdIn(b), b[1], b[HEADER_LEN..HEADER_LEN + ContentLengthIn(b)]);
      if verdict != Machine.Asserted {
        socket.Consume(DeclaredSize(b));
      }
    }

    /** One turn of the read loop over a complete record, and whether it was the last. */
    method HandleNext() returns (stopped: bool)
      requires Valid() && !failed
      requires NextFrame(socket.inputBuffer).Next? && NextFrame(socket.inputBuffer).frame.Packet?
      modifies this`phase, this`closeCalls, this`announced, this`core, this`failed
      modifies data, data.objects`stdin, data.objects`paramsBuffer, data.objects`paramsMap, socket
      ensures Valid() && Grown() && (failed ==> stopped)
      ensures !stopped ==> |socket.inputBuffer| < |old(socket.inputBuffer)|
      ensures Machine.ReadLoop(old(core), old(socket.inputBuffer))
           == if stopped then Machine.Reading(core, socket.inputBuffer, failed)
              else Machine.ReadLoop(core, socket.inputBuffer)
    {
      ghost var c, b := core, socket.inputBuffer;
      var verdict := ReadPacket();
      Machine.PacketTurn(c, b, Machine.Result(core, verdict));
      failed := verdict == Machine.Asserted;
      stopped := failed || (verdict == Machine.Returned && !socket.open);
    }

    /** The read loop of `PacketSocket::handleRead`, its callback bound to this connection. */
    method ReadPackets()
      requires Valid() && !failed && socket.open
      modifies this`phase, this`closeCalls, this`announced, this`core, this`failed
      modifies data, data.objects`stdin, data.objects`paramsBuffer, data.objects`paramsMap, socket
      ensures Valid() && Grown()
      ensures Machine.Reading(core, socket.inputBuffer, failed) == Machine.ReadLoop(old(core), old(socket.inputBuffer))
    {
      while |socket.inputBuffer| >= HEADER_LEN
        invariant Valid() && !failed && Grown()
        invariant Machine.ReadLoop(old(core), old(socket.inputBuffer)) == Machine.ReadLoop(core, socket.inputBuffer)
        decreases |socket.inputBuffer|
      {
        var b := socket.inputBuffer;
        if b[0] != VERSION_1 {
          socket.Consume(DeclaredSize(b));
        } else if |b| < DeclaredSize(b) {
          return;
        } else {
          var stopped := HandleNext();
          if stopped {
            return;
          }
        }
      }
    }

    method HandleDisconnect()
      requires Valid() && !failed && socket.open
      modifies this`phase, this`closeCalls, this`core, this`failed, data`requestMap, data`table
      modifies socket`open, socket`wire, socket`budget, socket`broken
      ensures Valid()
      ensures var r := Machine.SocketClosed(old(core).(link := Links.Close(old(core).link)));
        core == r.core && failed == r.verdict.Asserted?
    {
      socket.Close();
      Note(core.(link := socket.View()));
      var verdict := HandleSocketClosed();
      failed := verdict == Machine.Asserted;
    }

    method HandleRead(error: bool, chunk: bytes)
      requires Valid() && !failed
      modifies this`phase, this`closeCalls, this`announced, this`core, this`failed
      modifies data, data.objects`stdin, data.objects`paramsBuffer, data.objects`paramsMap, socket
      ensures Valid() && Grown()
      ensures View() == Machine.Perform(old(View()), if error then Machine.ReadFails(chunk) else Machine.Arrive(chunk))
    {
      socket.Commit(chunk);
      if socket.open {
        if error {
          HandleDisconnect();
        } else {
          ReadPackets();
        }
      }
    }

    // -------------------------------------------------------------- commits

    /** Called by a request that was handed out; chains on the strand. */
    method CommitReply(requestId: nat, request: RequestData)
      requires Valid() && !failed && Ref(requestId, request) in announced
      modifies this`queue
      ensures Valid() && queue == old(queue) + [Ref(requestId, request)]
      ensures View() == Machine.Perform(old(View()), Machine.Post(Handle(requestId, request.serial)))
    {
      queue := queue + [Ref(requestId, request)];
      assert HandlesOf(queue) == HandlesOf(old(queue)) + [Handle(requestId, request.serial)];
      var i :| 0 <= i < |announced| && announced[i] == Ref(requestId, request);
      assert HandlesOf(announced)[i] == Handle(requestId, request.serial);
    }

    /** The reply goes out, and what of it went out is gone from the buffers. */
    method SendReply(requestId: nat, request: RequestData) returns (ok: bool)
      requires Valid() && socket.open && request in data.objects
      modifies this`core, request`outBuffer, request`errBuffer
      modifies socket`open, socket`wire, socket`budget, socket`broken
      ensures Valid()
      ensures var s := Replies.SendReply(old(core).link, requestId, old(core).outputs[request.serial]);
        ok == s.ok && core == Machine.SetOutput(old(core).(link := s.link), request.serial, s.output)
    {
      ok := recordSocket.SendReply(requestId, request);
      assert data.Valid() && Referenced();
      core := Machine.SetOutput(core.(link := socket.View()), request.serial, request.Output());
    }

    method CleanupRequest(requestId: nat) returns (verdict: Machine.Verdict)
      requires Valid() && requestId in data.requestMap
      modifies this`phase, this`closeCalls, this`core, data`requestMap, data`table
      modifies socket`open, socket`wire, socket`budget, socket`broken
      ensures Valid()
      ensures Machine.Result(core, verdict)
           == Machine.CleanUp(old(core), Handle(requestId, old(data.requestMap[requestId].data.serial)))
    {
      assert core.history.announced + [] == core.history.announced;
      var threw, asserted, empty := ReleaseRequest(requestId);
      if asserted {
        return Machine.Asserted;
      }
      Note(Machine.Retire(core, Cleanup(requestId), core.Table()[requestId].serial, Machine.Replied));
      if empty {
        HandleOnEmpty();
      }
      verdict := Machine.Returned;
    }

    method ReleaseRequest(requestId: nat) returns (threw: bool, asserted: bool, empty: bool)
      requires Whole() && requestId in data.requestMap
      modifies data`requestMap, data`table
      ensures Whole() && !threw
      ensures asserted <==> !old(data.table)[requestId].inDone
      ensures asserted ==> data.table == old(data.table)
      ensures !asserted ==> Effect(data.table, false, false) == Apply(old(data.table), Cleanup(requestId))
      ensures !asserted ==> (empty <==> data.table == map[])
    {
      threw, asserted, empty := data.CleanupRequest(requestId);
    }

    method CommitReplyImpl(requestId: nat, request: RequestData) returns (verdict: Machine.Verdict)
      requires Valid() && request in data.objects
      modifies this`phase, this`closeCalls, this`core, data`requestMap, data`table, request`outBuffer, request`errBuffer
      modifies socket`open, socket`wire, socket`budget, socket`broken
      ensures Valid() && Machine.Result(core, verdict)
              == Machine.CommitReply(old(core), Handle(requestId, request.serial))
    {
      if !data.IsValidRequest(requestId, request) {
        return Machine.Returned;
      }
      if !socket.open {
        return Machine.Asserted;
      }
      ghost var h, o := Handle(requestId, request.serial), core.outputs[request.serial];
      var ok := SendReply(requestId, request);
      if ok {
        Note(core.(log := core.log + [Replies.Reply(requestId, request.serial, o)]));
        verdict := CleanupRequest(requestId);
      } else {
        CloseAndCleanup();
        verdict := Machine.Returned;
      }
    }

    /** The strand runs one of the posted commits. */
    method RunPosted(index: nat)
      requires Valid() && !failed && index < |queue|
      modifies this`phase, this`closeCalls, this`core, this`failed, this`queue, data`requestMap, data`table
      modifies data.objects`outBuffer, data.objects`errBuffer
      modifies socket`open, socket`wire, socket`budget, socket`broken
      ensures Valid() && View() == Machine.Perform(old(View()), Machine.Run(index))
    {
      var ref := queue[index];
      assert HandlesOf(queue)[index] == Handle(ref.id, ref.data.serial);
      TakePosted(index);
      RunCommit(ref);
    }

    method RunCommit(ref: Ref)
      requires Valid() && ref.data in data.objects
      modifies this`phase, this`closeCalls, this`core, this`failed, data`requestMap, data`table
      modifies ref.data`outBuffer, ref.data`errBuffer
      modifies socket`open, socket`wire, socket`budget, socket`broken
      ensures Valid()
      ensures Machine.Result(core, if failed then Machine.Asserted else Machine.Returned)
           == Machine.CommitReply(old(core), Handle(ref.id, ref.data.serial))
    {
      var verdict := CommitReplyImpl(ref.id, ref.data);
      failed := verdict == Machine.Asserted;
    }

    method TakePosted(index: nat)
      requires Valid() && index < |queue|
      modifies this`queue
      ensures Valid() && HandlesOf(queue) == HandlesOf(old(queue))[..index] + HandlesOf(old(queue))[index + 1..]
    {
      queue := queue[..index] + queue[index + 1..];
    }

    /** The application rewrites the output of a request it holds. */
    method Rewrite(request: RequestData, out: bytes, err: bytes, status: int)
      requires Valid() && !failed && request in data.objects
      modifies this`core, request`outBuffer, request`errBuffer, request`appStatus
      ensures Valid()
      ensures View() == Machine.Perform(old(View()), Machine.Rewrite(request.serial, Replies.Output(out, err, status)))
    {
      SetBuffers(request, out, err, status);
    }

    method SetBuffers(request: RequestData, out: bytes, err: bytes, status: int)
      requires Whole() && request in data.objects
      modifies this`core, request`outBuffer, request`errBuffer, request`appStatus
      ensures Whole() && request.Output() == Replies.Output(out, err, status)
      ensures core == Machine.SetOutput(old(core), request.serial, Replies.Output(out, err, status))
    {
      ghost var o := Replies.Output(out, err, status);
      assert forall d :: d in data.objects && d != request ==>
             core.outputs[request.serial := o][d.serial] == d.Output();
      request.SetOutput(out, err, status);
      assert data.Valid() && Referenced();
      core := Machine.SetOutput(core, request.serial, o);
    }
  }
}
