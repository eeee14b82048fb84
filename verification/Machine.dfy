/** One connection as a state machine over the steps of its strand: `Connection`, the dispatch of
    `RecordSocket` and the read loop of `PacketSocket` together. */
module Machine {
  import opened Bytes
  import opened Protocol
  import opened Framing
  import opened Links
  import opened Replies
  import opened Requests
  import Values

  datatype Phase = Open | Closing | Closed

  /** What became of a begun request. */
  datatype Fate = Live | Replied | Aborted | Dropped

  datatype Instance = Instance(id: nat, fate: Fate)

  /** `history` holds the request table and the ready announcements, `outputs` the part of each
      `RequestData` the application fills in, by serial, `noise` the value an uninitialised
      `_appStatus` happens to have. `log`, `heard` and `begun` record what was written, what the
      table went through and what became of every request; nothing depends on them. */
  datatype Core = Core(link: Link, phase: Phase, history: History, outputs: seq<Output>, closeCalls: nat, noise: int,
                       log: seq<Sent>, heard: seq<Event>, begun: seq<Instance>)
  {
    function Table(): Table {
      history.table
    }
  }

  /** How a handler ends: normally, by an exception, or in a failed BOOST_ASSERT. */
  datatype Verdict = Returned | Threw | Asserted

  datatype Result = Result(core: Core, verdict: Verdict)

  // ---------------------------------------------------------------- Connection

  function SetFate(begun: seq<Instance>, serial: nat, fate: Fate): seq<Instance> {
    if serial < |begun| then begun[serial := begun[serial].(fate := fate)] else begun
  }

  function DropLive(begun: seq<Instance>): (dropped: seq<Instance>)
    ensures |dropped| == |begun|
    ensures forall s :: 0 <= s < |begun| ==>
              dropped[s] == if begun[s].fate.Live? then begun[s].(fate := Dropped) else begun[s]
  {
    seq(|begun|, s requires 0 <= s < |begun| => if begun[s].fate.Live? then begun[s].(fate := Dropped) else begun[s])
  }

  function Register(c: Core, e: Event): Core {
    c.(history := Advance(c.history, e), heard := c.heard + [e])
  }

  function CloseAndCleanup(c: Core): Core {
    Register(c, Clear).(link := Close(c.link), phase := Closed, closeCalls := c.closeCalls + 1,
                        begun := DropLive(c.begun))
  }

  function OnEmpty(c: Core): Core {
    if c.phase.Closing? then CloseAndCleanup(c) else c
  }

  function CheckForEmpty(c: Core): Core {
    if c.Table() == map[] then OnEmpty(c) else c
  }

  function SocketClosed(c: Core): Result {
    if c.phase.Closed? then Result(c, Asserted) else Result(CloseAndCleanup(c), Returned)
  }

  function WindDown(c: Core): Result {
    if c.phase.Closed? then Result(c, Asserted) else
      var closing := c.(phase := Closing);
      Result(if c.Table() == map[] then CloseAndCleanup(closing) else closing, Returned)
  }

  /** The request leaves the table with the given fate. */
  function Retire(c: Core, e: Event, serial: nat, fate: Fate): Core {
    Register(c, e).(begun := SetFate(c.begun, serial, fate))
  }

  function OutputAt(c: Core, serial: nat): Output {
    if serial < |c.outputs| then c.outputs[serial] else Output([], [], 0)
  }

  function SetOutput(c: Core, serial: nat, o: Output): Core {
    if serial < |c.outputs| then c.(outputs := c.outputs[serial := o]) else c
  }

  /** `isValidRequest`: the id is in the table and its data is the very object of the commit. */
  predicate IsValid(c: Core, h: Handle) {
    h.id in c.Table() && c.Table()[h.id].serial == h.serial
  }

  /** `commitReplyImpl`. */
  function CommitReply(c: Core, h: Handle): Result {
    if !IsValid(c, h) then Result(c, Returned)
    else if !c.link.open then Result(c, Asserted)
    else
      var s := SendReply(c.link, h.id, OutputAt(c, h.serial));
      var d := SetOutput(c.(link := s.link), h.serial, s.output);
      if !s.ok then Result(CloseAndCleanup(d), Returned)
      else CleanUp(d.(log := c.log + [Reply(h.id, h.serial, OutputAt(c, h.serial))]), h)
  }

  /** `cleanupRequest`, whose assertion looks at the stdin flag only. */
  function CleanUp(c: Core, h: Handle): Result {
    if h.id !in c.Table() then Result(Register(c, Cleanup(h.id)), Threw)
    else if !c.Table()[h.id].inDone then Result(c, Asserted)
    else Result(CheckForEmpty(Retire(c, Cleanup(h.id), c.Table()[h.id].serial, Replied)), Returned)
  }

  // ---------------------------------------------------------------- RecordSocket

  /** Write a one-packet answer; a failed write is reported to the connection. */
  function Answer(c: Core, s: Sent): Result
    requires !s.Reply?
  {
    if !c.link.open then Result(c, Asserted)
    else
      var p := Parcels(s)[0];
      var w := WritePacket(c.link, p.id, p.kind, p.content);
      if w.ok then Result(c.(link := w.link, log := c.log + [s]), Returned)
      else SocketClosed(c.(link := w.link))
  }

  function BeginRequest(c: Core, id: nat): Result {
    var e := Begin(id, |c.outputs|);
    if id in c.Table() then Result(Register(c, e), Threw)
    else Result(Register(c, e).(outputs := c.outputs + [Output([], [], c.noise)],
                                begun := c.begun + [Instance(id, Live)]), Returned)
  }

  function AbortRequest(c: Core, id: nat): Result {
    if id !in c.Table() then Result(Register(c, Abort(id)), Threw)
    else Result(CheckForEmpty(Retire(c, Abort(id), c.Table()[id].serial, Aborted)), Returned)
  }

  function OnBegin(c: Core, id: nat, body: bytes): Result {
    if |body| < BODY_LEN then Result(c, Threw)
    else if RoleIn(body) != RESPONDER then Answer(c, Rejection(id))
    else
      var r := BeginRequest(c, id);
      if r.verdict.Returned? && !KeepsConnection(body) then WindDown(r.core) else r
  }

  function OnAbort(c: Core, id: nat): Result {
    var r := Answer(c, AbortReply(id));
    if r.verdict.Asserted? then r else AbortRequest(r.core, id)
  }

  function OnStream(c: Core, e: Event): Result {
    Result(Register(c, e), if Apply(c.Table(), e).threw then Threw else Returned)
  }

  /** `handleNewPacket`. */
  function Dispatch(c: Core, r: Record): Result {
    if r.kind == GET_VALUES then Answer(c, ValuesResult(Values.Answer(r.content)))
    else if r.kind == BEGIN_REQUEST then OnBegin(c, r.requestId, r.content)
    else if r.kind == ABORT_REQUEST then OnAbort(c, r.requestId)
    else if r.kind == PARAMS then OnStream(c, Params(r.requestId, r.content))
    else if r.kind == STDIN then OnStream(c, Stdin(r.requestId, r.content))
    else if r.kind == DATA then Result(c, Threw)
    else Answer(c, TypeRejected(r.kind))
  }

  // ---------------------------------------------------------------- PacketSocket

  datatype Reading = Reading(core: Core, input: bytes, failed: bool)

  /** The loop of `handleRead`. After an exception it goes on without looking at the state. */
  function ReadLoop(c: Core, b: bytes): Reading
    decreases |b|
  {
    match NextFrame(b)
    case Wait => Reading(c, b, false)
    case Next(Unsupported, size) => ReadLoop(c, b[size..])
    case Next(Packet(r), size) =>
      var d := Dispatch(c, r);
      match d.verdict
      case Asserted => Reading(d.core, b, true)
      case Threw => ReadLoop(d.core, b[size..])
      case Returned => if d.core.link.open then ReadLoop(d.core, b[size..]) else Reading(d.core, b[size..], false)
  }

  /** One turn of the loop over a complete record. */
  lemma PacketTurn(c: Core, b: bytes, d: Result)
    requires NextFrame(b).Next? && NextFrame(b).frame.Packet? && d == Dispatch(c, NextFrame(b).frame.record)
    ensures var rest := b[NextFrame(b).size..];
      ReadLoop(c, b) == if d.verdict.Asserted? then Reading(d.core, b, true)
                        else if d.verdict.Returned? && !d.core.link.open then Reading(d.core, rest, false)
                        else ReadLoop(d.core, rest)
  {
  }

  // ---------------------------------------------------------------- the strand

  /** `queue` holds the posted commits; `failed` says that an assertion has stopped the program. */
  datatype Conn = Conn(core: Core, input: bytes, queue: seq<Handle>, failed: bool)

  /** What can happen next: a chunk arrives, a read fails, the application posts a commit for a
      request announced to it or rewrites a request's output, a posted commit runs. */
  datatype Step =
    | Arrive(chunk: bytes)
    | ReadFails(chunk: bytes)
    | Post(handle: Handle)
    | Rewrite(serial: nat, output: Output)
    | Run(index: nat)

  function Initial(budget: nat, partial: nat, noise: int): Conn {
    Conn(Core(Link(true, [], budget, partial, false), Open, History(map[], [], []), [], 0, noise, [], [], []),
        [], [], false)
  }

  function HandleRead(c: Conn, chunk: bytes): Conn {
    if !c.core.link.open then c.(input := c.input + chunk)
    else
      var r := ReadLoop(c.core, c.input + chunk);
      c.(core := r.core, input := r.input, failed := r.failed)
  }

  function HandleReadError(c: Conn, chunk: bytes): Conn {
    if !c.core.link.open then c.(input := c.input + chunk)
    else
      var r := SocketClosed(c.core.(link := Close(c.core.link)));
      c.(core := r.core, input := c.input + chunk, failed := r.verdict.Asserted?)
  }

  function RunCommit(c: Conn, index: nat): Conn
    requires index < |c.queue|
  {
    var r := CommitReply(c.core, c.queue[index]);
    c.(core := r.core, queue := c.queue[..index] + c.queue[index + 1..], failed := r.verdict.Asserted?)
  }

  function Perform(c: Conn, step: Step): Conn {
    if c.failed then c
    else match step
      case Arrive(chunk) => HandleRead(c, chunk)
      case ReadFails(chunk) => HandleReadError(c, chunk)
      case Post(h) => if h in c.core.history.announced then c.(queue := c.queue + [h]) else c
      case Rewrite(serial, o) => c.(core := SetOutput(c.core, serial, o))
      case Run(index) => if index < |c.queue| then RunCommit(c, index) else c
  }

  function Walk(c: Conn, steps: seq<Step>): Conn {
    if steps == [] then c else Perform(Walk(c, steps[..|steps| - 1]), steps[|steps| - 1])
  }
}
