/** Safety of a connection over whole runs, and the one way the code can leave it. */
module Lifecycle {
  import opened Bytes
  import opened Protocol
  import opened Framing
  import opened Links
  import opened Replies
  import opened Requests
  import opened Machine
  import opened Invariants
  import Values

  /** Frames that an already closed connection shrugs off: they throw and change nothing of note. */
  predicate Harmless(f: Frame) {
    match f
    case Unsupported => true
    case Packet(r) => r.kind in {PARAMS, STDIN, DATA} || (r.kind == BEGIN_REQUEST && |r.content| < BODY_LEN)
  }

  predicate AllHarmless(fs: seq<Frame>) {
    forall i :: 0 <= i < |fs| ==> Harmless(fs[i])
  }

  /** If the peer refuses the answer to one of these aborts, nothing but harmless frames follows
      that abort in the same buffer. */
  predicate Peaceful(c: Core, fs: seq<Frame>)
    decreases |fs|
  {
    if fs == [] then true else
      match fs[0]
      case Unsupported => Peaceful(c, fs[1..])
      case Packet(r) =>
        if LosesAbort(c, r) then AllHarmless(fs[1..])
        else Dispatch(c, r).core.link.open ==> Peaceful(Dispatch(c, r).core, fs[1..])
  }

  ghost predicate Intact(r: Reading) {
    !r.failed && Good(r.core)
  }

  // ---------------------------------------------------------------- reading while closed

  /** An exception before anything changed, or from the request table. */
  predicate NoUse(c: Core, r: Record, d: Result) {
    || d == Result(c, Threw)
    || d == OnStream(c, Params(r.requestId, r.content))
    || d == OnStream(c, Stdin(r.requestId, r.content))
  }

  lemma HarmlessNoUse(c: Core, r: Record)
    requires Harmless(Packet(r))
    ensures NoUse(c, r, Dispatch(c, r))
  {
  }

  lemma StreamWhenClosed(c: Core, e: Event)
    requires Good(c) && !c.link.open && (e.Stdin? || e.Params?)
    ensures var d := OnStream(c, e);
      d.verdict.Threw? && Good(d.core) && d.core.link == c.link && d.core.begun == c.begun
  {
    RejectedGood(c, e);
  }

  lemma NoUseWhenClosed(c: Core, r: Record, d: Result)
    requires Good(c) && !c.link.open && NoUse(c, r, d)
    ensures d.verdict.Threw? && Good(d.core) && d.core.link == c.link && d.core.begun == c.begun
  {
    StreamWhenClosed(c, Params(r.requestId, r.content));
    StreamWhenClosed(c, Stdin(r.requestId, r.content));
  }

  lemma HarmlessWhenClosed(c: Core, r: Record)
    requires Good(c) && !c.link.open && Harmless(Packet(r))
    ensures var d := Dispatch(c, r);
      d.verdict.Threw? && Good(d.core) && d.core.link == c.link && d.core.begun == c.begun
  {
    HarmlessNoUse(c, r);
    NoUseWhenClosed(c, r, Dispatch(c, r));
  }

  /** A begin that enters a closed connection. */
  predicate Intrudes(r: Record) {
    r.kind == BEGIN_REQUEST && |r.content| >= BODY_LEN && RoleIn(r.content) == RESPONDER && KeepsConnection(r.content)
  }

  /** Any other record fails an assertion, unless it brings a request into the closed connection. */
  lemma HarmfulWhenClosed(c: Core, r: Record)
    requires Good(c) && !c.link.open && !Harmless(Packet(r))
    ensures !Intrudes(r) ==> Dispatch(c, r).verdict.Asserted?
    ensures Intrudes(r) ==> var d := Dispatch(c, r);
      d.verdict.Returned? && !d.core.link.open && d.core.phase.Closed? && r.requestId in d.core.Table()
  {
    if r.kind == BEGIN_REQUEST && RoleIn(r.content) == RESPONDER {
      assert r.requestId in BeginRequest(c, r.requestId).core.Table();
    }
  }

  lemma {:induction false} ClosedReadIff(c: Core, b: bytes)
    requires Good(c) && !c.link.open
    ensures Intact(ReadLoop(c, b)) <==> AllHarmless(Frames(b))
    decreases |b|
  {
    match NextFrame(b)
    case Wait =>
    case Next(f, size) =>
      assert Frames(b)[0] == f && Frames(b)[1..] == Frames(b[size..]);
      match f {
        case Unsupported =>
          ClosedReadIff(c, b[size..]);
        case Packet(r) =>
          if Harmless(f) {
            HarmlessWhenClosed(c, r);
            ClosedReadIff(Dispatch(c, r).core, b[size..]);
          } else {
            HarmfulWhenClosed(c, r);
          }
      }
      AllHarmlessCons(f, Frames(b[size..]));
  }

  lemma AllHarmlessCons(f: Frame, fs: seq<Frame>)
    ensures AllHarmless([f] + fs) <==> Harmless(f) && AllHarmless(fs)
  {
    if AllHarmless([f] + fs) {
      assert Harmless(([f] + fs)[0]);
      forall i | 0 <= i < |fs| ensures Harmless(fs[i]) {
        assert ([f] + fs)[i + 1] == fs[i];
      }
    }
  }

  // ---------------------------------------------------------------- reading while open

  lemma PeacefulTurn(c: Core, r: Record, fs: seq<Frame>)
    ensures Peaceful(c, [Packet(r)] + fs)
       <==> if LosesAbort(c, r) then AllHarmless(fs)
            else Dispatch(c, r).core.link.open ==> Peaceful(Dispatch(c, r).core, fs)
  {
    assert ([Packet(r)] + fs)[1..] == fs;
  }

  /** One `handleRead` keeps the connection intact exactly when no lost abort answer is followed
      by a harmful record in the same buffer. */
  lemma {:induction false} ReadIntactIff(c: Core, b: bytes)
    requires Good(c) && c.link.open
    ensures Intact(ReadLoop(c, b)) <==> Peaceful(c, Frames(b))
    decreases |b|
  {
    match NextFrame(b)
    case Wait =>
    case Next(f, size) =>
      var rest := b[size..];
      FramesTurn(b, f, size);
      match f
      case Unsupported =>
        assert Frames(b)[1..] == Frames(rest);
        ReadIntactIff(c, rest);
      case Packet(r) =>
        DispatchGood(c, r);
        PacketTurn(c, b, Dispatch(c, r));
        PeacefulTurn(c, r, Frames(rest));
        IntactTurn(c, Dispatch(c, r), r, rest);
  }

  /** The rest of the buffer after a record that was handled. */
  lemma {:induction false} IntactTurn(c: Core, d: Result, r: Record, rest: bytes)
    requires Good(c) && c.link.open && d == Dispatch(c, r) && !d.verdict.Asserted? && Good(d.core)
    requires d.verdict.Threw? && !d.core.link.open <==> LosesAbort(c, r)
    ensures d.core.link.open ==> (Intact(ReadLoop(d.core, rest)) <==> Peaceful(d.core, Frames(rest)))
    ensures LosesAbort(c, r) ==> (Intact(ReadLoop(d.core, rest)) <==> AllHarmless(Frames(rest)))
    decreases |rest| + 1
  {
    if d.core.link.open {
      ReadIntactIff(d.core, rest);
    } else {
      ClosedReadIff(d.core, rest);
    }
  }

  // ---------------------------------------------------------------- runs

  predicate AllAnnounced(queue: seq<Handle>, h: History) {
    forall i :: 0 <= i < |queue| ==> queue[i] in h.announced
  }

  /** Everything but the lifecycle. */
  ghost predicate ConnSound(c: Conn) {
    Sound(c.core) && AllAnnounced(c.queue, c.core.history)
  }

  ghost predicate ConnGood(c: Conn) {
    !c.failed && Good(c.core) && AllAnnounced(c.queue, c.core.history)
  }

  predicate StepPeaceful(c: Conn, step: Step) {
    step.Arrive? && c.core.link.open ==> Peaceful(c.core, Frames(c.input + step.chunk))
  }

  /** Every step of the run is peaceful in the state it meets. */
  predicate WalkPeaceful(c: Conn, steps: seq<Step>) {
    if steps == [] then true else
      var k := |steps| - 1;
      WalkPeaceful(c, steps[..k]) && StepPeaceful(Walk(c, steps[..k]), steps[k])
  }

  /** Every state along the run is good. */
  ghost predicate AlwaysGood(c: Conn, steps: seq<Step>) {
    ConnGood(Walk(c, steps)) && (steps != [] ==> AlwaysGood(c, steps[..|steps| - 1]))
  }

  /** Announcements are never taken back. */
  predicate Extends(h: History, h': History) {
    h.announced <= h'.announced
  }

  lemma AnswerExtends(c: Core, s: Sent)
    requires !s.Reply?
    ensures Extends(c.history, Answer(c, s).core.history)
  {
  }

  lemma DispatchExtends(c: Core, r: Record)
    ensures Extends(c.history, Dispatch(c, r).core.history)
  {
    if r.kind == GET_VALUES {
      AnswerExtends(c, ValuesResult(Values.Answer(r.content)));
    } else if r.kind == BEGIN_REQUEST {
      AnswerExtends(c, Rejection(r.requestId));
    } else if r.kind == ABORT_REQUEST {
      AnswerExtends(c, AbortReply(r.requestId));
      AbortExtends(Answer(c, AbortReply(r.requestId)).core, r.requestId);
    } else if r.kind !in {PARAMS, STDIN, DATA} {
      AnswerExtends(c, TypeRejected(r.kind));
    }
  }

  lemma AbortExtends(c: Core, id: nat)
    ensures Extends(c.history, AbortRequest(c, id).core.history)
  {
  }

  lemma {:induction false} ReadExtends(c: Core, b: bytes)
    ensures Extends(c.history, ReadLoop(c, b).core.history)
    decreases |b|
  {
    match NextFrame(b)
    case Wait =>
    case Next(Unsupported, size) =>
      ReadExtends(c, b[size..]);
    case Next(Packet(r), size) =>
      DispatchExtends(c, r);
      ReadExtends(Dispatch(c, r).core, b[size..]);
  }

  lemma CommitExtends(c: Core, h: Handle)
    ensures Extends(c.history, CommitReply(c, h).core.history)
  {
  }

  lemma ReadErrorGood(c: Core)
    requires Good(c) && c.link.open
    ensures var r := SocketClosed(c.(link := Close(c.link)));
      r.verdict.Returned? && Good(r.core) && r.core.phase.Closed?
  {
    ClosedGood(c);
    assert CloseAndCleanup(c.(link := Close(c.link))) == CloseAndCleanup(c);
  }

  lemma QueueKept(queue: seq<Handle>, h: History, h': History)
    requires Extends(h, h') && AllAnnounced(queue, h)
    ensures AllAnnounced(queue, h')
  {
  }

  lemma {:induction false} ReadSound(c: Core, b: bytes)
    requires Sound(c)
    ensures Sound(ReadLoop(c, b).core)
    decreases |b|
  {
    match NextFrame(b)
    case Wait =>
    case Next(Unsupported, size) =>
      ReadSound(c, b[size..]);
    case Next(Packet(r), size) =>
      DispatchSound(c, r);
      ReadSound(Dispatch(c, r).core, b[size..]);
      PacketTurn(c, b, Dispatch(c, r));
      SoundTurn(ReadLoop(c, b).core, Dispatch(c, r).core, ReadLoop(Dispatch(c, r).core, b[size..]).core);
  }

  lemma SoundTurn(c: Core, d: Core, e: Core)
    requires Sound(d) && Sound(e) && (c == d || c == e)
    ensures Sound(c)
  {
  }

  lemma ReadErrorSound(c: Core)
    requires Sound(c)
    ensures Sound(SocketClosed(c.(link := Close(c.link))).core)
  {
    SocketClosedSound(c.(link := Close(c.link)));
  }

  lemma RunSound(c: Conn, index: nat)
    requires ConnSound(c) && index < |c.queue|
    ensures ConnSound(RunCommit(c, index))
  {
    CommitSound(c.core, c.queue[index]);
    CommitExtends(c.core, c.queue[index]);
    QueueKept(c.queue, c.core.history, CommitReply(c.core, c.queue[index]).core.history);
  }

  /** Any step, of a connection in whatever phase, keeps everything but the lifecycle. */
  lemma StepSound(c: Conn, step: Step)
    requires ConnSound(c)
    ensures ConnSound(Perform(c, step))
  {
    match step
    case Arrive(chunk) =>
      if !c.failed && c.core.link.open {
        ReadSound(c.core, c.input + chunk);
        ReadExtends(c.core, c.input + chunk);
        QueueKept(c.queue, c.core.history, ReadLoop(c.core, c.input + chunk).core.history);
      }
    case ReadFails(chunk) =>
      if !c.failed && c.core.link.open {
        ReadErrorSound(c.core);
        QueueKept(c.queue, c.core.history, SocketClosed(c.core.(link := Close(c.core.link))).core.history);
      }
    case Post(h) =>
    case Rewrite(serial, o) =>
      OutputSound(c.core, serial, o);
    case Run(index) =>
      if !c.failed && index < |c.queue| {
        RunSound(c, index);
      }
  }

  /** Every run, peaceful or not, keeps everything but the lifecycle. */
  lemma {:induction false} WalkSound(c: Conn, steps: seq<Step>)
    requires ConnSound(c)
    ensures ConnSound(Walk(c, steps))
    decreases |steps|
  {
    if steps != [] {
      var k := |steps| - 1;
      WalkSound(c, steps[..k]);
      StepSound(Walk(c, steps[..k]), steps[k]);
    }
  }

  lemma RunGood(c: Conn, index: nat)
    requires ConnGood(c) && index < |c.queue|
    ensures ConnGood(RunCommit(c, index))
  {
    RunSound(c, index);
    CommitGood(c.core, c.queue[index]);
  }

  lemma StepGoodIff(c: Conn, step: Step)
    requires ConnGood(c)
    ensures ConnGood(Perform(c, step)) <==> StepPeaceful(c, step)
  {
    match step
    case Arrive(chunk) =>
      if c.core.link.open {
        ReadIntactIff(c.core, c.input + chunk);
        ReadExtends(c.core, c.input + chunk);
        QueueKept(c.queue, c.core.history, ReadLoop(c.core, c.input + chunk).core.history);
      }
    case ReadFails(chunk) =>
      if c.core.link.open {
        ReadErrorGood(c.core);
        QueueKept(c.queue, c.core.history, SocketClosed(c.core.(link := Close(c.core.link))).core.history);
      }
    case Post(h) =>
    case Rewrite(serial, o) =>
      OutputSound(c.core, serial, o);
    case Run(index) =>
      if index < |c.queue| {
        RunGood(c, index);
      }
  }

  /** Along a whole run every state is good exactly when every step is peaceful. */
  lemma {:induction false} RunGoodIff(c: Conn, steps: seq<Step>)
    requires ConnGood(c)
    ensures AlwaysGood(c, steps) <==> WalkPeaceful(c, steps)
    decreases |steps|
  {
    if steps != [] {
      var k := |steps| - 1;
      RunGoodIff(c, steps[..k]);
      if AlwaysGood(c, steps[..k]) {
        StepGoodIff(Walk(c, steps[..k]), steps[k]);
      }
    }
  }

  lemma InitialGood(budget: nat, partial: nat, noise: int)
    ensures ConnGood(Initial(budget, partial, noise))
  {
    assert EncodeAll(AllParcels([])) == [];
  }

  /** In every peaceful run from the start: no assertion fails, the packet socket is closed exactly
      when the connection is, a closed connection holds no request and a closing one does, and the
      close callback has run once if closed and not at all otherwise. */
  lemma LifecycleSafe(budget: nat, partial: nat, noise: int, steps: seq<Step>)
    requires WalkPeaceful(Initial(budget, partial, noise), steps)
    ensures var c := Walk(Initial(budget, partial, noise), steps);
      ConnGood(c) && !c.failed && Orderly(c.core)
  {
    InitialGood(budget, partial, noise);
    RunGoodIff(Initial(budget, partial, noise), steps);
  }
}
