/** Winding down: a connection that the server was not asked to keep closes when, and only when, its
    last request has gone. */
module WindDowns {
  import opened Bytes
  import opened Protocol
  import opened Framing
  import opened Replies
  import opened Requests
  import opened Machine
  import opened Invariants
  import opened Lifecycle
  import opened Runs
  import opened Inputs
  import Chunks

  // ---------------------------------------------------------------- no way back to OPEN

  predicate PhaseKept(c: Core, d: Core) {
    !c.phase.Open? ==> !d.phase.Open?
  }

  lemma DispatchPhase(c: Core, r: Record)
    ensures PhaseKept(c, Dispatch(c, r).core)
  {
  }

  lemma {:induction false} ReadPhase(c: Core, b: bytes)
    ensures PhaseKept(c, ReadLoop(c, b).core)
    decreases |b|
  {
    match NextFrame(b)
    case Wait =>
    case Next(Unsupported, size) =>
      ReadPhase(c, b[size..]);
    case Next(Packet(r), size) =>
      DispatchPhase(c, r);
      ReadPhase(Dispatch(c, r).core, b[size..]);
  }

  lemma CommitPhase(c: Core, h: Handle)
    ensures PhaseKept(c, CommitReply(c, h).core)
  {
  }

  lemma {:induction false} WalkPhase(c: Conn, steps: seq<Step>)
    ensures PhaseKept(c.core, Walk(c, steps).core)
    decreases |steps|
  {
    if steps != [] {
      var k := |steps| - 1;
      var d := Walk(c, steps[..k]);
      WalkPhase(c, steps[..k]);
      match steps[k]
      case Arrive(chunk) => ReadPhase(d.core, d.input + chunk);
      case Run(index) =>
        if index < |d.queue| {
          CommitPhase(d.core, d.queue[index]);
        }
      case _ =>
    }
  }

  /** The requests that left between two states, by reply, abort or close. */
  function Gone(c: Core): nat {
    ReplyCount(c.log) + |Serials(c.begun, Aborted)| + |Serials(c.begun, Dropped)|
  }

  /** Once winding down, along any run and in any order of completions: the connection is closed,
      with its callback made exactly once, in precisely the states in which no request is left; without
      further begins, no request joins those that were there, and the live count falls by exactly the
      requests replied to, aborted or dropped since. */
  lemma WindDownDrains(c: Conn, steps: seq<Step>)
    requires ConnGood(c) && c.core.phase.Closing? && WalkPeaceful(c, steps)
    ensures var d := Walk(c, steps).core;
      && (d.phase.Closed? <==> d.Table() == map[])
      && d.closeCalls == (if d.Table() == map[] then 1 else 0)
      && (|d.begun| == |c.core.begun| ==>
            && |d.Table()| == |c.core.Table()| - (Gone(d) - Gone(c.core))
            && forall id :: id in d.Table() ==>
                 id in c.core.Table() && d.Table()[id].serial == c.core.Table()[id].serial)
  {
    WalkPhase(c, steps);
    RunGoodIff(c, steps);
    WalkSettles(c, steps);
    if |Walk(c, steps).core.begun| == |c.core.begun| {
      LiveCount(c.core, Walk(c, steps).core);
      SameRequests(c.core, Walk(c, steps).core);
    }
  }

  lemma LiveCount(c: Core, d: Core)
    requires Sound(c) && Sound(d) && |d.begun| == |c.begun|
    ensures |d.Table()| == |c.Table()| - (Gone(d) - Gone(c))
  {
    Conservation(c);
    Conservation(d);
  }

  lemma SameRequests(c: Core, d: Core)
    requires Sound(c) && Sound(d) && Settled(c, d) && |d.begun| == |c.begun|
    ensures forall id :: id in d.Table() ==> id in c.Table() && d.Table()[id].serial == c.Table()[id].serial
  {
    forall id | id in d.Table() ensures id in c.Table() && d.Table()[id].serial == c.Table()[id].serial {
      var serial := d.Table()[id].serial;
      assert d.begun[serial].fate.Live? && c.begun[serial].fate.Live?;
    }
  }

  // ---------------------------------------------------------------- one completion

  lemma TableWithout(t: Table, id: nat)
    requires id in t
    ensures |t - {id}| == |t| - 1
  {
    assert (t - {id}).Keys == t.Keys - {id};
  }

  /** A request leaves and the connection looks whether it was the last. */
  lemma RetireCounts(c: Core, e: Event, serial: nat, fate: Fate)
    requires (e.Abort? || e.Cleanup?) && e.id in c.Table() && !c.phase.Closed?
    ensures var d := CheckForEmpty(Retire(c, e, serial, fate));
      && d.Table() == c.Table() - {e.id} && |d.Table()| == |c.Table()| - 1
      && d.log == c.log && d.outputs == c.outputs && d.link.broken == c.link.broken
      && d.history.announced == c.history.announced
      && (d.phase.Closed? <==> c.phase.Closing? && |c.Table()| == 1)
      && (!d.phase.Closed? ==> d.phase == c.phase && d.link == c.link)
      && d.closeCalls == c.closeCalls + if d.phase.Closed? then 1 else 0
  {
    TableWithout(c.Table(), e.id);
    assert c.history.announced + [] == c.history.announced;
    assert c.Table() - {e.id} == map[] <==> |c.Table()| == 1;
  }

  /** A valid commit whose reply the peer takes: that request alone leaves, the reply carries its
      output of that moment, and the connection closes if it was winding down and this was the last. */
  lemma CommitCounts(c: Core, h: Handle)
    requires Good(c) && h in c.history.announced && IsValid(c, h)
    requires SendReply(c.link, h.id, c.outputs[h.serial]).ok
    ensures var d := CommitReply(c, h).core;
      && d.Table() == c.Table() - {h.id} && |d.Table()| == |c.Table()| - 1
      && d.log == c.log + [Reply(h.id, h.serial, c.outputs[h.serial])]
      && d.outputs == c.outputs[h.serial := Output([], [], c.outputs[h.serial].status)]
      && d.link.broken == c.link.broken && d.history.announced == c.history.announced
      && (d.phase.Closed? <==> c.phase.Closing? && |c.Table()| == 1)
      && (!d.phase.Closed? ==> d.phase == c.phase)
      && d.closeCalls == if d.phase.Closed? then 1 else 0
  {
    var o := c.outputs[h.serial];
    ReplyWritten(c.link, h.id, h.serial, o);
    CommitGood(c, h);
    var s := SendReply(c.link, h.id, o);
    var d := SetOutput(c.(link := s.link), h.serial, s.output).(log := c.log + [Reply(h.id, h.serial, o)]);
    RetireCounts(d, Cleanup(h.id), h.serial, Replied);
  }

  /** A valid commit whose reply the peer refuses closes the connection and drops every request. */
  lemma CommitRefused(c: Core, h: Handle)
    requires Good(c) && h in c.history.announced && IsValid(c, h)
    requires !SendReply(c.link, h.id, c.outputs[h.serial]).ok
    ensures var d := CommitReply(c, h).core;
      && d.phase.Closed? && d.Table() == map[] && d.closeCalls == 1 && d.log == c.log && d.link.broken
      && forall s :: 0 <= s < |c.begun| ==> !d.begun[s].fate.Live?
  {
    var s := SendReply(c.link, h.id, c.outputs[h.serial]);
    ReplyWritten(c.link, h.id, h.serial, c.outputs[h.serial]);
    RefusedCloses(c, h, SetOutput(c.(link := s.link), h.serial, s.output));
  }

  lemma RefusedCloses(c: Core, h: Handle, d: Core)
    requires IsValid(c, h) && c.link.open && h.serial < |c.outputs|
    requires var s := SendReply(c.link, h.id, c.outputs[h.serial]);
      !s.ok && d == SetOutput(c.(link := s.link), h.serial, s.output)
    ensures CommitReply(c, h).core == CloseAndCleanup(d)
  {
  }

  lemma OnlyKey(t: Table, id: nat)
    requires id in t
    ensures |t| == 1 <==> t.Keys == {id}
  {
    TableWithout(t, id);
    assert (t - {id}).Keys == t.Keys - {id};
    if |t| == 1 {
      assert t - {id} == map[];
      assert t.Keys == (t - {id}).Keys + {id};
    }
  }

  /** An answer that the peer takes. */
  lemma AnswerTaken(c: Core, s: Sent)
    requires c.link.open && c.link.budget > 0 && !s.Reply? && Fits(s)
    ensures var r := Answer(c, s);
      && r == Result(c.(link := r.core.link, log := c.log + [s]), Returned)
      && r.core.link.open && r.core.link.broken == c.link.broken
  {
    AnswerWritten(c, s);
  }

  /** An abort whose answer the peer takes removes the live request, or throws if there is none. */
  lemma AbortCounts(c: Core, id: nat)
    requires Good(c) && c.link.open && c.link.budget > 0
    ensures var r := OnAbort(c, id);
      && (r.verdict.Threw? <==> id !in c.Table()) && !r.verdict.Asserted?
      && r.core.Table() == c.Table() - {id}
      && (id in c.Table() ==> |r.core.Table()| == |c.Table()| - 1)
      && r.core.log == c.log + [AbortReply(id)] && r.core.outputs == c.outputs
      && r.core.link.broken == c.link.broken && r.core.history.announced == c.history.announced
      && (r.core.phase.Closed? <==> c.phase.Closing? && c.Table().Keys == {id})
      && (!r.core.phase.Closed? ==> r.core.phase == c.phase)
  {
    var r := Answer(c, AbortReply(id));
    AnswerTaken(c, AbortReply(id));
    OnAbortGoesOn(c, id, r);
    AbortRequestCounts(r.core, id);
  }

  lemma AbortRequestCounts(c: Core, id: nat)
    requires !c.phase.Closed?
    ensures var r := AbortRequest(c, id);
      && (r.verdict.Threw? <==> id !in c.Table()) && !r.verdict.Asserted?
      && r.core.Table() == c.Table() - {id}
      && (id in c.Table() ==> |r.core.Table()| == |c.Table()| - 1)
      && r.core.log == c.log && r.core.outputs == c.outputs
      && r.core.link.broken == c.link.broken && r.core.history.announced == c.history.announced
      && (r.core.phase.Closed? <==> c.phase.Closing? && c.Table().Keys == {id})
      && (!r.core.phase.Closed? ==> r.core.phase == c.phase)
  {
    if id in c.Table() {
      RetireCounts(c, Abort(id), c.Table()[id].serial, Aborted);
      OnlyKey(c.Table(), id);
    } else {
      assert c.Table() - {id} == c.Table();
      assert c.history.announced + [] == c.history.announced;
    }
  }

  // ---------------------------------------------------------------- all completions

  /** The ways a request can complete: the application commits it, or the peer aborts it by a chunk
      that holds the abort record. */
  datatype Completion = Commits(handle: Handle) | Aborts(id: nat, chunk: bytes)

  function IdOf(x: Completion): nat {
    if x.Commits? then x.handle.id else x.id
  }

  /** One complete abort record of this id and nothing else. */
  predicate AbortChunk(b: bytes, id: nat) {
    NextFrame(b).Next? && NextFrame(b).size == |b| && IsRecord(NextFrame(b).frame, ABORT_REQUEST, id)
  }

  /** The steps of one completion, with that many commits in the queue already. */
  function StepsFor(x: Completion, queued: nat): seq<Step> {
    match x
    case Commits(h) => [Post(h), Run(queued)]
    case Aborts(_, chunk) => [Arrive(chunk)]
  }

  function AllSteps(xs: seq<Completion>, queued: nat): seq<Step>
    decreases |xs|
  {
    if xs == [] then [] else StepsFor(xs[0], queued) + AllSteps(xs[1..], queued)
  }

  function Drain(c: Conn, xs: seq<Completion>): Conn {
    Walk(c, AllSteps(xs, |c.queue|))
  }

  function SentFor(x: Completion, outputs: seq<Output>): Sent
    requires x.Commits? ==> x.handle.serial < |outputs|
  {
    match x
    case Commits(h) => Reply(h.id, h.serial, outputs[h.serial])
    case Aborts(id, _) => AbortReply(id)
  }

  predicate Covered(xs: seq<Completion>, outputs: seq<Output>) {
    forall i :: 0 <= i < |xs| && xs[i].Commits? ==> xs[i].handle.serial < |outputs|
  }

  function AllSent(xs: seq<Completion>, outputs: seq<Output>): seq<Sent>
    requires Covered(xs, outputs)
  {
    seq(|xs|, i requires 0 <= i < |xs| => SentFor(xs[i], outputs))
  }

  /** `x` completes a request of the table. */
  predicate Fitting(t: Table, announced: seq<Handle>, x: Completion) {
    && IdOf(x) in t
    && (x.Commits? ==> t[IdOf(x)].serial == x.handle.serial && x.handle in announced)
    && (x.Aborts? ==> AbortChunk(x.chunk, x.id))
  }

  lemma WalkTwo(c: Conn, a: Step, b: Step)
    ensures Walk(c, [a, b]) == Perform(Perform(c, a), b)
  {
    assert [a, b][..1] == [a];
    Chunks.WalkOne(c, a);
  }

  lemma PostThenRun(c: Conn, h: Handle)
    requires !c.failed && h in c.core.history.announced
    ensures var r := CommitReply(c.core, h);
      Walk(c, [Post(h), Run(|c.queue|)]) == c.(core := r.core, failed := r.verdict.Asserted?)
  {
    WalkTwo(c, Post(h), Run(|c.queue|));
    var q := c.queue + [h];
    assert q[..|c.queue|] + q[|c.queue| + 1..] == c.queue;
  }

  lemma AbortRead(c: Core, id: nat, b: bytes)
    requires AbortChunk(b, id) && !OnAbort(c, id).verdict.Asserted?
    ensures ReadLoop(c, b) == Reading(OnAbort(c, id).core, [], false)
  {
    assert b[|b|..] == [];
    Chunks.EmptyRead(OnAbort(c, id).core);
  }

  lemma AbortArrives(c: Conn, id: nat, b: bytes)
    requires !c.failed && c.core.link.open && c.input == []
    requires AbortChunk(b, id) && !OnAbort(c.core, id).verdict.Asserted?
    ensures Walk(c, [Arrive(b)]) == c.(core := OnAbort(c.core, id).core)
  {
    Chunks.WalkOne(c, Arrive(b));
    assert c.input + b == b;
    AbortRead(c.core, id, b);
  }

  /** What one completion leaves. */
  ghost predicate OneOut(c: Conn, d: Conn, x: Completion)
    requires x.Commits? ==> x.handle.serial < |c.core.outputs|
  {
    && ConnGood(d) && d.input == c.input && d.queue == c.queue
    && d.core.history.announced == c.core.history.announced
    && d.core.Table() == c.core.Table() - {IdOf(x)} && |d.core.Table()| == |c.core.Table()| - 1
    && d.core.phase == (if |c.core.Table()| == 1 then Closed else Closing)
    && d.core.log == c.core.log + [SentFor(x, c.core.outputs)]
    && d.core.outputs == (if x.Commits?
                          then c.core.outputs[x.handle.serial := Output([], [], c.core.outputs[x.handle.serial].status)]
                          else c.core.outputs)
  }

  lemma QuietWalkGood(c: Conn, steps: seq<Step>)
    requires ConnGood(c) && !Walk(c, steps).core.link.broken
    ensures ConnGood(Walk(c, steps))
  {
    UnbrokenPeaceful(c, steps);
    RunGoodIff(c, steps);
  }

  lemma CommitOut(c: Conn, h: Handle)
    requires ConnGood(c) && c.core.phase.Closing? && Fitting(c.core.Table(), c.core.history.announced, Commits(h))
    requires !Walk(c, StepsFor(Commits(h), |c.queue|)).core.link.broken
    ensures h.serial < |c.core.outputs| && OneOut(c, Walk(c, StepsFor(Commits(h), |c.queue|)), Commits(h))
  {
    QuietWalkGood(c, StepsFor(Commits(h), |c.queue|));
    PostThenRun(c, h);
    CommitTaken(c, h);
  }

  lemma CommitTaken(c: Conn, h: Handle)
    requires ConnGood(c) && c.core.phase.Closing? && Fitting(c.core.Table(), c.core.history.announced, Commits(h))
    requires !CommitReply(c.core, h).core.link.broken
    requires ConnGood(c.(core := CommitReply(c.core, h).core))
    ensures h.serial < |c.core.outputs| && OneOut(c, c.(core := CommitReply(c.core, h).core), Commits(h))
  {
    if !SendReply(c.core.link, h.id, c.core.outputs[h.serial]).ok {
      CommitRefused(c.core, h);
    } else {
      CommitCounts(c.core, h);
    }
  }

  lemma AbortOut(c: Conn, id: nat, b: bytes)
    requires ConnGood(c) && c.core.phase.Closing? && c.input == []
    requires Fitting(c.core.Table(), c.core.history.announced, Aborts(id, b))
    requires !Walk(c, [Arrive(b)]).core.link.broken
    ensures OneOut(c, Walk(c, [Arrive(b)]), Aborts(id, b))
  {
    QuietWalkGood(c, [Arrive(b)]);
    AbortGood(c.core, id);
    AbortArrives(c, id, b);
    AbortTaken(c, id, b);
  }

  lemma AbortTaken(c: Conn, id: nat, b: bytes)
    requires ConnGood(c) && c.core.phase.Closing? && id in c.core.Table()
    requires !OnAbort(c.core, id).core.link.broken && ConnGood(c.(core := OnAbort(c.core, id).core))
    ensures OneOut(c, c.(core := OnAbort(c.core, id).core), Aborts(id, b))
  {
    if c.core.link.budget == 0 {
      LostAbortBroken(c.core, id);
    }
    AbortCounts(c.core, id);
    OnlyKey(c.core.Table(), id);
  }

  lemma LostAbortBroken(c: Core, id: nat)
    requires c.link.open && c.link.budget == 0
    ensures OnAbort(c, id).core.link.broken
  {
    AnswerBroken(c, AbortReply(id));
  }

  lemma OneCompletes(c: Conn, x: Completion)
    requires ConnGood(c) && c.core.phase.Closing? && c.input == []
    requires Fitting(c.core.Table(), c.core.history.announced, x)
    requires !Walk(c, StepsFor(x, |c.queue|)).core.link.broken
    ensures x.Commits? ==> x.handle.serial < |c.core.outputs|
    ensures OneOut(c, Walk(c, StepsFor(x, |c.queue|)), x)
  {
    match x
    case Commits(h) => CommitOut(c, h);
    case Aborts(id, b) => AbortOut(c, id, b);
  }

  // ---------------------------------------------------------------- in any order

  /** The completions are of the requests of the table, each once, in some order. */
  predicate Lists(t: Table, announced: seq<Handle>, xs: seq<Completion>) {
    && |xs| == |t|
    && (forall i :: 0 <= i < |xs| ==> Fitting(t, announced, xs[i]))
    && (forall i, j :: 0 <= i < j < |xs| ==> IdOf(xs[i]) != IdOf(xs[j]))
  }

  /** Exactly the requests left are about to complete, and no write will fail. */
  ghost predicate Drainable(c: Conn, xs: seq<Completion>) {
    && ConnGood(c) && c.input == []
    && c.core.phase == (if xs == [] then Closed else Closing)
    && Lists(c.core.Table(), c.core.history.announced, xs)
    && !Drain(c, xs).core.link.broken
  }

  lemma {:induction false} WalkBroken(c: Conn, steps: seq<Step>)
    ensures c.core.link.broken ==> Walk(c, steps).core.link.broken
    decreases |steps|
  {
    if steps != [] {
      var k := |steps| - 1;
      WalkBroken(c, steps[..k]);
      StepBroken(Walk(c, steps[..k]), steps[k]);
    }
  }

  lemma DrainFirst(c: Conn, xs: seq<Completion>)
    requires xs != []
    ensures var d := Walk(c, StepsFor(xs[0], |c.queue|));
      && Drain(c, xs) == Walk(d, AllSteps(xs[1..], |c.queue|))
      && (d.core.link.broken ==> Drain(c, xs).core.link.broken)
  {
    Chunks.WalkAppend(c, StepsFor(xs[0], |c.queue|), AllSteps(xs[1..], |c.queue|));
    WalkBroken(Walk(c, StepsFor(xs[0], |c.queue|)), AllSteps(xs[1..], |c.queue|));
  }

  lemma ListsRest(t: Table, announced: seq<Handle>, xs: seq<Completion>)
    requires xs != [] && Lists(t, announced, xs)
    ensures Lists(t - {IdOf(xs[0])}, announced, xs[1..])
  {
    TableWithout(t, IdOf(xs[0]));
  }

  lemma StillDrainable(c: Conn, d: Conn, xs: seq<Completion>)
    requires Drainable(c, xs) && xs != [] && (xs[0].Commits? ==> xs[0].handle.serial < |c.core.outputs|)
    requires OneOut(c, d, xs[0]) && Drain(c, xs) == Walk(d, AllSteps(xs[1..], |c.queue|))
    ensures Drainable(d, xs[1..])
  {
    ListsRest(c.core.Table(), c.core.history.announced, xs);
  }

  lemma ListedCovered(c: Core, xs: seq<Completion>)
    requires Good(c) && Lists(c.Table(), c.history.announced, xs)
    ensures Covered(xs, c.outputs)
    ensures xs != [] && xs[0].Commits? ==>
              forall i :: 1 <= i < |xs| && xs[i].Commits? ==> xs[i].handle.serial != xs[0].handle.serial
  {
    forall i | 0 <= i < |xs| && xs[i].Commits?
      ensures xs[i].handle.serial < |c.begun| && c.begun[xs[i].handle.serial].id == IdOf(xs[i])
    {
      assert Fitting(c.Table(), c.history.announced, xs[i]);
    }
  }

  lemma FirstOut(c: Conn, xs: seq<Completion>) returns (d: Conn)
    requires Drainable(c, xs) && xs != []
    ensures d == Walk(c, StepsFor(xs[0], |c.queue|))
    ensures xs[0].Commits? ==> xs[0].handle.serial < |c.core.outputs|
    ensures OneOut(c, d, xs[0]) && Drainable(d, xs[1..])
  {
    d := Walk(c, StepsFor(xs[0], |c.queue|));
    DrainFirst(c, xs);
    OneCompletes(c, xs[0]);
    StillDrainable(c, d, xs);
  }

  lemma DrainPrefix(c: Conn, d: Conn, xs: seq<Completion>, n: nat)
    requires 0 < n <= |xs| && d == Walk(c, StepsFor(xs[0], |c.queue|)) && d.queue == c.queue
    ensures Drain(c, xs[..n]) == Drain(d, xs[1..][..n - 1])
  {
    TailOfPrefix(xs, n);
    DrainCons(c, d, xs[..n], xs[1..][..n - 1]);
  }

  lemma DrainCons(c: Conn, d: Conn, xs: seq<Completion>, rest: seq<Completion>)
    requires xs != [] && xs[1..] == rest && d == Walk(c, StepsFor(xs[0], |c.queue|)) && d.queue == c.queue
    ensures Drain(c, xs) == Drain(d, rest)
  {
    DrainFirst(c, xs);
  }

  /** What the connection is after `n` of the completions. */
  predicate Drained(c: Conn, d: Conn, xs: seq<Completion>, n: nat)
    requires n <= |xs| && Covered(xs, c.core.outputs)
  {
    && |d.core.Table()| == |xs| - n
    && d.core.phase == (if n < |xs| then Closing else Closed)
    && d.core.closeCalls == (if n < |xs| then 0 else 1)
    && d.core.log == c.core.log + AllSent(xs[..n], c.core.outputs)
    && d.queue == c.queue && d.input == []
  }

  lemma SentCons(xs: seq<Completion>, outputs: seq<Output>, outputs': seq<Output>, log: seq<Sent>)
    requires xs != [] && Covered(xs, outputs) && Covered(xs[1..], outputs')
    requires forall i :: 1 <= i < |xs| && xs[i].Commits? ==>
             outputs'[xs[i].handle.serial] == outputs[xs[i].handle.serial]
    ensures log + AllSent(xs, outputs) == log + [SentFor(xs[0], outputs)] + AllSent(xs[1..], outputs')
  {
    assert AllSent(xs, outputs) == [SentFor(xs[0], outputs)] + AllSent(xs[1..], outputs');
  }

  lemma DrainedLater(c: Conn, d: Conn, e: Conn, xs: seq<Completion>, n: nat)
    requires 0 < n <= |xs| && Covered(xs, c.core.outputs) && Covered(xs[1..], d.core.outputs)
    requires OneOut(c, d, xs[0])
    requires xs[0].Commits? ==>
               forall i :: 1 <= i < |xs| && xs[i].Commits? ==> xs[i].handle.serial != xs[0].handle.serial
    requires Drained(d, e, xs[1..], n - 1)
    ensures Drained(c, e, xs, n)
  {
    TailOfPrefix(xs, n);
    SentCons(xs[..n], c.core.outputs, d.core.outputs, c.core.log);
  }

  lemma NoneDrained(c: Conn, xs: seq<Completion>)
    requires Drainable(c, xs) && Covered(xs, c.core.outputs)
    ensures Drained(c, Drain(c, xs[..0]), xs, 0)
  {
    assert c.core.log + AllSent(xs[..0], c.core.outputs) == c.core.log;
  }

  /** All requests of a closing connection complete, some by a commit and some by an abort, in any
      order and with no write failing: each commit sends that request's own output and each abort its
      answer, the live count falls by one each time, and the connection closes, once, with the last. */
  lemma {:induction false} DrainedInAnyOrder(c: Conn, xs: seq<Completion>, n: nat)
    requires Drainable(c, xs) && n <= |xs|
    ensures Covered(xs, c.core.outputs) && Drained(c, Drain(c, xs[..n]), xs, n)
    decreases |xs|
  {
    ListedCovered(c.core, xs);
    if n == 0 {
      NoneDrained(c, xs);
    } else {
      var d := FirstOut(c, xs);
      DrainedInAnyOrder(d, xs[1..], n - 1);
      DrainPrefix(c, d, xs, n);
      DrainedLater(c, d, Drain(c, xs[..n]), xs, n);
    }
  }
}
