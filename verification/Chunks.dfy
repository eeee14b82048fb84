/** Reading in chunks: what the cuts between `handleRead` calls can and cannot change for the whole
    connection. */
module Chunks {
  import opened Bytes
  import opened Framing
  import opened Links
  import opened Replies
  import opened Machine
  import opened Invariants
  import opened Lifecycle

  // ---------------------------------------------------------------- framing stays in sync

  /** Every frame in turn, whatever its handler does. */
  function DispatchAll(c: Core, fs: seq<Frame>): Core
    decreases |fs|
  {
    if fs == [] then c
    else DispatchAll(if fs[0].Packet? then Dispatch(c, fs[0].record).core else c, fs[1..])
  }

  lemma DispatchStaysClosed(c: Core, r: Record)
    ensures !c.link.open ==> !Dispatch(c, r).core.link.open
  {
  }

  lemma {:induction false} ReadStaysClosed(c: Core, b: bytes)
    ensures !c.link.open ==> !ReadLoop(c, b).core.link.open
    decreases |b|
  {
    match NextFrame(b)
    case Wait =>
    case Next(Unsupported, size) =>
      ReadStaysClosed(c, b[size..]);
    case Next(Packet(r), size) =>
      DispatchStaysClosed(c, r);
      ReadStaysClosed(Dispatch(c, r).core, b[size..]);
  }

  /** A record after which the socket is still open is followed by the next one. */
  lemma OpenTurn(c: Core, b: bytes, r: Record, size: nat)
    requires Good(c) && c.link.open && NextFrame(b) == Next(Packet(r), size) && ReadLoop(c, b).core.link.open
    ensures Dispatch(c, r).core.link.open && ReadLoop(c, b) == ReadLoop(Dispatch(c, r).core, b[size..])
  {
    DispatchGood(c, r);
    ReadStaysClosed(Dispatch(c, r).core, b[size..]);
  }

  /** While the socket stays open, record boundaries depend on the octets alone: every frame of the
      buffer is dispatched once, throwing or not, and the residue is that of the octets. */
  lemma {:induction false} ReadInSync(c: Core, b: bytes)
    requires Good(c) && ReadLoop(c, b).core.link.open && c.link.open
    ensures ReadLoop(c, b) == Reading(DispatchAll(c, Frames(b)), Residue(b), false)
    decreases |b|
  {
    match NextFrame(b)
    case Wait =>
    case Next(f, size) =>
      var rest := b[size..];
      assert Frames(b)[0] == f && Frames(b)[1..] == Frames(rest);
      match f
      case Unsupported =>
        ReadInSync(c, rest);
      case Packet(r) =>
        DispatchGood(c, r);
        OpenTurn(c, b, r, size);
        ReadInSync(Dispatch(c, r).core, rest);
  }

  predicate Suffix(left: bytes, b: bytes) {
    |left| <= |b| && b[|b| - |left|..] == left
  }

  lemma SuffixAll(b: bytes, size: nat)
    requires size <= |b|
    ensures Suffix(b, b) && Suffix(b[size..], b)
  {
  }

  lemma SuffixTrans(a: bytes, b: bytes, c: bytes)
    requires Suffix(a, b) && Suffix(b, c)
    ensures Suffix(a, c)
  {
    DropDrop(c, |c| - |b|, |b| - |a|);
  }

  /** Nothing is invented: what is left is a suffix of what was there. */
  lemma {:induction false} ReadTakesPrefix(c: Core, b: bytes)
    ensures Suffix(ReadLoop(c, b).input, b)
    decreases |b|
  {
    match NextFrame(b)
    case Wait =>
      SuffixAll(b, 0);
    case Next(f, size) =>
      var next := if f.Packet? then Dispatch(c, f.record).core else c;
      SuffixAll(b, size);
      ReadTakesPrefix(next, b[size..]);
      SuffixTrans(ReadLoop(next, b[size..]).input, b[size..], b);
  }

  lemma ReadLeavesLess(c: Core, b: bytes)
    ensures |ReadLoop(c, b).input| <= |b|
  {
    ReadTakesPrefix(c, b);
  }

  // ---------------------------------------------------------------- cutting a read in two

  /** The loop over `b` meets no clamped record and loses no abort answer while it is running. */
  predicate CutSafe(c: Core, b: bytes)
    decreases |b|
  {
    match NextFrame(b)
    case Wait => true
    case Next(Unsupported, size) => !Clamped(b) && CutSafe(c, b[size..])
    case Next(Packet(r), size) =>
      !LosesAbort(c, r) && (Dispatch(c, r).core.link.open ==> CutSafe(Dispatch(c, r).core, b[size..]))
  }

  function ReadTwice(c: Core, a: bytes, b: bytes): Reading {
    var r := ReadLoop(c, a);
    if r.failed then r
    else if r.core.link.open then ReadLoop(r.core, r.input + b)
    else r.(input := r.input + b)
  }

  /** One turn of the loop that the end of the chunk does not disturb. */
  lemma StepTwice(c: Core, a: bytes, b: bytes)
    requires NextFrame(a).Next? && !Clamped(a)
    ensures var f := NextFrame(a).frame; var rest := a[NextFrame(a).size..];
      && (f.Unsupported? ==> ReadTwice(c, a, b) == ReadTwice(c, rest, b) && ReadLoop(c, a + b) == ReadLoop(c, rest + b))
      && (f.Packet? && (Dispatch(c, f.record).verdict.Threw?
                        || (Dispatch(c, f.record).verdict.Returned? && Dispatch(c, f.record).core.link.open))
          ==> ReadTwice(c, a, b) == ReadTwice(Dispatch(c, f.record).core, rest, b)
              && ReadLoop(c, a + b) == ReadLoop(Dispatch(c, f.record).core, rest + b))
  {
    NextFrameStable(a, b);
  }

  /** A turn that closes the connection stops both ways of reading. */
  lemma StopTwice(c: Core, a: bytes, b: bytes, r: Record, size: nat)
    requires NextFrame(a) == Next(Packet(r), size)
    requires Dispatch(c, r).verdict.Returned? && !Dispatch(c, r).core.link.open
    ensures ReadTwice(c, a, b) == ReadLoop(c, a + b)
  {
    NextFrameStable(a, b);
  }

  lemma {:induction false} SafeCutReads(c: Core, a: bytes, b: bytes)
    requires Good(c) && c.link.open && CutSafe(c, a)
    ensures ReadTwice(c, a, b) == ReadLoop(c, a + b)
    decreases |a|
  {
    match NextFrame(a)
    case Wait =>
    case Next(f, size) =>
      StepTwice(c, a, b);
      match f
      case Unsupported =>
        SafeCutReads(c, a[size..], b);
      case Packet(r) =>
        DispatchGood(c, r);
        if Dispatch(c, r).core.link.open {
          SafeCutReads(Dispatch(c, r).core, a[size..], b);
        } else {
          StopTwice(c, a, b, r, size);
        }
  }

  const FILLER: bytes := Zeros(70000)

  lemma FillerCompletes(a: bytes)
    ensures NextFrame(a + FILLER).Next?
  {
  }

  /** After a lost abort the loop of one long read goes on into the octets that, arriving later,
      would have stayed in the buffer. */
  lemma {:induction false} ClosedCutShows(c: Core, a: bytes)
    requires Good(c) && !c.link.open && AllHarmless(Frames(a))
    ensures var r := ReadLoop(c, a + FILLER);
      r.failed || |r.input| < |ReadLoop(c, a).input| + |FILLER|
    decreases |a|
  {
    var whole := a + FILLER;
    FillerCompletes(a);
    match NextFrame(a)
    case Wait =>
      Shrinks(c, whole);
    case Next(f, size) =>
      assert Frames(a) == [f] + Frames(a[size..]);
      AllHarmlessCons(f, Frames(a[size..]));
      if Clamped(a) {
        assert a[size..] == [];
        assert NextFrame(whole).frame.Unsupported? && NextFrame(whole).size > |a|;
        ReadLeavesLess(c, whole[NextFrame(whole).size..]);
      } else {
        NextFrameStable(a, FILLER);
        if f.Packet? {
          HarmlessWhenClosed(c, f.record);
          ClosedCutShows(Dispatch(c, f.record).core, a[size..]);
        } else {
          ClosedCutShows(c, a[size..]);
        }
      }
  }

  lemma Shrinks(c: Core, b: bytes)
    requires NextFrame(b).Next?
    ensures ReadLoop(c, b).failed || |ReadLoop(c, b).input| < |b|
  {
    var f, size := NextFrame(b).frame, NextFrame(b).size;
    ReadLeavesLess(if f.Packet? then Dispatch(c, f.record).core else c, b[size..]);
  }

  lemma AnswerLogs(c: Core, s: Sent)
    requires c.link.open && !s.Reply?
    ensures Answer(c, s).core.link.open ==> Answer(c, s).core.log == c.log + [s]
  {
    var p := Parcels(s)[0];
    PacketWritten(c.link, p.id, p.kind, p.content);
  }

  lemma PingRead(c: Core)
    requires !Dispatch(c, Record(0, 0, [])).verdict.Asserted?
    ensures ReadLoop(c, PING) == Reading(Dispatch(c, Record(0, 0, [])).core, [], false)
  {
    PingNext();
    EmptyRead(Dispatch(c, Record(0, 0, [])).core);
  }

  lemma EmptyRead(c: Core)
    ensures ReadLoop(c, []) == Reading(c, [], false)
  {
  }

  /** A record of an unknown type makes an open connection write or close. */
  lemma PingShows(c: Core)
    requires Good(c) && c.link.open
    ensures ReadLoop(c, PING).core.log != c.log || !ReadLoop(c, PING).core.link.open
  {
    DispatchGood(c, Record(0, 0, []));
    PingRead(c);
    AnswerLogs(c, TypeRejected(0));
  }

  /** An unsafe cut shows: some continuation makes the two ways of reading differ. */
  lemma {:induction false} UnsafeCutShows(c: Core, a: bytes)
    requires Good(c) && c.link.open && Peaceful(c, Frames(a)) && !CutSafe(c, a)
    ensures ReadTwice(c, a, PING) != ReadLoop(c, a + PING) || ReadTwice(c, a, FILLER) != ReadLoop(c, a + FILLER)
    decreases |a|
  {
    var f, size := NextFrame(a).frame, NextFrame(a).size;
    assert Frames(a)[0] == f && Frames(a)[1..] == Frames(a[size..]);
    if Clamped(a) {
      ClampShows(c, a);
    } else {
      StepTwice(c, a, PING);
      StepTwice(c, a, FILLER);
      match f
      case Unsupported =>
        UnsafeCutShows(c, a[size..]);
      case Packet(r) =>
        DispatchGood(c, r);
        var d := Dispatch(c, r).core;
        if LosesAbort(c, r) {
          LostCutShows(d, a[size..]);
        } else {
          UnsafeCutShows(d, a[size..]);
        }
    }
  }

  lemma LostCutShows(c: Core, a: bytes)
    requires Good(c) && !c.link.open && AllHarmless(Frames(a))
    ensures ReadTwice(c, a, FILLER) != ReadLoop(c, a + FILLER)
  {
    ClosedReadIff(c, a);
    ReadStaysClosed(c, a);
    ClosedCutShows(c, a);
  }

  lemma ClampShows(c: Core, a: bytes)
    requires Good(c) && c.link.open && Clamped(a)
    ensures ReadTwice(c, a, PING) != ReadLoop(c, a + PING)
  {
    ClampedThenPing(c, a);
    ClampedWithPing(c, a);
    PingShows(c);
  }

  lemma ClampedThenPing(c: Core, a: bytes)
    requires c.link.open && Clamped(a)
    ensures ReadTwice(c, a, PING) == ReadLoop(c, PING)
  {
    assert a[NextFrame(a).size..] == [];
    EmptyRead(c);
    assert [] + PING == PING;
  }

  /** The ping is taken for the missing rest of the clamped record. */
  lemma ClampedWithPing(c: Core, a: bytes)
    requires Clamped(a)
    ensures ReadLoop(c, a + PING).core == c
  {
    var whole := a + PING;
    assert DeclaredSize(whole) == DeclaredSize(a);
    var rest := whole[NextFrame(whole).size..];
    assert |rest| < 8;
  }

  /** For a good open connection and a peaceful chunk, cutting after the chunk is invisible to every
      continuation exactly when the cut is safe. */
  lemma CutInvisibleIff(c: Conn, a: bytes)
    requires ConnGood(c) && c.core.link.open && Peaceful(c.core, Frames(c.input + a))
    ensures CutSafe(c.core, c.input + a)
            <==> forall b :: Perform(Perform(c, Arrive(a)), Arrive(b)) == Perform(c, Arrive(a + b))
  {
    ReadIntactIff(c.core, c.input + a);
    if CutSafe(c.core, c.input + a) {
      forall b ensures Perform(Perform(c, Arrive(a)), Arrive(b)) == Perform(c, Arrive(a + b)) {
        SafeCutArrives(c, a, b);
      }
    } else {
      UnsafeCutShows(c.core, c.input + a);
      CutComparison(c, a, PING);
      CutComparison(c, a, FILLER);
    }
  }

  lemma SafeCutArrives(c: Conn, a: bytes, b: bytes)
    requires ConnGood(c) && c.core.link.open && CutSafe(c.core, c.input + a) && Peaceful(c.core, Frames(c.input + a))
    ensures Perform(Perform(c, Arrive(a)), Arrive(b)) == Perform(c, Arrive(a + b))
  {
    ReadIntactIff(c.core, c.input + a);
    SafeCutReads(c.core, c.input + a, b);
    CutComparison(c, a, b);
  }

  /** The connection after a reading. */
  function After(c: Conn, r: Reading): Conn {
    c.(core := r.core, input := r.input, failed := r.failed)
  }

  lemma OneArrival(c: Conn, a: bytes)
    requires !c.failed && c.core.link.open
    ensures Perform(c, Arrive(a)) == After(c, ReadLoop(c.core, c.input + a))
  {
  }

  lemma TwoArrivals(c: Conn, a: bytes, b: bytes)
    requires !c.failed && c.core.link.open && !ReadLoop(c.core, c.input + a).failed
    ensures Perform(Perform(c, Arrive(a)), Arrive(b)) == After(c, ReadTwice(c.core, c.input + a, b))
  {
    OneArrival(c, a);
    var d := Perform(c, Arrive(a));
    if d.core.link.open {
      OneArrival(d, b);
    }
  }

  lemma AfterSame(c: Conn, r: Reading, w: Reading)
    ensures After(c, r) == After(c, w) <==> r == w
  {
  }

  lemma CutComparison(c: Conn, a: bytes, b: bytes)
    requires ConnGood(c) && c.core.link.open && Intact(ReadLoop(c.core, c.input + a))
    ensures Perform(Perform(c, Arrive(a)), Arrive(b)) == Perform(c, Arrive(a + b))
       <==> ReadTwice(c.core, c.input + a, b) == ReadLoop(c.core, c.input + a + b)
  {
    Regroup(c.input, a, b);
    TwoArrivals(c, a, b);
    OneArrival(c, a + b);
    AfterSame(c, ReadTwice(c.core, c.input + a, b), ReadLoop(c.core, c.input + a + b));
  }

  // ---------------------------------------------------------------- any number of chunks

  lemma {:induction false} WholeReadSafe(c: Core, a: bytes, b: bytes)
    requires Good(c) && c.link.open && AllSupported(a + b) && CutSafe(c, a + b)
    ensures CutSafe(c, a) && Peaceful(c, Frames(a))
    decreases |a|
  {
    match NextFrame(a)
    case Wait =>
    case Next(f, size) =>
      assert Frames(a)[0] == f && Frames(a)[1..] == Frames(a[size..]);
      SupportedPrefixSafe(a, b);
      NextFrameStable(a, b);
      assert Frames(a + b) == [f] + Frames(a[size..] + b);
      assert f.Packet? by {
        assert Frames(a + b)[0] == f;
      }
      DispatchGood(c, f.record);
      var d := Dispatch(c, f.record).core;
      if d.link.open {
        WholeReadSafe(d, a[size..], b);
      }
  }

  function Arrivals(chunks: seq<bytes>): (steps: seq<Step>)
    ensures |steps| == |chunks|
  {
    seq(|chunks|, i requires 0 <= i < |chunks| => Arrive(chunks[i]))
  }

  lemma {:induction false} WalkAppend(c: Conn, xs: seq<Step>, ys: seq<Step>)
    ensures Walk(c, xs + ys) == Walk(Walk(c, xs), ys)
    decreases |ys|
  {
    if ys == [] {
      assert xs + ys == xs;
    } else {
      var k := |ys| - 1;
      assert (xs + ys)[..|xs| + k] == xs + ys[..k];
      WalkAppend(c, xs, ys[..k]);
    }
  }

  lemma WalkOne(c: Conn, step: Step)
    ensures Walk(c, [step]) == Perform(c, step)
  {
    assert [step][..0] == [];
  }

  /** A version-1 stream leaves the whole connection (requests, replies, announcements, wire and
      residue) in the same state however it is cut into chunks. Any write may fail and close the
      connection on the way, except the answer to an abort. */
  lemma {:induction false} ChunkingInvisible(c: Conn, first: bytes, chunks: seq<bytes>)
    requires ConnGood(c) && c.core.link.open
    requires AllSupported(c.input + (first + Concat(chunks)))
    requires CutSafe(c.core, c.input + (first + Concat(chunks)))
    ensures Walk(Perform(c, Arrive(first)), Arrivals(chunks)) == Perform(c, Arrive(first + Concat(chunks)))
    decreases |chunks|
  {
    if chunks == [] {
      assert first + Concat(chunks) == first;
    } else {
      var rest := Concat(chunks[1..]);
      assert Concat(chunks) == chunks[0] + rest;
      Regroup(first, chunks[0], rest);
      Regroup(c.input, first, Concat(chunks));
      WholeReadSafe(c.core, c.input + first, Concat(chunks));
      SafeCutArrives(c, first, chunks[0]);
      ChunkingInvisible(c, first + chunks[0], chunks[1..]);
      WalkArrivals(Perform(c, Arrive(first)), chunks);
    }
  }

  lemma WalkArrivals(c: Conn, chunks: seq<bytes>)
    requires chunks != []
    ensures Walk(c, Arrivals(chunks)) == Walk(Perform(c, Arrive(chunks[0])), Arrivals(chunks[1..]))
  {
    assert Arrivals(chunks) == [Arrive(chunks[0])] + Arrivals(chunks[1..]);
    WalkAppend(c, [Arrive(chunks[0])], Arrivals(chunks[1..]));
    WalkOne(c, Arrive(chunks[0]));
  }
}
