/** The request table of one connection: what `ConnectionData` does, as a function of the table. */
module Requests {
  import opened Bytes
  import opened Pairs

  /** A live request. `serial` stands for the identity of its `RequestData` object. */
  datatype Entry = Entry(serial: nat, inDone: bool, paramsDone: bool,
                         stdin: bytes, paramsBuffer: bytes, params: PairMap)

  type Table = map<nat, Entry>

  /** A call of the request-ready callback. */
  datatype Handle = Handle(id: nat, serial: nat)

  datatype Event =
    | Begin(id: nat, serial: nat)
    | Abort(id: nat)
    | Stdin(id: nat, content: bytes)
    | Params(id: nat, content: bytes)
    | Cleanup(id: nat)
    | Clear

  /** Result of a handler: an exception leaves the table alone. */
  datatype Effect = Effect(table: Table, threw: bool, ready: bool)

  function Fresh(serial: nat): Entry {
    Entry(serial, false, false, [], [], map[])
  }

  function TakeStdin(e: Entry, content: bytes): Entry {
    if content == [] then e.(inDone := true) else e.(stdin := e.stdin + content)
  }

  /** At the end of the stream the buffer is parsed; its length goes through `unsigned int`. */
  function TakeParams(e: Entry, content: bytes): Entry {
    if content == [] then e.(paramsDone := true, params := ParseInto(Low32(e.paramsBuffer), e.params))
    else e.(paramsBuffer := e.paramsBuffer + content)
  }

  predicate Complete(e: Entry) {
    e.inDone && e.paramsDone
  }

  function Apply(t: Table, e: Event): Effect {
    match e
    case Begin(id, serial) =>
      if id in t then Effect(t, true, false) else Effect(t[id := Fresh(serial)], false, false)
    case Abort(id) =>
      if id !in t then Effect(t, true, false) else Effect(t - {id}, false, false)
    case Stdin(id, content) =>
      if id !in t || t[id].inDone then Effect(t, true, false)
      else Effect(t[id := TakeStdin(t[id], content)], false, Complete(TakeStdin(t[id], content)))
    case Params(id, content) =>
      if id !in t || t[id].paramsDone then Effect(t, true, false)
      else Effect(t[id := TakeParams(t[id], content)], false, Complete(TakeParams(t[id], content)))
    case Cleanup(id) =>
      if id !in t then Effect(t, true, false) else Effect(t - {id}, false, false)
    case Clear => Effect(map[], false, false)
  }

  /** The table, the announcements made and the events that threw, after a run of events. */
  datatype History = History(table: Table, announced: seq<Handle>, rejected: seq<Event>)

  function Advance(h: History, e: Event): History {
    var effect := Apply(h.table, e);
    History(effect.table,
            h.announced + (if effect.ready && !e.Clear? && e.id in effect.table
                           then [Handle(e.id, effect.table[e.id].serial)] else []),
            h.rejected + if effect.threw then [e] else [])
  }

  function Replay(es: seq<Event>): History {
    if es == [] then History(map[], [], []) else Advance(Replay(es[..|es| - 1]), es[|es| - 1])
  }

  lemma ReplayOne(es: seq<Event>, e: Event)
    ensures Replay(es + [e]) == Advance(Replay(es), e)
  {
    assert (es + [e])[..|es|] == es;
  }

  // ---------------------------------------------------------------- demultiplexing the input

  predicate Concerns(e: Event, id: nat) {
    e.Clear? || e.id == id
  }

  function EventsFor(es: seq<Event>, id: nat): seq<Event> {
    if es == [] then [] else
      EventsFor(es[..|es| - 1], id) + if Concerns(es[|es| - 1], id) then [es[|es| - 1]] else []
  }

  function HandlesFor(hs: seq<Handle>, id: nat): seq<Handle> {
    if hs == [] then [] else
      HandlesFor(hs[..|hs| - 1], id) + if hs[|hs| - 1].id == id then [hs[|hs| - 1]] else []
  }

  lemma HandlesForOne(hs: seq<Handle>, h: Handle, id: nat)
    ensures HandlesFor(hs + [h], id) == HandlesFor(hs, id) + if h.id == id then [h] else []
  {
    assert (hs + [h])[..|hs|] == hs;
  }

  lemma EventsForOne(es: seq<Event>, e: Event, id: nat)
    ensures EventsFor(es + [e], id) == EventsFor(es, id) + if Concerns(e, id) then [e] else []
  {
    assert (es + [e])[..|es|] == es;
  }

  predicate SameAt(t: Table, u: Table, id: nat) {
    (id in t <==> id in u) && (id in t ==> t[id] == u[id])
  }

  /** Two histories look the same from one id. */
  ghost predicate SameFor(h: History, k: History, id: nat) {
    && SameAt(h.table, k.table, id)
    && HandlesFor(h.announced, id) == HandlesFor(k.announced, id)
    && EventsFor(h.rejected, id) == EventsFor(k.rejected, id)
  }

  lemma ApplySame(t: Table, u: Table, e: Event, id: nat)
    requires SameAt(t, u, id) && Concerns(e, id)
    ensures var a, b := Apply(t, e), Apply(u, e);
      a.threw == b.threw && a.ready == b.ready && SameAt(a.table, b.table, id) && (a.ready ==> id in a.table)
  {
  }

  lemma AnnouncedSame(hs: seq<Handle>, ks: seq<Handle>, more: seq<Handle>, id: nat)
    requires HandlesFor(hs, id) == HandlesFor(ks, id) && |more| <= 1
    ensures HandlesFor(hs + more, id) == HandlesFor(ks + more, id)
  {
    if more == [] {
      assert hs + more == hs && ks + more == ks;
    } else {
      assert more == [more[0]];
      HandlesForOne(hs, more[0], id);
      HandlesForOne(ks, more[0], id);
    }
  }

  lemma RejectedSame(es: seq<Event>, fs: seq<Event>, more: seq<Event>, id: nat)
    requires EventsFor(es, id) == EventsFor(fs, id) && |more| <= 1
    ensures EventsFor(es + more, id) == EventsFor(fs + more, id)
  {
    if more == [] {
      assert es + more == es && fs + more == fs;
    } else {
      assert more == [more[0]];
      EventsForOne(es, more[0], id);
      EventsForOne(fs, more[0], id);
    }
  }

  lemma AdvanceSame(h: History, k: History, e: Event, id: nat)
    requires SameFor(h, k, id) && Concerns(e, id)
    ensures SameFor(Advance(h, e), Advance(k, e), id)
  {
    ApplySame(h.table, k.table, e, id);
    var effect := Apply(h.table, e);
    AnnouncedSame(h.announced, k.announced,
                  if effect.ready && !e.Clear? then [Handle(id, effect.table[id].serial)] else [], id);
    RejectedSame(h.rejected, k.rejected, if effect.threw then [e] else [], id);
  }

  lemma AdvanceForeign(h: History, e: Event, id: nat)
    requires !Concerns(e, id)
    ensures SameFor(Advance(h, e), h, id)
  {
    var effect := Apply(h.table, e);
    if effect.ready {
      HandlesForOne(h.announced, Handle(e.id, effect.table[e.id].serial), id);
    }
    if effect.threw {
      EventsForOne(h.rejected, e, id);
    }
    assert h.announced + [] == h.announced && h.rejected + [] == h.rejected;
  }

  /** Looked at from one id, any interleaving of events is the run of that id's events alone:
      the same entry, the same announcements, the same exceptions. */
  lemma {:induction false} InputDemultiplexed(es: seq<Event>, id: nat)
    ensures SameFor(Replay(es), Replay(EventsFor(es, id)), id)
    decreases |es|
  {
    if es != [] {
      var init, last := es[..|es| - 1], es[|es| - 1];
      InputDemultiplexed(init, id);
      if Concerns(last, id) {
        ReplayOne(EventsFor(init, id), last);
        AdvanceSame(Replay(init), Replay(EventsFor(init, id)), last, id);
      } else {
        AdvanceForeign(Replay(init), last, id);
        assert EventsFor(init, id) + [] == EventsFor(init, id);
      }
    }
  }

  // ---------------------------------------------------------------- one request, from begin to end

  function StdinOf(es: seq<Event>, id: nat): seq<bytes> {
    if es == [] then [] else
      var last := es[|es| - 1];
      StdinOf(es[..|es| - 1], id) + if last.Stdin? && last.id == id then [last.content] else []
  }

  function ParamsOf(es: seq<Event>, id: nat): seq<bytes> {
    if es == [] then [] else
      var last := es[|es| - 1];
      ParamsOf(es[..|es| - 1], id) + if last.Params? && last.id == id then [last.content] else []
  }

  /** The octets of a stream: its chunks up to the first empty one. */
  function Stream(chunks: seq<bytes>): bytes {
    if chunks == [] || chunks[0] == [] then [] else chunks[0] + Stream(chunks[1..])
  }

  lemma {:induction false} StreamOne(chunks: seq<bytes>, c: bytes)
    ensures Stream(chunks + [c]) == Stream(chunks) + if [] in chunks then [] else c
    decreases |chunks|
  {
    if chunks == [] {
      assert chunks + [c] == [c];
      assert Stream([c]) == c;
    } else if chunks[0] != [] {
      assert (chunks + [c])[1..] == chunks[1..] + [c];
      StreamOne(chunks[1..], c);
      assert [] in chunks <==> [] in chunks[1..];
    }
  }

  /** The events leave the request of this id in the table. */
  predicate Keeps(es: seq<Event>, id: nat) {
    forall i :: 0 <= i < |es| ==>
      !es[i].Clear? && !(es[i].Abort? && es[i].id == id) && !(es[i].Cleanup? && es[i].id == id)
  }

  /** What the table must hold for a request, given the chunks it was sent. */
  function Expected(serial: nat, stdin: seq<bytes>, params: seq<bytes>): Entry {
    Entry(serial, [] in stdin, [] in params, Stream(stdin), Stream(params),
          if [] in params then Parse(Low32(Stream(params))) else map[])
  }

  lemma TakeExpectedStdin(serial: nat, stdin: seq<bytes>, params: seq<bytes>, c: bytes)
    requires [] !in stdin
    ensures TakeStdin(Expected(serial, stdin, params), c) == Expected(serial, stdin + [c], params)
  {
    StreamOne(stdin, c);
    assert Stream(stdin) + [] == Stream(stdin);
    assert (stdin + [c])[|stdin|] == c;
  }

  lemma TakeExpectedParams(serial: nat, stdin: seq<bytes>, params: seq<bytes>, c: bytes)
    requires [] !in params
    ensures TakeParams(Expected(serial, stdin, params), c) == Expected(serial, stdin, params + [c])
  {
    StreamOne(params, c);
    assert Stream(params) + [] == Stream(params);
    assert (params + [c])[|params|] == c;
  }

  lemma LateChunk(serial: nat, stdin: seq<bytes>, params: seq<bytes>, c: bytes)
    ensures [] in stdin ==> Expected(serial, stdin + [c], params) == Expected(serial, stdin, params)
    ensures [] in params ==> Expected(serial, stdin, params + [c]) == Expected(serial, stdin, params)
  {
    StreamOne(stdin, c);
    StreamOne(params, c);
    assert Stream(stdin) + [] == Stream(stdin) && Stream(params) + [] == Stream(params);
  }

  /** The request of `id` is what its chunks make it; beyond `earlier`, it has been announced once
      if both streams have ended and not at all otherwise. */
  ghost predicate Assembled(h: History, earlier: seq<Handle>, id: nat, serial: nat, stdin: seq<bytes>,
      params: seq<bytes>) {
    && id in h.table && h.table[id] == Expected(serial, stdin, params)
    && HandlesFor(h.announced, id) == earlier + if [] in stdin && [] in params then [Handle(id, serial)] else []
  }

  lemma OwnEvent(h: History, e: Event, earlier: seq<Handle>, id: nat, serial: nat, stdin: seq<bytes>,
      params: seq<bytes>)
    requires Assembled(h, earlier, id, serial, stdin, params)
    requires (e.Begin? || e.Stdin? || e.Params?) && e.id == id
    ensures Assembled(Advance(h, e), earlier, id, serial,
                      if e.Stdin? then stdin + [e.content] else stdin,
                      if e.Params? then params + [e.content] else params)
  {
    if e.Stdin? {
      LateChunk(serial, stdin, params, e.content);
      if [] !in stdin {
        TakeExpectedStdin(serial, stdin, params, e.content);
      }
    } else if e.Params? {
      LateChunk(serial, stdin, params, e.content);
      if [] !in params {
        TakeExpectedParams(serial, stdin, params, e.content);
      }
    }
    HandlesForOne(h.announced, Handle(id, serial), id);
    assert h.announced + [] == h.announced && earlier + [] == earlier;
  }

  lemma ForeignEvent(h: History, e: Event, earlier: seq<Handle>, id: nat, serial: nat, stdin: seq<bytes>,
      params: seq<bytes>)
    requires Assembled(h, earlier, id, serial, stdin, params)
    requires !Concerns(e, id)
    ensures Assembled(Advance(h, e), earlier, id, serial, stdin, params)
  {
    AdvanceForeign(h, e, id);
  }

  /** After `before`, an accepted begin and any events that keep the request: its streams are the
      chunks sent to it up to their first empty one, its parameters are parsed once the parameter
      stream has ended, and it has been announced once if both streams have ended, else not. */
  lemma {:induction false} RequestAssembled(before: seq<Event>, id: nat, serial: nat, after: seq<Event>)
    requires id !in Replay(before).table && Keeps(after, id)
    ensures Assembled(Replay(before + [Begin(id, serial)] + after), HandlesFor(Replay(before).announced, id),
                      id, serial, StdinOf(after, id), ParamsOf(after, id))
    decreases |after|
  {
    var begun := before + [Begin(id, serial)];
    var earlier := HandlesFor(Replay(before).announced, id);
    if after == [] {
      assert begun + after == begun;
      ReplayOne(before, Begin(id, serial));
      assert Replay(before).announced + [] == Replay(before).announced && earlier + [] == earlier;
    } else {
      var init, last := after[..|after| - 1], after[|after| - 1];
      var stdin, params := StdinOf(init, id), ParamsOf(init, id);
      RequestAssembled(before, id, serial, init);
      assert begun + after == (begun + init) + [last];
      ReplayOne(begun + init, last);
      assert stdin + [] == stdin && params + [] == params;
      if Concerns(last, id) {
        OwnEvent(Replay(begun + init), last, earlier, id, serial, stdin, params);
      } else {
        ForeignEvent(Replay(begun + init), last, earlier, id, serial, stdin, params);
      }
    }
  }
}
