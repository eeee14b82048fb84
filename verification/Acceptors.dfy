/** `Acceptor`: the registry of connections, and the whole server around it. */
module Acceptors {
  import opened Bytes
  import opened Machine
  import opened Lifecycle
  import Connections
  import Handles

  // ---------------------------------------------------------------- the registry

  /** `active` maps a connection id to the number of the accept that used it, `next` is the counter
      (an `unsigned int`), `pending` the posted closes. */
  datatype Registry = Registry(active: map<nat, nat>, next: nat, pending: seq<nat>)

  datatype Registered = Registered(registry: Registry, asserted: bool)

  function Accept(r: Registry, number: nat): Registered {
    if r.next in r.active then Registered(r.(next := Uint32(r.next + 1)), true)
    else Registered(r.(next := Uint32(r.next + 1), active := r.active[r.next := number]), false)
  }

  function CloseCallback(r: Registry, id: nat): Registered {
    if id !in r.active then Registered(r, true) else Registered(r.(pending := r.pending + [id]), false)
  }

  function RunClose(r: Registry, index: nat): Registered
    requires index < |r.pending|
  {
    var id := r.pending[index];
    var taken := r.(pending := r.pending[..index] + r.pending[index + 1..]);
    if id !in r.active then Registered(taken, true) else Registered(taken.(active := r.active - {id}), false)
  }

  class Acceptor {
    var activeConnections: map<nat, Connections.Connection>
    var nextConnectionId: nat
    var pending: seq<nat>

    /** Accepted connections in order, and which of them is registered under each id. */
    ghost var accepted: seq<Connections.Connection>
    ghost var active: map<nat, nat>

    constructor ()
      ensures Valid() && View() == Registry(map[], 0, []) && accepted == []
    {
      activeConnections, nextConnectionId, pending := map[], 0, [];
      accepted, active := [], map[];
    }

    ghost predicate Valid()
      reads this
    {
      && nextConnectionId < TWO_32
      && active.Keys == activeConnections.Keys
      && forall id :: id in active ==> active[id] < |accepted| && accepted[active[id]] == activeConnections[id]
    }

    ghost function View(): Registry
      reads this
    {
      Registry(active, nextConnectionId, pending)
    }

    /** `handleAccept` without an error. The new socket's peer is the environment's. */
    method HandleAccept(budget: nat, partial: nat, noise: int) returns (asserted: bool)
      requires Valid()
      modifies this
      ensures Valid() && Registered(View(), asserted) == Accept(old(View()), |old(accepted)|)
      ensures old(accepted) <= accepted && (!asserted ==> |accepted| == |old(accepted)| + 1)
      ensures !asserted ==> fresh(accepted[|old(accepted)|]) && accepted[|old(accepted)|].Valid()
                            && accepted[|old(accepted)|].View() == Initial(budget, partial, noise)
    {
      var newConnectionId := nextConnectionId;
      nextConnectionId := Uint32(nextConnectionId + 1);
      if newConnectionId in activeConnections {
        return true;
      }
      var newConnection := new Connections.Connection(budget, partial, noise);
      activeConnections := activeConnections[newConnectionId := newConnection];
      active := active[newConnectionId := |accepted|];
      accepted := accepted + [newConnection];
      asserted := false;
    }

    /** Called by a connection when it closes; the removal itself is posted. */
    method HandleConnectionClose(connectionId: nat) returns (asserted: bool)
      requires Valid()
      modifies this`pending
      ensures Valid() && Registered(View(), asserted) == CloseCallback(old(View()), connectionId)
    {
      if connectionId !in activeConnections {
        return true;
      }
      pending := pending + [connectionId];
      asserted := false;
    }

    method CloseConnection(index: nat) returns (asserted: bool)
      requires Valid() && index < |pending|
      modifies this
      ensures Valid() && Registered(View(), asserted) == RunClose(old(View()), index)
      ensures accepted == old(accepted)
    {
      var connectionId := pending[index];
      pending := pending[..index] + pending[index + 1..];
      if connectionId !in activeConnections {
        return true;
      }
      activeConnections, active := activeConnections - {connectionId}, active - {connectionId};
      asserted := false;
    }

    /** A connection has a ready request: wrap it for the application, unless it is gone already. */
    method HandleNewRequest(connectionId: nat, requestId: nat, data: Connections.ConnectionDatas.RequestData,
        dataAlive: bool)
      returns (asserted: bool, request: Handles.Request?)
      requires Valid()
      ensures asserted <==> dataAlive && connectionId !in activeConnections
      ensures request != null <==> dataAlive && !asserted
      ensures request != null ==> request.requestId == requestId && request.data == data && !request.hasReplied
      ensures request != null ==> request.connectionId == connectionId
                                  && request.connection == activeConnections[connectionId]
    {
      if !dataAlive {
        return false, null;
      }
      if connectionId !in activeConnections {
        return true, null;
      }
      asserted := false;
      request := new Handles.Request(requestId, data, connectionId, activeConnections[connectionId]);
    }
  }

  // ---------------------------------------------------------------- the server

  /** The acceptor and every connection it ever accepted, by accept number, with the id its
      callbacks are bound to. `closed` holds the numbers of those whose posted close has run. */
  datatype Server = Server(registry: Registry, conns: seq<Conn>, ids: seq<nat>, closed: set<nat>, failed: bool)

  datatype Happening =
    | Accepts(budget: nat, partial: nat, noise: int)
    | Steps(number: nat, step: Step)
    | Closes(index: nat)

  /** A step of a connection calls back into the acceptor, which looks the id up: to announce ready
      requests, or to say that it has closed. */
  predicate CallsBack(c: Conn, d: Conn) {
    d.core.history.announced != c.core.history.announced || d.core.closeCalls != c.core.closeCalls
  }

  function StepConnection(s: Server, number: nat, step: Step): Server
    requires number < |s.conns| && number < |s.ids|
  {
    var c, d := s.conns[number], Perform(s.conns[number], step);
    var t := s.(conns := s.conns[number := d], failed := d.failed);
    if CallsBack(c, d) && s.ids[number] !in s.registry.active then t.(failed := true)
    else if d.core.closeCalls == c.core.closeCalls then t
    else t.(registry := CloseCallback(s.registry, s.ids[number]).registry)
  }

  function Happen(s: Server, e: Happening): Server {
    if s.failed then s else
      match e
      case Accepts(budget, partial, noise) =>
        var r := Accept(s.registry, |s.conns|);
        if r.asserted then s.(registry := r.registry, failed := true)
        else s.(registry := r.registry, conns := s.conns + [Initial(budget, partial, noise)],
                ids := s.ids + [s.registry.next])
      case Steps(number, step) =>
        if number < |s.conns| && number < |s.ids| then StepConnection(s, number, step) else s
      case Closes(index) =>
        if index >= |s.registry.pending| then s else
          var r := RunClose(s.registry, index);
          if r.asserted then s.(registry := r.registry, failed := true)
          else s.(registry := r.registry, closed := s.closed + {s.registry.active[s.registry.pending[index]]})
  }

  const NEW_SERVER: Server := Server(Registry(map[], 0, []), [], [], {}, false)

  /** What the registry's invariants need to know of the connections: by accept number, the id and
      the number of close callbacks made, and the numbers whose posted close has run. */
  datatype Book = Book(ids: seq<nat>, calls: seq<nat>, closed: set<nat>)

  function BookOf(s: Server): (b: Book)
    ensures |b.calls| == |s.conns| && b.ids == s.ids && b.closed == s.closed
    ensures forall n :: 0 <= n < |s.conns| ==> b.calls[n] == s.conns[n].core.closeCalls
  {
    Book(s.ids, seq(|s.conns|, n requires 0 <= n < |s.conns| => s.conns[n].core.closeCalls), s.closed)
  }

  predicate Holds(r: Registry, id: nat, number: nat) {
    id in r.active && r.active[id] == number
  }

  /** The registered connections are exactly the accepted ones whose close has not run. */
  ghost predicate Registers(r: Registry, b: Book) {
    && |b.ids| == |b.calls|
    && (forall id :: id in r.active ==> r.active[id] < |b.ids| && b.ids[r.active[id]] == id)
    && (forall n :: 0 <= n < |b.ids| ==> (Holds(r, b.ids[n], n) <==> n !in b.closed))
    && (forall n :: n in b.closed ==> n < |b.ids| && b.calls[n] == 1)
    && (forall n :: 0 <= n < |b.ids| ==> b.calls[n] <= 1)
  }

  /** Every posted close is for a registered connection that has made its close callback, and every
      such connection has exactly one close posted. */
  ghost predicate Posts(r: Registry, b: Book)
    requires Registers(r, b)
  {
    && (forall i :: 0 <= i < |r.pending| ==> r.pending[i] in r.active && b.calls[r.active[r.pending[i]]] == 1)
    && (forall i, j :: 0 <= i < j < |r.pending| ==> r.pending[i] != r.pending[j])
    && (forall n :: 0 <= n < |b.ids| && n !in b.closed && b.calls[n] == 1 ==> b.ids[n] in r.pending)
  }

  ghost predicate Sane(r: Registry, b: Book) {
    Registers(r, b) && Posts(r, b)
  }

  ghost predicate Consistent(s: Server) {
    && !s.failed
    && (forall n :: 0 <= n < |s.conns| ==> ConnGood(s.conns[n]))
    && Sane(s.registry, BookOf(s))
  }

  /** The ids are the accept numbers, wrapped. */
  predicate Counted(s: Server) {
    && s.registry.next == Uint32(|s.conns|)
    && |s.ids| == |s.conns|
    && forall n :: 0 <= n < |s.ids| ==> s.ids[n] == Uint32(n)
  }

  // ---------------------------------------------------------------- the registry's invariants

  lemma AcceptSane(r: Registry, b: Book)
    requires Sane(r, b) && r.next !in r.active
    ensures Sane(Accept(r, |b.ids|).registry, Book(b.ids + [r.next], b.calls + [0], b.closed))
  {
    var r', b' := Accept(r, |b.ids|).registry, Book(b.ids + [r.next], b.calls + [0], b.closed);
    forall n | 0 <= n < |b'.ids| ensures Holds(r', b'.ids[n], n) <==> n !in b'.closed {
      if n < |b.ids| {
        assert Holds(r', b.ids[n], n) <==> Holds(r, b.ids[n], n);
      }
    }
  }

  lemma CallbackSane(r: Registry, b: Book, number: nat)
    requires Sane(r, b) && number < |b.ids| && b.calls[number] == 0
    ensures !CloseCallback(r, b.ids[number]).asserted
    ensures Sane(CloseCallback(r, b.ids[number]).registry, b.(calls := b.calls[number := 1]))
  {
    assert Holds(r, b.ids[number], number);
    var r', b' := CloseCallback(r, b.ids[number]).registry, b.(calls := b.calls[number := 1]);
    assert forall n :: 0 <= n < |b.ids| ==> (Holds(r', b.ids[n], n) <==> Holds(r, b.ids[n], n));
    assert b.ids[number] !in r.pending;
    forall n | 0 <= n < |b'.ids| && n !in b'.closed && b'.calls[n] == 1 ensures b'.ids[n] in r'.pending {
      if n == number {
        assert r'.pending[|r.pending|] == b'.ids[n];
      } else {
        assert b.ids[n] in r.pending;
      }
    }
  }

  /** The order of what stays in a queue when one element is taken out. */
  lemma TakenOut(p: seq<nat>, index: nat, q: seq<nat>)
    requires index < |p| && q == p[..index] + p[index + 1..]
    requires forall i, j :: 0 <= i < j < |p| ==> p[i] != p[j]
    ensures forall i, j :: 0 <= i < j < |q| ==> q[i] != q[j]
    ensures forall x :: x in q <==> x in p && x != p[index]
  {
    forall i, j | 0 <= i < j < |q| ensures q[i] != q[j] {
      assert q[i] == p[if i < index then i else i + 1] && q[j] == p[if j < index then j else j + 1];
    }
    forall x | x in p && x != p[index] ensures x in q {
      var k :| 0 <= k < |p| && p[k] == x;
      assert q[if k < index then k else k - 1] == x;
    }
  }

  lemma RunCloseSane(r: Registry, b: Book, index: nat)
    requires Sane(r, b) && index < |r.pending|
    ensures !RunClose(r, index).asserted
    ensures Sane(RunClose(r, index).registry, b.(closed := b.closed + {r.active[r.pending[index]]}))
  {
    var id := r.pending[index];
    var number := r.active[id];
    var r', b' := RunClose(r, index).registry, b.(closed := b.closed + {number});
    TakenOut(r.pending, index, r'.pending);
    RemovedRegisters(r, b, id, r'.pending);
    forall i | 0 <= i < |r'.pending| ensures r'.pending[i] in r'.active && b'.calls[r'.active[r'.pending[i]]] == 1 {
      assert r'.pending[i] in r.pending;
    }
  }

  lemma RemovedRegisters(r: Registry, b: Book, id: nat, pending: seq<nat>)
    requires Registers(r, b) && id in r.active && b.calls[r.active[id]] == 1
    ensures Registers(r.(active := r.active - {id}, pending := pending), b.(closed := b.closed + {r.active[id]}))
  {
    var number := r.active[id];
    var r' := r.(active := r.active - {id}, pending := pending);
    forall n | 0 <= n < |b.ids| ensures Holds(r', b.ids[n], n) <==> n !in b.closed + {number} {
      assert Holds(r, b.ids[n], n) <==> n !in b.closed;
    }
  }

  // ---------------------------------------------------------------- one event

  /** The counter's assertion in `handleAccept` fails exactly when the id is still registered. */
  lemma AcceptConsistent(s: Server, budget: nat, partial: nat, noise: int)
    requires Consistent(s)
    ensures Consistent(Happen(s, Accepts(budget, partial, noise))) <==> s.registry.next !in s.registry.active
  {
    InitialGood(budget, partial, noise);
    if s.registry.next !in s.registry.active {
      AcceptSane(s.registry, BookOf(s));
      var t := Happen(s, Accepts(budget, partial, noise));
      assert BookOf(t) == Book(s.ids + [s.registry.next], BookOf(s).calls + [0], s.closed);
    }
  }

  /** A closed connection calls nobody back. */
  lemma ClosedSilent(c: Conn, step: Step)
    requires ConnGood(c) && c.core.phase.Closed?
    ensures !CallsBack(c, Perform(c, step))
  {
  }

  lemma StepConsistent(s: Server, number: nat, step: Step)
    requires Consistent(s) && number < |s.conns|
    ensures Consistent(Happen(s, Steps(number, step))) <==> StepPeaceful(s.conns[number], step)
  {
    var c := s.conns[number];
    var d := Perform(c, step);
    StepGoodIff(c, step);
    if c.core.phase.Closed? {
      ClosedSilent(c, step);
    } else {
      assert number !in s.closed && Holds(s.registry, s.ids[number], number);
    }
    HappenSteps(s, number, step);
    if StepPeaceful(c, step) {
      Stepped(s, number, d);
    }
  }

  lemma HappenSteps(s: Server, number: nat, step: Step)
    requires !s.failed && number < |s.conns| && number < |s.ids|
    ensures Happen(s, Steps(number, step)) == StepConnection(s, number, step)
    ensures StepConnection(s, number, step).conns == s.conns[number := Perform(s.conns[number], step)]
  {
  }

  lemma Stepped(s: Server, number: nat, d: Conn)
    requires Consistent(s) && number < |s.conns| && ConnGood(d)
    requires s.conns[number].core.closeCalls == 1 ==> d.core.closeCalls == 1
    ensures var t := s.(conns := s.conns[number := d]);
      Consistent(if d.core.closeCalls == s.conns[number].core.closeCalls then t
                 else t.(registry := CloseCallback(s.registry, s.ids[number]).registry))
  {
    var t, b := s.(conns := s.conns[number := d]), BookOf(s);
    assert BookOf(t) == b.(calls := b.calls[number := d.core.closeCalls]);
    if d.core.closeCalls != s.conns[number].core.closeCalls {
      CallbackSane(s.registry, b, number);
      var u := t.(registry := CloseCallback(s.registry, s.ids[number]).registry);
      assert BookOf(u) == BookOf(t);
    } else {
      assert BookOf(t) == b;
    }
  }

  lemma CloseConsistent(s: Server, index: nat)
    requires Consistent(s)
    ensures Consistent(Happen(s, Closes(index)))
  {
    if index < |s.registry.pending| {
      RunCloseSane(s.registry, BookOf(s), index);
      var t := Happen(s, Closes(index));
      assert BookOf(t) == BookOf(s).(closed := s.closed + {s.registry.active[s.registry.pending[index]]});
    }
  }

  // ---------------------------------------------------------------- runs of the server

  predicate EventPeaceful(s: Server, e: Happening) {
    match e
    case Accepts(_, _, _) => s.registry.next !in s.registry.active
    case Steps(number, step) => number < |s.conns| ==> StepPeaceful(s.conns[number], step)
    case Closes(_) => true
  }

  function Serve(s: Server, es: seq<Happening>): Server {
    if es == [] then s else Happen(Serve(s, es[..|es| - 1]), es[|es| - 1])
  }

  predicate ServePeaceful(s: Server, es: seq<Happening>) {
    es != [] ==> ServePeaceful(s, es[..|es| - 1]) && EventPeaceful(Serve(s, es[..|es| - 1]), es[|es| - 1])
  }

  ghost predicate AlwaysConsistent(s: Server, es: seq<Happening>) {
    Consistent(Serve(s, es)) && (es != [] ==> AlwaysConsistent(s, es[..|es| - 1]))
  }

  /** In every interleaving of accepts, connection steps and posted closes, the registry stays
      consistent and no assertion fails, exactly when every event is peaceful. */
  lemma {:induction false} ServerSafeIff(es: seq<Happening>)
    ensures AlwaysConsistent(NEW_SERVER, es) <==> ServePeaceful(NEW_SERVER, es)
    decreases |es|
  {
    if es != [] {
      var init, last := es[..|es| - 1], es[|es| - 1];
      ServerSafeIff(init);
      var s := Serve(NEW_SERVER, init);
      if Consistent(s) {
        match last
        case Accepts(budget, partial, noise) => AcceptConsistent(s, budget, partial, noise);
        case Steps(number, step) =>
          if number < |s.conns| {
            StepConsistent(s, number, step);
          }
        case Closes(index) => CloseConsistent(s, index);
      }
    }
  }

  lemma HappenCounted(s: Server, e: Happening)
    requires Counted(s) && !Happen(s, e).failed
    ensures Counted(Happen(s, e))
  {
  }

  /** The counter meets a registered id exactly when the connection accepted 2^32 accepts (or a
      multiple of that) earlier is still there; so never within the first 2^32 accepts. */
  lemma AcceptFailsIff(s: Server)
    requires Consistent(s) && Counted(s)
    ensures s.registry.next in s.registry.active
       <==> exists n :: 0 <= n < |s.conns| && n !in s.closed && WrapsTo(n, |s.conns|)
    ensures |s.conns| < 0x1_0000_0000 ==> s.registry.next !in s.registry.active
  {
    NextHeldIff(s.registry, BookOf(s));
  }

  predicate WrapsTo(a: nat, b: nat) {
    (b - a) % 0x1_0000_0000 == 0
  }

  lemma NextHeldIff(r: Registry, b: Book)
    requires Registers(r, b) && r.next == Uint32(|b.ids|)
    requires forall n :: 0 <= n < |b.ids| ==> b.ids[n] == Uint32(n)
    ensures r.next in r.active <==> exists n :: 0 <= n < |b.ids| && n !in b.closed && WrapsTo(n, |b.ids|)
    ensures |b.ids| < TWO_32 ==> r.next !in r.active
  {
    if r.next in r.active {
      var n := r.active[r.next];
      assert Holds(r, b.ids[n], n);
      SameId(n, |b.ids|);
    }
    if n :| 0 <= n < |b.ids| && n !in b.closed && WrapsTo(n, |b.ids|) {
      SameId(n, |b.ids|);
      assert Holds(r, b.ids[n], n);
    }
  }

  lemma SameId(a: nat, b: nat)
    requires a <= b
    ensures Uint32(a) == Uint32(b) <==> WrapsTo(a, b)
    ensures a < b < TWO_32 ==> Uint32(a) != Uint32(b)
  {
    var q := b / TWO_32 - a / TWO_32;
    assert b - a == q * TWO_32 + (b % TWO_32 - a % TWO_32);
  }

  /** Every connection step of the run is peaceful. */
  predicate StepsPeaceful(s: Server, es: seq<Happening>) {
    if es == [] then true else
      var init, last := es[..|es| - 1], es[|es| - 1];
      StepsPeaceful(s, init) && (last.Steps? ==> EventPeaceful(Serve(s, init), last))
  }

  function AcceptCount(es: seq<Happening>): nat {
    if es == [] then 0 else AcceptCount(es[..|es| - 1]) + if es[|es| - 1].Accepts? then 1 else 0
  }

  lemma HappenSafe(s: Server, e: Happening)
    requires Consistent(s) && Counted(s)
    requires e.Steps? ==> EventPeaceful(s, e)
    requires e.Accepts? ==> |s.conns| < TWO_32
    ensures Consistent(Happen(s, e))
    ensures |Happen(s, e).conns| == |s.conns| + if e.Accepts? then 1 else 0
  {
    match e
    case Accepts(budget, partial, noise) =>
      AcceptFailsIff(s);
      AcceptConsistent(s, budget, partial, noise);
    case Steps(number, step) =>
      if number < |s.conns| {
        StepConsistent(s, number, step);
      }
    case Closes(index) =>
      CloseConsistent(s, index);
  }

  /** Up to 2^32 accepts, in every interleaving with connection steps that lose no abort answer to a
      harmful record, and with the posted closes run at any time and in any order: the registry is
      consistent throughout and none of its assertions fails. */
  lemma {:induction false} ServerSafe(es: seq<Happening>)
    requires StepsPeaceful(NEW_SERVER, es) && AcceptCount(es) <= 0x1_0000_0000
    ensures AlwaysConsistent(NEW_SERVER, es) && Counted(Serve(NEW_SERVER, es))
    ensures |Serve(NEW_SERVER, es).conns| == AcceptCount(es)
    decreases |es|
  {
    if es != [] {
      var init, last := es[..|es| - 1], es[|es| - 1];
      ServerSafe(init);
      HappenSafe(Serve(NEW_SERVER, init), last);
      HappenCounted(Serve(NEW_SERVER, init), last);
    }
  }

  lemma {:induction false} OnlyAccepts(es: seq<Happening>)
    requires forall i :: 0 <= i < |es| ==> es[i].Accepts?
    ensures StepsPeaceful(NEW_SERVER, es) && AcceptCount(es) == |es| && Serve(NEW_SERVER, es).closed == {}
    decreases |es|
  {
    if es != [] {
      OnlyAccepts(es[..|es| - 1]);
    }
  }

  /** The bound is sharp: after 2^32 accepts and nothing else, the next accept fails its assertion. */
  lemma AcceptWraps(es: seq<Happening>, e: Happening)
    requires |es| == 0x1_0000_0000 && (forall i :: 0 <= i < |es| ==> es[i].Accepts?) && e.Accepts?
    ensures Happen(Serve(NEW_SERVER, es), e).failed
  {
    OnlyAccepts(es);
    ServerSafe(es);
    var s := Serve(NEW_SERVER, es);
    assert 0 !in s.closed && WrapsTo(0, |s.conns|);
    AcceptFailsIff(s);
  }
}
