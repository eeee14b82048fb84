/** The write half of `PacketSocket`, as a function of the peer that receives the octets. */
module Links {
  import opened Bytes
  import opened Framing

  /** `open` is the packet socket's state. The rest is the peer: `wire` is what it received,
      `budget` how many more socket writes it accepts before one fails, `partial` how many octets
      of the failing write still arrive (but never all), `broken` whether a write has failed. */
  datatype Link = Link(open: bool, wire: bytes, budget: nat, partial: nat, broken: bool)

  datatype Written = Written(link: Link, ok: bool)

  /** How many of `size` octets a failing write delivers: `boost::asio::write` reports an error only
      with octets left to write. */
  function Delivery(partial: nat, size: nat): (n: nat)
    ensures n <= size && (size > 0 ==> n < size)
  {
    if partial < size then partial else if size > 0 then size - 1 else 0
  }

  /** One `boost::asio::write`. */
  function Put(l: Link, b: bytes): Written {
    if l.budget > 0 then Written(l.(wire := l.wire + b, budget := l.budget - 1), true)
    else Written(l.(wire := l.wire + b[..Delivery(l.partial, |b|)], broken := true), false)
  }

  function Close(l: Link): Link {
    l.(open := false)
  }

  /** `writePacket`: record after record until the content is out or a write fails, which closes. */
  function WritePacket(l: Link, id: nat, kind: byte, content: bytes): Written
    decreases |content|
  {
    var n := Min(|content|, MAX_CONTENT);
    var w := Put(l, EncodeRecord(id, kind, content[..n]));
    if !w.ok then Written(Close(w.link), false)
    else if n == |content| then w
    else WritePacket(w.link, id, kind, content[n..])
  }

  /** `l'` is `l` after more octets arrived and nothing else happened. */
  predicate Delivered(l: Link, l': Link, b: bytes) {
    l'.open == l.open && l'.wire == l.wire + b && l'.partial == l.partial && l'.broken == l.broken
  }

  /** `l'` is `l` after a write of `b` failed: closed, with part of the octets delivered. */
  predicate Lost(l: Link, l': Link, b: bytes) {
    !l'.open && l'.broken && l.wire <= l'.wire < l.wire + b && l'.partial == l.partial
  }

  /** All or nothing towards the caller: either the whole packet is on the wire, or the socket is
      closed. How many socket writes the peer accepts decides which. */
  lemma {:induction false} PacketWritten(l: Link, id: nat, kind: byte, content: bytes)
    ensures var w := WritePacket(l, id, kind, content);
      && (w.ok <==> l.budget >= |Split(content)|)
      && (w.ok ==> Delivered(l, w.link, EncodePacket(id, kind, content)))
      && (w.ok ==> w.link.budget == l.budget - |Split(content)|)
      && (!w.ok ==> Lost(l, w.link, EncodePacket(id, kind, content)))
    decreases |content|
  {
    if |content| <= MAX_CONTENT {
      assert content[..|content|] == content;
    } else if l.budget > 0 {
      var first := EncodeRecord(id, kind, content[..MAX_CONTENT]);
      var p, w := Put(l, first), WritePacket(l, id, kind, content);
      var rest := content[MAX_CONTENT..];
      PacketWritten(p.link, id, kind, rest);
      assert w == WritePacket(p.link, id, kind, rest);
      DeliveredThen(l, p.link, w.link, first, EncodePacket(id, kind, rest));
    } else {
      LostMore(l, WritePacket(l, id, kind, content).link,
               EncodeRecord(id, kind, content[..MAX_CONTENT]), EncodePacket(id, kind, content[MAX_CONTENT..]));
    }
  }

  /** What arrives in two steps, the second of which may fail. */
  lemma DeliveredThen(a: Link, b: Link, c: Link, x: bytes, y: bytes)
    requires Delivered(a, b, x)
    ensures Delivered(b, c, y) ==> Delivered(a, c, x + y)
    ensures Lost(b, c, y) ==> Lost(a, c, x + y)
  {
    Regroup(a.wire, x, y);
  }

  lemma LostMore(a: Link, b: Link, x: bytes, y: bytes)
    requires Lost(a, b, x)
    ensures Lost(a, b, x + y)
  {
    Regroup(a.wire, x, y);
  }
}
