/** `PacketSocket` over its own state: the input buffer, OPEN or CLOSED, and the peer it writes to. */
module PacketSockets {
  import opened Bytes
  import opened Framing
  import Links

  class PacketSocket {
    var open: bool
    var inputBuffer: bytes

    var wire: bytes
    var budget: nat
    var partial: nat
    var broken: bool

    constructor (budget: nat, partial: nat)
      ensures View() == Links.Link(true, [], budget, partial, false) && inputBuffer == []
    {
      this.open, this.inputBuffer := true, [];
      this.wire, this.budget, this.partial, this.broken := [], budget, partial, false;
    }

    function View(): Links.Link
      reads this`open, this`wire, this`budget, this`partial, this`broken
    {
      Links.Link(open, wire, budget, partial, broken)
    }

    /** `boost::asio::write` towards the peer. */
    method Put(b: bytes) returns (ok: bool)
      modifies this`wire, this`budget, this`broken
      ensures Links.Written(View(), ok) == Links.Put(old(View()), b)
    {
      if budget > 0 {
        wire, budget, ok := wire + b, budget - 1, true;
      } else {
        wire, broken, ok := wire + b[..Links.Delivery(partial, |b|)], true, false;
      }
    }

    method Close()
      modifies this`open
      ensures View() == Links.Close(old(View()))
    {
      open := false;
    }

    method WritePacket(requestId: nat, kind: byte, contentLength: nat, content: bytes) returns (ok: bool)
      requires open
      requires contentLength <= |content| && contentLength < TWO_32
      modifies this`open, this`wire, this`budget, this`broken
      ensures Links.Written(View(), ok) == Links.WritePacket(old(View()), requestId, kind, content[..contentLength])
    {
      var n := 0;
      ghost var sent := content[..contentLength];
      assert sent[0..] == sent;
      while true
        invariant n <= contentLength
        invariant Links.WritePacket(old(View()), requestId, kind, sent)
                  == Links.WritePacket(View(), requestId, kind, sent[n..])
        invariant n == contentLength ==> n == 0
        decreases contentLength - n
      {
        var written := Min(contentLength - n, MAX_CONTENT);
        assert sent[n..][..written] == content[n..n + written];
        ok := Put(Header(requestId, kind, written) + content[n..n + written] + Zeros(Padding(written)));
        if !ok {
          Close();
          return;
        }
        assert sent[n..][written..] == sent[n + written..];
        n := n + written;
        if n == contentLength {
          break;
        }
      }
    }

    method Commit(chunk: bytes)
      modifies this`inputBuffer
      ensures inputBuffer == old(inputBuffer) + chunk
    {
      inputBuffer := inputBuffer + chunk;
    }

    /** `streambuf::consume`, which takes at most what is there. */
    method Consume(n: nat)
      modifies this`inputBuffer
      ensures inputBuffer == old(inputBuffer)[Min(n, |old(inputBuffer)|)..]
    {
      inputBuffer := inputBuffer[Min(n, |inputBuffer|)..];
    }
  }
}
