/**
 * The connection the server talks to, as the test suite's `FakeConnection`
 * defines it: a receive buffer that `recv(n)` consumes from the front, an
 * accumulator that `send` appends to, and a closed flag.
 */
module Connection {

  /** One call made on a connection, as recorded in its ghost trace. */
  datatype Event = Received(n: nat) | Sent(data: string) | Closed

  function Min(a: nat, b: nat): nat { if a <= b then a else b }

  class FakeConnection {
    /** The text not yet received. */
    var toRecv: string
    /** Everything sent so far, concatenated. */
    var sent: string
    var isClosed: bool
    /** The calls made on this connection so far, oldest first. */
    ghost var trace: seq<Event>

    constructor (toRecv: string)
      ensures this.toRecv == toRecv && sent == "" && !isClosed
      ensures trace == []
    {
      this.toRecv := toRecv;
      sent := "";
      isClosed := false;
      trace := [];
    }

    /**
     * Returns the first `n` characters still to receive, or all of them when
     * fewer remain, and removes them from the buffer.
     */
    method Recv(n: nat) returns (r: string)
      modifies this
      ensures r == old(toRecv)[..Min(n, |old(toRecv)|)]
      ensures r + toRecv == old(toRecv)
      ensures n >= |old(toRecv)| ==> r == old(toRecv) && toRecv == ""
      ensures sent == old(sent) && isClosed == old(isClosed)
      ensures trace == old(trace) + [Received(n)]
    {
      if n > |toRecv| {
        r := toRecv;
        toRecv := "";
      } else {
        r, toRecv := toRecv[..n], toRecv[n..];
      }
      trace := trace + [Received(n)];
    }

    /** Appends `s` to what has been sent. */
    method Send(s: string)
      modifies this
      ensures sent == old(sent) + s
      ensures toRecv == old(toRecv) && isClosed == old(isClosed)
      ensures trace == old(trace) + [Sent(s)]
    {
      sent := sent + s;
      trace := trace + [Sent(s)];
    }

    /** Marks the connection closed; nothing else changes. */
    method Close()
      modifies this
      ensures isClosed
      ensures toRecv == old(toRecv) && sent == old(sent)
      ensures trace == old(trace) + [Closed]
    {
      isClosed := true;
      trace := trace + [Closed];
    }
  }

  /** Closing twice leaves the connection's fields as closing once does. */
  method CloseTwice(c: FakeConnection)
    modifies c
    ensures c.isClosed && c.toRecv == old(c.toRecv) && c.sent == old(c.sent)
    ensures c.trace == old(c.trace) + [Closed, Closed]
  {
    c.Close();
    c.Close();
  }
}
