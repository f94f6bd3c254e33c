/**
 The adapter that turns WebSocket messages into a byte stream for the multiplexer
 (wsNetConn and byteReader in internal/connector/transport/websocket.go).
 */
module WebSocketStream {
  import opened Sequences
  import opened Bytes

  /** The rest of one message. */
  class ByteReader {
    const data: bytes
    var pos: nat

    constructor (data: bytes)
      ensures Valid() && Rest() == data
    {
      this.data, pos := data, 0;
    }

    ghost predicate Valid()
      reads this
    {
      pos <= |data|
    }

    /** What has not been returned yet. */
    ghost function Rest(): bytes
      requires Valid()
      reads this
    {
      data[pos..]
    }

    /** Fills the buffer from the front; reports the end only when nothing is left. */
    method Read(b: array<byte>) returns (n: nat, eof: bool)
      requires Valid()
      modifies this, b
      ensures Valid() && (eof <==> old(Rest()) == [])
      ensures n == (if b.Length <= |old(Rest())| then b.Length else |old(Rest())|)
      ensures old(Rest()) == b[..n] + Rest() && b[n..] == old(b[n..])
    {
      if pos >= |data| {
        return 0, true;
      }
      n := if b.Length <= |data| - pos then b.Length else |data| - pos;
      forall i | 0 <= i < n {
        b[i] := data[pos + i];
      }
      pos := pos + n;
      eof := false;
    }
  }

  /** A connection and the messages that will arrive before it fails. */
  class WsNetConn {
    var incoming: seq<bytes>
    var reader: ByteReader?

    constructor (messages: seq<bytes>)
      ensures Valid() && Remaining() == Flatten(messages) && fresh(Repr())
    {
      incoming, reader := messages, null;
    }

    ghost function Repr(): set<object>
      reads this
    {
      {this} + if reader == null then {} else {reader}
    }

    ghost predicate Valid()
      reads this, reader
    {
      reader != null ==> reader.Valid()
    }

    /** Every byte that has not been returned yet. */
    ghost function Remaining(): bytes
      requires Valid()
      reads this, reader
    {
      (if reader == null then [] else reader.Rest()) + Flatten(incoming)
    }

    /** Messages that have not been finished, the current one included. */
    ghost function Unfinished(): nat
      reads this
    {
      |incoming| + if reader == null then 0 else 1
    }

    /** The current message (or the next one, if none is current) has nothing left. */
    ghost predicate AtMessageEnd()
      requires Valid()
      reads this, reader
    {
      if reader == null then incoming != [] && incoming[0] == [] else reader.Rest() == []
    }

    /** Returns the next bytes of the stream; fails only when every message was finished. */
    method Read(b: array<byte>) returns (ok: bool, n: nat)
      requires Valid()
      modifies this, reader, b
      ensures Valid() && fresh(Repr() - old(Repr()))
      ensures ok <==> old(Unfinished()) > 0
      ensures !ok ==> n == 0 && old(Remaining()) == [] && Remaining() == [] && Unfinished() == 0
      ensures n <= b.Length && old(Remaining()) == b[..n] + Remaining() && b[n..] == old(b[n..])
      ensures ok && b.Length > 0 ==> (n == 0 <==> old(AtMessageEnd()))
      ensures ok && b.Length > 0 ==> |Remaining()| + Unfinished() < old(|Remaining()| + Unfinished())
    {
      if reader == null {
        if incoming == [] {
          return false, 0;
        }
        NextMessage();
      }
      ghost var more := Flatten(incoming);
      ghost var rest := reader.Rest();
      var eof;
      n, eof := reader.Read(b);
      Regroup(rest, b[..n], reader.Rest(), more);
      if eof {
        reader := null;
      }
      ok := true;
    }

    /** Makes the next message the current one. */
    method NextMessage()
      requires Valid() && reader == null && incoming != []
      modifies this
      ensures Valid() && reader != null && fresh(reader)
      ensures reader.Rest() == old(incoming[0]) && incoming == old(incoming[1..])
      ensures Remaining() == old(Remaining())
    {
      reader := new ByteReader(incoming[0]);
      incoming := incoming[1..];
    }
  }

  lemma Regroup(rest: bytes, got: bytes, left: bytes, more: bytes)
    requires rest == got + left
    ensures rest + more == got + (left + more)
  {
  }

  /** Reading on, with buffers of any non-zero sizes, delivers every byte of every message in
      order; each read either returns bytes or finishes a message, so it ends. */
  method ReadAll(c: WsNetConn, sizes: nat -> nat) returns (all: bytes)
    requires c.Valid() && forall k :: sizes(k) > 0
    modifies c, c.reader
    ensures all == old(c.Remaining())
  {
    all := [];
    ghost var total := c.Remaining();
    var k := 0;
    while true
      invariant c.Valid() && fresh(c.Repr() - old(c.Repr()))
      invariant total == all + c.Remaining()
      decreases |c.Remaining()| + c.Unfinished()
    {
      var b := new byte[sizes(k)](_ => 0);
      var ok, n := c.Read(b);
      if !ok {
        return;
      }
      Append(all, b[..n], c.Remaining());
      all, k := all + b[..n], k + 1;
    }
  }
}
