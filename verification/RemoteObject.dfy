/** The connection and the remote update as the source has them. */
module RemoteObject {
  import opened Bytes
  import opened BinaryWriter
  import R = BinaryReader
  import T = Transfer
  import Remote
  import opened WriterObject
  import ReaderObject

  class Connection {
    var connected: bool
    var sent: bytes
    var incoming: bytes
    var outcomes: seq<int>

    ghost function Abs(): T.Channel
      reads this
    {
      T.Channel(connected, sent, incoming, outcomes)
    }

    constructor (incoming: bytes, outcomes: seq<int>)
      ensures Abs() == T.Channel(true, [], incoming, outcomes)
    {
      this.connected, this.sent, this.incoming, this.outcomes := true, [], incoming, outcomes;
    }

    // What the socket call returns this time.
    method Outcome() returns (ret: int)
      modifies this`outcomes
      ensures ret == T.Outcome(old(Abs())) && Abs() == T.Drop1(old(Abs()))
    {
      if outcomes == [] {
        return -1;
      }
      ret := outcomes[0];
      outcomes := outcomes[1..];
    }

    method Send(chunk: bytes) returns (count: int)
      modifies this
      ensures T.Sent(Abs(), count) == T.Send(old(Abs()), chunk)
    {
      if !connected {
        return 0;
      }
      var ret := Outcome();
      if 0 < ret <= |chunk| {
        sent := sent + chunk[..ret];
      } else {
        sent := sent + [];
      }
      if ret != |chunk| {
        connected := false;
        return 0;
      }
      return ret;
    }

    method SendStream(buffer: array<byte>) returns (sizeCount: int)
      requires 4 <= buffer.Length && T.StreamSize(buffer[..]) <= buffer.Length
      modifies this
      ensures T.Sent(Abs(), sizeCount) == T.SendStream(old(Abs()), buffer[..])
    {
      hide T.Send;
      sizeCount := 0;
      var size := buffer[0] % 0x40 * TWO_24 + buffer[1] * TWO_16 + buffer[2] * TWO_8 + buffer[3];
      var pos := 0;
      while size != 0
        invariant 0 <= size && 0 <= pos && pos + size <= buffer.Length
        invariant T.SendFrom(Abs(), buffer[..], pos, size, sizeCount) == T.SendStream(old(Abs()), buffer[..])
        decreases size
      {
        var sizeLeft := if size > 1024 then 1024 else size;
        assert buffer[..][pos..pos + sizeLeft] == buffer[pos..pos + sizeLeft];
        var count := Send(buffer[pos..pos + sizeLeft]);
        if count == 0 {
          return sizeCount;
        }
        pos := pos + sizeLeft;
        size := size - sizeLeft;
        sizeCount := sizeCount + sizeLeft;
      }
    }

    method Recv(length: nat) returns (data: bytes)
      modifies this
      ensures T.Received(Abs(), data) == T.Recv(old(Abs()), length)
    {
      if !connected {
        return [];
      }
      var ret := Outcome();
      if ret > length {
        ret := length;
      }
      if ret > |incoming| {
        ret := |incoming|;
      }
      if ret <= 0 {
        connected := false;
        return [];
      }
      data := incoming[..ret];
      incoming := incoming[ret..];
    }

    // Stores b at p of the receive buffer.
    static method Fill(out: array<byte>, p: nat, b: bytes)
      requires p + |b| <= out.Length
      modifies out
      ensures out[..] == Put(old(out[..]), p, b)
    {
      var i := 0;
      while i < |b|
        invariant 0 <= i <= |b|
        invariant out[..] == Put(old(out[..]), p, b[..i])
      {
        out[p + i] := b[i];
        i := i + 1;
      }
      assert b[..|b|] == b;
    }

    // Receives into a buffer of its own; null when the connection is lost.
    method RecvStream(size: nat) returns (stream: array?<byte>)
      requires 4 <= size
      modifies this
      ensures stream == null || fresh(stream)
      ensures var f := T.RecvStream(old(Abs()), Remote.Unfilled(size), size);
              Abs() == f.c && (stream != null) == f.ok && (f.ok ==> stream[..] == f.out)
    {
      hide T.Recv, Put;
      var out := new byte[size](_ => 0xcd);
      assert out[..] == Remote.Unfilled(size);
      Fill(out, 0, BE32(size));
      ghost var start := out[..];
      var pos, left := 4, size - 4;
      while left != 0
        invariant 0 <= left && 0 <= pos && pos + left <= out.Length && fresh(out)
        invariant T.RecvFrom(Abs(), out[..], pos, left) == T.RecvFrom(old(Abs()), start, 4, size - 4)
        decreases left
      {
        var currSize := if left > 1024 then 1024 else left;
        Remote.RecvBound(Abs(), currSize);
        var data := Recv(currSize);
        if data == [] {
          return null;
        }
        Fill(out, pos, data);
        pos := pos + currSize;
        left := left - currSize;
      }
      return out;
    }
  }

  class RemoteBackend {
    const conn: Connection
    const reader: ReaderObject.Reader

    constructor (c: Connection)
      ensures conn == c && fresh(reader)
    {
      conn := c;
      reader := new ReaderObject.Reader();
    }

    // Receives what is pending: an action code, or a stream. `held` is what the
    // header buffer holds before.
    method Receive(held: bytes) returns (action: int, stream: array?<byte>)
      requires Remote.HeaderOk(conn.Abs(), held)
      modifies conn
      ensures stream == null || fresh(stream)
      ensures var got := Remote.Receive(old(conn.Abs()), held);
              && conn.Abs() == got.c && action == got.action
              && (if stream == null then got.stream == [] else got.stream == stream[..])
    {
      hide T.Recv, T.RecvStream, Put;
      action, stream := 0, null;
      Remote.RecvBound(conn.Abs(), 4);
      var data := conn.Recv(4);
      var cmd := Put(held, 0, data);
      if data != [] {
        if cmd[0] >= 0x80 {
          action := cmd[2] * TWO_8 + cmd[3];
        } else {
          var size := cmd[0] % 0x40 * TWO_24 + cmd[1] * TWO_16 + cmd[2] * TWO_8 + cmd[3];
          stream := conn.RecvStream(size);
        }
      }
    }

    /** One update: receive if something is pending, let the plugin answer
        through a new writer, and send its stream if there is any. `initial` is
        what the new buffer held, `held` what the header buffer held. */
    method Update(pending: bool, held: bytes, replies: seq<Call>)
      returns (action: int, writer: Writer, ghost initial: bytes)
      requires pending ==> Remote.HeaderOk(conn.Abs(), held)
      requires HEADER + TotalCost(replies) <= CAPACITY
      modifies conn, reader
      ensures |initial| == CAPACITY && writer.Abs() == Finalize(Run(Initial(initial), replies))
      ensures Framed(writer.Abs())
      ensures var got := if pending then Remote.Receive(old(conn.Abs()), held)
                         else Remote.Incoming(old(conn.Abs()), 0, []);
              && action == got.action
              && reader.Mem() == got.stream && reader.Abs() == R.InitStream(|got.stream|)
              && conn.Abs() == Remote.Reply(got.c, writer.Abs())
    {
      hide Run, Finalize, T.SendStream, T.StreamSize, Remote.Receive, Put;
      var stream: array?<byte> := null;
      action := 0;
      if pending {
        action, stream := Receive(held);
      }
      var recvSize := if stream == null then 0 else stream.Length;
      writer := new Writer();
      initial := writer.buffer[..];
      reader.InitStream(stream, recvSize);
      WriteAll(writer, replies);
      Remote.FinalSize(writer.Abs());
      writer.Finish();
      if writer.Size() > 4 && conn.connected {
        var _ := conn.SendStream(writer.buffer);
      }
    }

    ghost predicate Framed(w: State) {
      Valid(w) && T.StreamSize(w.mem) <= |w.mem|
    }
  }
}
