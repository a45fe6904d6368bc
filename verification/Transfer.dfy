/** Streams over a connection, in chunks of 1024 bytes. What each socket call
    does is an outcome chosen by the environment. */
module Transfer {
  import opened Bytes

  const BLOCK: nat := 1024

  // `outcomes` are the results of the socket calls still to come; a call with
  // none left fails.
  datatype Channel = Channel(connected: bool, sent: bytes, incoming: bytes, outcomes: seq<int>)

  function Outcome(c: Channel): int {
    if c.outcomes == [] then -1 else c.outcomes[0]
  }

  function Drop1(c: Channel): Channel {
    if c.outcomes == [] then c else c.(outcomes := c.outcomes[1..])
  }

  datatype Sent = Sent(c: Channel, count: int)

  // RemoteConnection_send: all or nothing for the caller, though a prefix may
  // have left before the connection is given up.
  function Send(c: Channel, chunk: bytes): Sent {
    if !c.connected then Sent(c, 0)
    else
      var ret := Outcome(c);
      var left := if 0 < ret <= |chunk| then chunk[..ret] else [];
      var c1 := Drop1(c).(sent := c.sent + left);
      if ret != |chunk| then Sent(c1.(connected := false), 0) else Sent(c1, ret)
  }

  // The size at the front of a stream; the top two bits mean something else.
  function StreamSize(b: bytes): (size: nat)
    ensures size < 0x4000_0000
  {
    At(b, 0) % 0x40 * TWO_24 + At(b, 1) * TWO_16 + At(b, 2) * TWO_8 + At(b, 3)
  }

  function Chunk(size: nat): nat {
    if size > BLOCK then BLOCK else size
  }

  function SendFrom(c: Channel, b: bytes, pos: nat, size: nat, count: int): Sent
    requires pos + size <= |b|
    decreases size
  {
    if size == 0 then Sent(c, count)
    else
      var n := Chunk(size);
      var s := Send(c, b[pos..pos + n]);
      if s.count == 0 then Sent(s.c, count) else SendFrom(s.c, b, pos + n, size - n, count + n)
  }

  // RemoteConnection_sendStream
  function SendStream(c: Channel, b: bytes): Sent
    requires StreamSize(b) <= |b|
  {
    SendFrom(c, b, 0, StreamSize(b), 0)
  }

  // Bytes of the leading chunks that these outcomes send in full.
  function WholeChunks(outcomes: seq<int>, size: nat): (n: nat)
    ensures n <= size
    decreases size
  {
    if size == 0 || outcomes == [] || outcomes[0] != Chunk(size) then 0
    else Chunk(size) + WholeChunks(outcomes[1..], size - Chunk(size))
  }

  /** A stream goes out in blocks of 1024 bytes and a rest. */
  lemma Blocks(size: nat)
    ensures Chunk(size) == if size > 1024 then 1024 else size
    ensures WholeChunks([1024, 1], 1025) == 1025 && WholeChunks([1025], 1025) == 0
  {
    assert [1024, 1][1..] == [1];
    assert WholeChunks([1], 1) == 1;
  }

  // A send is whole, or it ends the connection after part of the chunk.
  lemma SendCases(c: Channel, chunk: bytes)
    requires chunk != [] && c.connected
    ensures var s, whole := Send(c, chunk), c.outcomes != [] && c.outcomes[0] == |chunk|;
            && s.count == (if whole then |chunk| else 0)
            && s.c.connected == whole && s.c.incoming == c.incoming
            && (whole ==> s.c.sent == c.sent + chunk && s.c.outcomes == c.outcomes[1..])
            && (!whole ==> c.sent <= s.c.sent && |s.c.sent| < |c.sent| + |chunk|)
  {
  }

  /** A stream is handed over in order; the result counts the chunks sent in
      full, and is the size exactly when all of them were. */
  lemma {:induction false} SendFromSends(c: Channel, b: bytes, pos: nat, size: nat, count: int)
    requires pos + size <= |b| && c.connected
    ensures var s, n := SendFrom(c, b, pos, size, count), WholeChunks(c.outcomes, size);
            && s.count == count + n && s.c.connected == (n == size)
            && c.sent + b[pos..pos + n] <= s.c.sent && |s.c.sent| < |c.sent| + n + BLOCK
            && (n == size ==> s.c.sent == c.sent + b[pos..pos + n])
    decreases size
  {
    hide Send;
    if size > 0 {
      var k := Chunk(size);
      var s := Send(c, b[pos..pos + k]);
      SendCases(c, b[pos..pos + k]);
      if s.count != 0 {
        SendFromSends(s.c, b, pos + k, size - k, count + k);
        var n := WholeChunks(s.c.outcomes, size - k);
        SliceJoin(c.sent, b, pos, pos + k, pos + k + n);
      }
    }
  }

  lemma SliceJoin(a: bytes, b: bytes, i: nat, j: nat, k: nat)
    requires i <= j <= k <= |b|
    ensures a + b[i..j] + b[j..k] == a + b[i..k]
  {
    assert b[i..j] + b[j..k] == b[i..k];
  }

  datatype Received = Received(c: Channel, data: bytes)

  // RemoteConnection_recv: at most n bytes; nothing, or an error, ends the
  // connection.
  function Recv(c: Channel, n: nat): Received {
    if !c.connected then Received(c, [])
    else
      var o := Outcome(c);
      var most := if n < |c.incoming| then n else |c.incoming|;
      var ret := if o <= 0 then 0 else if o > most then most else o;
      if ret == 0 then Received(Drop1(c).(connected := false), [])
      else Received(Drop1(c).(incoming := c.incoming[ret..]), c.incoming[..ret])
  }

  datatype Filled = Filled(c: Channel, ok: bool, out: bytes)

  // The loop of recvStream: each round stores what came at the start of the
  // next block, whatever its length.
  function RecvFrom(c: Channel, out: bytes, pos: nat, size: nat): Filled
    requires pos + size <= |out|
    decreases size
  {
    if size == 0 then Filled(c, true, out)
    else
      var n := Chunk(size);
      var r := Recv(c, n);
      if r.data == [] || |r.data| > n then Filled(r.c, false, out)
      else RecvFrom(r.c, Put(out, pos, r.data), pos + n, size - n)
  }

  // RemoteConnection_recvStream into `out`, after the 4 header bytes are read.
  function RecvStream(c: Channel, out: bytes, size: nat): Filled
    requires 4 <= size <= |out|
  {
    RecvFrom(c, Put(out, 0, BE32(size)), 4, size - 4)
  }

  // Every read for a body of this size returns its full length.
  predicate FullReads(outcomes: seq<int>, size: nat)
    decreases size
  {
    size == 0 || (outcomes != [] && outcomes[0] >= Chunk(size) && FullReads(outcomes[1..], size - Chunk(size)))
  }

  lemma RecvFullChunk(c: Channel, n: nat)
    requires 0 < n <= |c.incoming| && c.connected && c.outcomes != [] && c.outcomes[0] >= n
    ensures Recv(c, n) == Received(c.(incoming := c.incoming[n..], outcomes := c.outcomes[1..]), c.incoming[..n])
  {
  }

  lemma {:induction false} RecvFromFull(c: Channel, out: bytes, pos: nat, size: nat)
    requires pos + size <= |out| && c.connected && size <= |c.incoming| && FullReads(c.outcomes, size)
    ensures var f := RecvFrom(c, out, pos, size);
            f.ok && f.out == Put(out, pos, c.incoming[..size]) && f.c.incoming == c.incoming[size..] && f.c.connected
    decreases size
  {
    hide Recv, Put;
    if size == 0 {
      PutNothing(out, pos);
      assert c.incoming[..0] == [];
    } else {
      var n := Chunk(size);
      var rest := c.incoming[n..];
      RecvFullChunk(c, n);
      RecvFromFull(Recv(c, n).c, Put(out, pos, c.incoming[..n]), pos + n, size - n);
      PutPut(out, pos, c.incoming[..n], rest[..size - n]);
      assert c.incoming[..n] + rest[..size - n] == c.incoming[..size];
      assert rest[size - n..] == c.incoming[size..];
    }
  }

  lemma PutNothing(m: bytes, p: nat)
    requires p <= |m|
    ensures Put(m, p, []) == m
  {
  }

  /** A received stream takes exactly its body off the wire if and only if
      every read was full: a short read is not made up for. */
  lemma {:induction false} TakesExactlyTheBody(c: Channel, out: bytes, pos: nat, size: nat)
    requires pos + size <= |out| && c.connected && size <= |c.incoming|
    requires RecvFrom(c, out, pos, size).ok
    ensures var taken := |c.incoming| - |RecvFrom(c, out, pos, size).c.incoming|;
            taken <= size && (taken == size <==> FullReads(c.outcomes, size))
    decreases size
  {
    hide Put;
    if size > 0 {
      var n := Chunk(size);
      var r := Recv(c, n);
      TakesExactlyTheBody(r.c, Put(out, pos, r.data), pos + n, size - n);
    }
  }

  /** One read delivers what the outcome allows of what is on the wire, and loses the
      connection if and only if that is nothing. */
  lemma RecvCases(c: Channel, n: nat)
    requires c.connected
    ensures var r, o := Recv(c, n), Outcome(c);
            && r.data <= c.incoming && c.incoming == r.data + r.c.incoming && r.c.sent == c.sent
            && |r.data| <= n && |r.data| <= (if o > 0 then o else 0)
            && (|r.data| == n || |r.data| == |c.incoming| || |r.data| == if o > 0 then o else 0)
            && (r.c.connected <==> r.data != [])
  {
  }

  // Every read for a body of this size delivers something.
  predicate SomeReads(outcomes: seq<int>, size: nat)
    decreases size
  {
    size == 0 || (outcomes != [] && outcomes[0] > 0 && SomeReads(outcomes[1..], size - Chunk(size)))
  }

  /** With enough on the wire a receive completes if and only if every read delivers
      something; when it does not, the connection is lost. */
  lemma {:induction false} CompletesExactly(c: Channel, out: bytes, pos: nat, size: nat)
    requires pos + size <= |out| && c.connected && size <= |c.incoming|
    ensures var f := RecvFrom(c, out, pos, size);
            (f.ok <==> SomeReads(c.outcomes, size)) && (f.c.connected <==> f.ok)
    decreases size
  {
    hide Put;
    if size > 0 {
      var n := Chunk(size);
      var r := Recv(c, n);
      if r.data != [] {
        CompletesExactly(r.c, Put(out, pos, r.data), pos + n, size - n);
      }
    }
  }

  /** Without a connection nothing is sent and nothing is received. */
  lemma NotConnected(c: Channel, b: bytes, out: bytes, size: nat)
    requires !c.connected && StreamSize(b) <= |b| && 4 < size <= |out|
    ensures SendStream(c, b) == Sent(c, 0) && RecvStream(c, out, size).c == c && !RecvStream(c, out, size).ok
  {
    hide Put;
  }

  // A 3-byte body that arrives as 2 + 1: the loop stops after the 2.
  lemma ShortReadLosesBytes()
    ensures var c := Channel(true, [], [1, 2, 3], [2, 1]);
            RecvStream(c, [9, 9, 9, 9, 9, 9, 9], 7) == Filled(Channel(true, [], [3], [1]), true, [0, 0, 0, 7, 1, 2, 9])
  {
    var c := Channel(true, [], [1, 2, 3], [2, 1]);
    var out := Put([9, 9, 9, 9, 9, 9, 9], 0, BE32(7));
    assert out == [0, 0, 0, 7, 9, 9, 9];
    assert Recv(c, 3) == Received(Channel(true, [], [3], [1]), [1, 2]);
    assert Put(out, 4, [1, 2]) == [0, 0, 0, 7, 1, 2, 9];
  }

  // The header decode on the receiving side.
  predicate IsAction(cmd: bytes) {
    At(cmd, 0) >= 0x80
  }

  function ActionCode(cmd: bytes): int {
    At(cmd, 2) * TWO_8 + At(cmd, 3)
  }

  lemma SizeHeader(b: bytes, size: nat)
    requires Holds(b, 0, BE32(size)) && size < 0x4000_0000
    ensures !IsAction(b) && StreamSize(b) == size
  {
    U32Holds(b, 0, size);
    HoldsByte(b, 0, BE32(size), 0);
  }

  /** Chunked transfer: a buffer whose header holds its size goes over the
      wire whole when every send is whole; the receiver recognises the header,
      and full reads rebuild the buffer, header included. */
  lemma TransferWhole(from: Channel, b: bytes, size: nat, cmd: bytes, to: Channel, out: bytes)
    requires 4 <= size <= |b| && size < 0x4000_0000 && Holds(b, 0, BE32(size)) && StreamSize(b) <= |b|
    requires from.connected && from.sent == [] && WholeChunks(from.outcomes, size) == size
    requires |cmd| == 4 && SendStream(from, b).c.sent == cmd + to.incoming
    requires to.connected && |out| == size && FullReads(to.outcomes, size - 4)
    ensures SendStream(from, b).count == size && SendStream(from, b).c.sent == b[..size]
    ensures !IsAction(cmd) && StreamSize(cmd) == size
    ensures var f := RecvStream(to, out, size); f.ok && f.out == b[..size] && f.c.incoming == []
  {
    hide RecvFrom, SendFrom, StreamSize, FullReads, WholeChunks, Put;
    SizeHeader(b, size);
    SendFromSends(from, b, 0, size, 0);
    assert cmd + to.incoming == b[..size];
    assert cmd == (cmd + to.incoming)[..4] && b[..size][..4] == b[..4];
    assert cmd[0..4] == cmd;
    SizeHeader(cmd, size);
    RecvFromFull(to, Put(out, 0, BE32(size)), 4, size - 4);
    assert to.incoming[..size - 4] == to.incoming;
    PutPut(out, 0, BE32(size), to.incoming);
    PutAll(out, BE32(size) + to.incoming);
  }

  lemma PutAll(m: bytes, b: bytes)
    requires |m| == |b|
    ensures Put(m, 0, b) == b
  {
  }
}
