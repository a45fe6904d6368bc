/** The remote side: one update receives an action or a request stream, lets
    the plugin answer, and sends the answer back. */
module Remote {
  import opened Bytes
  import opened Format
  import opened BinaryWriter
  import opened BinaryReader
  import opened Events
  import opened Transfer

  datatype Incoming = Incoming(c: Channel, action: int, stream: bytes)

  // recvStream's own buffer before anything arrives.
  function Unfilled(size: nat): (b: bytes)
    ensures |b| == size
  {
    seq(size, i => 0xcd)
  }

  // The header buffer: what one read delivers, over what it held before.
  function Command(c: Channel, held: bytes): bytes
    requires |held| == 4
  {
    RecvBound(c, 4);
    Put(held, 0, Recv(c, 4).data)
  }

  lemma RecvBound(c: Channel, n: nat)
    ensures |Recv(c, n).data| <= n
  {
  }

  // A stream is at least its header.
  predicate HeaderOk(c: Channel, held: bytes) {
    |held| == 4 && (Recv(c, 4).data == [] || IsAction(Command(c, held)) || StreamSize(Command(c, held)) >= 4)
  }

  function Receive(c: Channel, held: bytes): Incoming
    requires HeaderOk(c, held)
  {
    var got, cmd := Recv(c, 4), Command(c, held);
    if got.data == [] then Incoming(got.c, 0, [])
    else if IsAction(cmd) then Incoming(got.c, ActionCode(cmd), [])
    else
      var size := StreamSize(cmd);
      var f := RecvStream(got.c, Unfilled(size), size);
      if f.ok then Incoming(f.c, 0, f.out) else Incoming(f.c, 0, [])
  }

  // Sends a finalised writer's stream, if it holds more than the header and
  // there is a peer.
  function Reply(c: Channel, w: State): Channel
    requires Valid(w) && StreamSize(w.mem) <= |w.mem|
  {
    if GetSize(w) > 4 && c.connected then SendStream(c, w.mem).c else c
  }

  lemma FinalSize(w: State)
    requires Valid(w)
    ensures StreamSize(Finalize(w).mem) == w.data && Holds(Finalize(w).mem, 0, BE32(w.data))
  {
    hide Put, StreamSize;
    PutHolds(w.mem, 0, BE32(GetSize(w) + 4));
    SizeHeader(Finalize(w).mem, w.data);
  }

  /** A reply goes out exactly when the plugin wrote at least one event. */
  lemma RepliesIffEvents(w: State, calls: seq<Call>)
    requires Complete(w, calls)
    ensures GetSize(Finalize(Run(w, calls))) > 4 <==> Written(w, calls) != []
  {
    hide EncEvent, Run, AtEvent, Concat;
    WholeStream(w, calls, GetSize(Run(w, calls)));
    var events := Written(w, calls);
    NoEvents();
    if events != [] {
      SomeBytes(events);
    }
  }

  lemma SomeBytes(events: seq<Event>)
    requires events != []
    ensures |EncEvents(events)| >= 7
  {
    hide EncEvent, EncEvents, EncItems, Concat;
    var n := |events| - 1;
    EncEventsSnoc(events[..n], events[n]);
    assert events == events[..n] + [events[n]];
  }

  // An empty read, an action, and the first four bytes of a stream.
  predicate Delivers(c: Channel, cmd: bytes) {
    c.connected && c.outcomes != [] && c.outcomes[0] >= 4 && |cmd| == 4 && cmd <= c.incoming
  }

  /** What one update is handed: the 16-bit action code when the top bit is set, and
      then no stream; the stream, or none when it is lost, and then no action; and
      neither when nothing arrives. */
  lemma ReceivesExactly(c: Channel, held: bytes, cmd: bytes)
    requires HeaderOk(c, held)
    ensures Recv(c, 4).data == [] ==> Receive(c, held) == Incoming(Recv(c, 4).c, 0, [])
    ensures Delivers(c, cmd) && cmd[0] >= 128 ==>
              var lo: int, hi: int := cmd[3], cmd[2];
              && Receive(c, held).action == 256 * hi + lo && Receive(c, held).stream == []
              && Receive(c, held).c.incoming == c.incoming[4..]
    ensures Delivers(c, cmd) && cmd[0] < 128 ==>
              var size := StreamSize(cmd);
              && size >= 4 && Receive(c, held).action == 0
              && var f := RecvStream(Recv(c, 4).c, Unfilled(size), size);
                 Receive(c, held) == Incoming(f.c, 0, if f.ok then f.out else [])
  {
    hide RecvStream, StreamSize;
    if Delivers(c, cmd) {
      RecvFullChunk(c, 4);
      PutAll(held, cmd);
      assert c.incoming[..4] == cmd;
    }
  }

  /** The answer goes out if there is a peer and the plugin wrote an event, and
      otherwise nothing does. */
  lemma RepliesExactly(c: Channel, w: State, calls: seq<Call>)
    requires Complete(w, calls) && StreamSize(Finalize(Run(w, calls)).mem) <= CAPACITY
    ensures var done := Finalize(Run(w, calls));
            Reply(c, done) == if c.connected && Written(w, calls) != [] then SendStream(c, done.mem).c else c
  {
    hide Run, Finalize, SendStream, StreamSize, Written;
    RepliesIffEvents(w, calls);
  }

  /** From one writer to the other side's plugin: the events of any complete
      run, sent whole and read in full, are the events the remote reader stands
      before. */
  lemma EndToEnd(w: State, calls: seq<Call>, from: Channel, to: Channel, held: bytes)
    requires Complete(w, calls) && Written(w, calls) != []
    requires StreamSize(Finalize(Run(w, calls)).mem) <= CAPACITY
    requires from.connected && from.sent == [] && WholeChunks(from.outcomes, Run(w, calls).data) == Run(w, calls).data
    requires to.connected && to.incoming == Reply(from, Finalize(Run(w, calls))).sent
    requires to.outcomes != [] && to.outcomes[0] >= 4 && FullReads(to.outcomes[1..], Run(w, calls).data - 4)
    requires |held| == 4
    ensures HeaderOk(to, held)
    ensures var got := Receive(to, held);
            && got.action == 0 && |got.stream| == Run(w, calls).data && got.c.incoming == []
            && AtEvent(got.stream, InitStream(|got.stream|), Written(w, calls), 0)
  {
    hide Run, AtEvent, StreamSize, IsAction, WholeChunks, FullReads, SendFrom, RecvFrom, Recv, RecvStream;
    var w1 := Run(w, calls);
    var b, size := Finalize(w1).mem, w1.data;
    FinalSize(w1);
    RepliesIffEvents(w, calls);
    SendFromSends(from, b, 0, size, 0);
    var to1 := to.(incoming := to.incoming[4..], outcomes := to.outcomes[1..]);
    RecvFullChunk(to, 4);
    PutAll(held, to.incoming[..4]);
    TransferWhole(from, b, size, to.incoming[..4], to1, Unfilled(size));
    WholeStream(w, calls, size);
    PrefixReads(b, size, Written(w, calls));
  }

  // The part of the buffer in use is all a reader needs.
  lemma PrefixReads(m: bytes, size: nat, events: seq<Event>)
    requires size == End(events) <= |m| && AtEvent(m, InitStream(size), events, 0)
    ensures AtEvent(m[..size], InitStream(size), events, 0)
  {
    hide EncEvents, Good;
    assert m[..size][HEADER..size] == m[HEADER..size];
  }
}
