/** The TCP test pair joined by a stream. */
module TcpEchoRun {
  import opened Wrappers
  import opened TcpEcho

  /** What travels one way: data, acknowledgements of single bytes, and the end of the stream. */
  datatype Item = Data(byte: Byte) | Ack | Fin

  /** Both sides and the two directions of the connection. `serverOwes` and `clientOwes` count bytes each
      stack has handed over but not yet acknowledged; `served` and `echoed` record every buffer written. */
  datatype System = System(
    server: ServerState, client: ClientState, toClient: seq<Item>, toServer: seq<Item>,
    serverOwes: nat, clientOwes: nat, served: seq<Buffer>, echoed: seq<Buffer>)

  function Acks(n: nat): (items: seq<Item>)
    ensures |items| == n && forall i :: 0 <= i < n ==> items[i] == Ack
  {
    seq(n, _ => Ack)
  }

  function Segment(bytes: seq<Byte>): (items: seq<Item>)
    ensures |items| == |bytes| && forall i :: 0 <= i < |bytes| ==> items[i] == Data(bytes[i])
  {
    seq(|bytes|, i requires 0 <= i < |bytes| => Data(bytes[i]))
  }

  predicate AllData(items: seq<Item>) {
    forall item <- items :: item.Data?
  }

  function Payload(items: seq<Item>): (bytes: seq<Byte>)
    requires AllData(items)
    ensures |bytes| == |items| && forall i :: 0 <= i < |items| ==> bytes[i] == items[i].byte
  {
    seq<Byte>(|items|, i requires 0 <= i < |items| => items[i].byte)
  }

  function CountAcks(items: seq<Item>): nat {
    if items == [] then 0 else (if items[0].Ack? then 1 else 0) + CountAcks(items[1..])
  }

  /** The stream without its first `n` acknowledgements. */
  function WithoutAcks(items: seq<Item>, n: nat): seq<Item> {
    if n == 0 || items == [] then items
    else if items[0].Ack? then WithoutAcks(items[1..], n - 1)
    else [items[0]] + WithoutAcks(items[1..], n)
  }

  datatype Move =
    | ClientData(n: nat) | ClientAcked(n: nat) | ClientFin | ClientAcks(n: nat)
    | ServerData(n: nat, random: Buffer) | ServerAcked(n: nat) | ServerFin | ServerAcks(n: nat)

  /** Data arrives in order, in pieces of any size, and never before an acknowledgement sent ahead of it;
      an acknowledgement may overtake data sent before it. */
  predicate Enabled(s: System, v: Move) {
    match v
    case ClientData(n) => 0 < n <= |s.toClient| && AllData(s.toClient[..n])
    case ServerData(n, _) => 0 < n <= |s.toServer| && AllData(s.toServer[..n])
    case ClientAcked(n) => 0 < n <= CountAcks(s.toClient)
    case ServerAcked(n) => 0 < n <= CountAcks(s.toServer)
    case ClientFin => s.toClient != [] && s.toClient[0] == Fin
    case ServerFin => s.toServer != [] && s.toServer[0] == Fin
    case ClientAcks(n) => 0 < n <= s.clientOwes
    case ServerAcks(n) => 0 < n <= s.serverOwes
  }

  /** A write, or the end of a test, carries the acknowledgements owed. */
  function ServerOut(s: System, server: ServerState, written: Option<Buffer>): System {
    if server.complete && !s.server.complete then
      s.(server := server, toClient := s.toClient + Acks(s.serverOwes) + [Fin], serverOwes := 0)
    else if written.Some? then
      s.(server := server, toClient := s.toClient + Acks(s.serverOwes) + Segment(written.value), serverOwes := 0,
         served := s.served + [written.value])
    else
      s.(server := server)
  }

  function ClientOut(s: System, client: ClientState, written: Option<Buffer>): System {
    if client.complete && !s.client.complete then
      s.(client := client, toServer := s.toServer + Acks(s.clientOwes) + [Fin], clientOwes := 0)
    else if written.Some? then
      s.(client := client, toServer := s.toServer + Acks(s.clientOwes) + Segment(written.value), clientOwes := 0,
         echoed := s.echoed + [written.value])
    else
      s.(client := client)
  }

  /** Whether there is room for what arrives, in the buffers as the two sides index them. */
  predicate InBounds(s: System) {
    s.server.recvLen <= BUF_SIZE && s.client.bufferLen <= BUF_SIZE
  }

  /** A side whose test is over has withdrawn its callbacks. */
  function Next(s: System, v: Move): (next: System)
    requires Enabled(s, v) && InBounds(s)
    ensures InBounds(next)
  {
    match v
    case ClientData(n) =>
      var (client, written) :=
        if s.client.complete then (s.client, None) else ClientRecv(s.client, Some(Payload(s.toClient[..n])), true);
      ClientOut(s.(toClient := s.toClient[n..], clientOwes := s.clientOwes + n), client, written)
    case ServerData(n, random) =>
      var (server, written) :=
        if s.server.complete then (s.server, None)
        else ServerRecv(s.server, Some(Payload(s.toServer[..n])), random, true);
      ServerOut(s.(toServer := s.toServer[n..], serverOwes := s.serverOwes + n), server, written)
    case ClientAcked(n) =>
      ClientOut(s.(toClient := WithoutAcks(s.toClient, n)),
                if s.client.complete then s.client else ClientSent(s.client, n), None)
    case ServerAcked(n) =>
      ServerOut(s.(toServer := WithoutAcks(s.toServer, n)),
                if s.server.complete then s.server else ServerSent(s.server, n), None)
    case ClientFin =>
      ClientOut(s.(toClient := s.toClient[1..]),
                if s.client.complete then s.client else ClientRecv(s.client, None, true).0, None)
    case ServerFin =>
      ServerOut(s.(toServer := s.toServer[1..]),
                if s.server.complete then s.server else ServerRecv(s.server, None, s.server.sent, true).0, None)
    case ClientAcks(n) => s.(toServer := s.toServer + Acks(n), clientOwes := s.clientOwes - n)
    case ServerAcks(n) => s.(toClient := s.toClient + Acks(n), serverOwes := s.serverOwes - n)
  }

  /** The connection is up and the server has written its first buffer. */
  predicate Begun(s: System) {
    && s.server.sentLen == s.server.recvLen == s.server.runs == 0 && !s.server.complete
    && s.client.bufferLen == s.client.sentLen == s.client.runs == 0 && !s.client.complete
    && s.toClient == Segment(s.server.sent) && s.toServer == [] && s.serverOwes == s.clientOwes == 0
    && s.served == [s.server.sent] && s.echoed == []
  }

  // ----- What every run keeps

  /** Everything served but the last buffer has come back. */
  predicate Tally(s: System, echoes: nat) {
    && |s.served| == s.server.runs + 1 && s.served[s.server.runs] == s.server.sent
    && echoes <= |s.served| && s.echoed == s.served[..echoes]
  }

  /** What the server's receive counter shows before the acknowledgements of its buffer are all in. */
  predicate Stale(server: ServerState) {
    server.recvLen == if server.runs > 0 then BUF_SIZE else 0
  }

  /** The client has not yet had all acknowledgements of its last echo, `a` being on their way before the
      next buffer. */
  predicate Turning(s: System, a: nat) {
    && 0 < a <= BUF_SIZE && 0 < s.server.runs && s.server.sentLen == 0 && Stale(s.server)
    && s.client.runs == s.server.runs - 1 && s.client.sentLen == BUF_SIZE - a && s.client.bufferLen == BUF_SIZE
    && s.toClient == Acks(a) + Segment(s.server.sent) && s.toServer == [] && s.serverOwes == s.clientOwes == 0
    && Tally(s, s.server.runs)
  }

  /** The buffer is on its way to the client, which has stored the first `d` bytes. */
  predicate Down(s: System, d: nat) {
    && d < BUF_SIZE && Stale(s.server) && s.client.runs == s.server.runs && s.client.sentLen == 0
    && s.client.bufferLen == d && s.client.buffer[..d] == s.server.sent[..d]
    && s.toClient == Segment(s.server.sent[d..]) && s.serverOwes == 0
    && |s.toServer| <= BUF_SIZE && s.toServer == Acks(|s.toServer|)
    && s.server.sentLen + |s.toServer| + s.clientOwes == d
    && Tally(s, s.server.runs)
  }

  /** The echo is on its way back behind `b` acknowledgements; the server has stored `u` bytes. */
  predicate Up(s: System, b: nat, u: nat) {
    && b <= BUF_SIZE && u < BUF_SIZE && (b > 0 ==> u == 0)
    && s.client.runs == s.server.runs && s.client.bufferLen == BUF_SIZE && s.client.buffer == s.server.sent
    && s.server.sentLen == BUF_SIZE - b
    && (if b > 0 then Stale(s.server) else s.server.recvLen == u && s.server.recv[..u] == s.server.sent[..u])
    && s.toServer == Acks(b) + Segment(s.server.sent[u..]) && s.clientOwes == 0
    && s.toClient == Acks(|s.toClient|) && s.client.sentLen + |s.toClient| + s.serverOwes == u
    && Tally(s, s.server.runs + 1)
  }

  /** The server's test is over; `a` acknowledgements of the last echo are still on their way. */
  predicate Parting(s: System, a: nat) {
    && 0 < a <= BUF_SIZE && s.server.complete && s.server.result == 0 && !s.client.complete
    && s.client.runs == TEST_ITERATIONS - 1 && s.client.sentLen == BUF_SIZE - a
    && s.toClient == Acks(a) + [Fin] && s.toServer == [] && s.serverOwes == s.clientOwes == 0
  }

  /** Both tests are over. */
  predicate Parted(s: System) {
    && s.server.complete && s.server.result == 0 && s.client.complete && s.client.result == 0
    && (s.toClient == [] || s.toClient == [Fin]) && (s.toServer == [] || s.toServer == [Fin])
    && s.serverOwes == s.clientOwes == 0
  }

  ghost predicate Sound(s: System) {
    && InBounds(s)
    && if s.server.complete then
         |s.served| == TEST_ITERATIONS && s.echoed == s.served && (Parted(s) || exists a :: Parting(s, a))
       else
         && !s.client.complete && s.server.runs < TEST_ITERATIONS && |s.served| == s.server.runs + 1
         && ((exists a :: Turning(s, a)) || (exists d :: Down(s, d)) || (exists b, u :: Up(s, b, u)))
  }

  // ----- The channels

  lemma AcksShift(a: nat, rest: seq<Item>)
    requires a > 0
    ensures (Acks(a) + rest)[0] == Ack && (Acks(a) + rest)[1..] == Acks(a - 1) + rest
  {
  }

  lemma {:induction false} AcksTaken(a: nat, rest: seq<Item>, n: nat)
    requires n <= a
    ensures WithoutAcks(Acks(a) + rest, n) == Acks(a - n) + rest
  {
    if n > 0 {
      AcksShift(a, rest);
      AcksTaken(a - 1, rest, n - 1);
    }
  }

  lemma {:induction false} AcksCounted(a: nat, rest: seq<Item>)
    ensures CountAcks(Acks(a) + rest) == a + CountAcks(rest)
  {
    if a == 0 {
      assert Acks(0) + rest == rest;
    } else {
      AcksShift(a, rest);
      AcksCounted(a - 1, rest);
    }
  }

  lemma {:induction false} NoAcksInSegment(bytes: seq<Byte>)
    ensures CountAcks(Segment(bytes)) == 0
  {
    if bytes != [] {
      assert Segment(bytes)[1..] == Segment(bytes[1..]);
      NoAcksInSegment(bytes[1..]);
    }
  }

  lemma AcksJoin(a: nat, b: nat)
    ensures Acks(a) + Acks(b) == Acks(a + b)
  {
  }

  lemma OnlyAcks(a: nat)
    ensures Acks(a) + [] == Acks(a) && CountAcks(Acks(a)) == a
    ensures forall n :: 0 <= n <= a ==> WithoutAcks(Acks(a), n) == Acks(a - n)
  {
    assert Acks(a) + [] == Acks(a);
    AcksCounted(a, []);
    forall n | 0 <= n <= a ensures WithoutAcks(Acks(a), n) == Acks(a - n) {
      AcksTaken(a, [], n);
      assert Acks(a - n) + [] == Acks(a - n);
    }
  }

  lemma SegmentTaken(bytes: seq<Byte>, n: nat)
    requires n <= |bytes|
    ensures AllData(Segment(bytes)[..n]) && Payload(Segment(bytes)[..n]) == bytes[..n]
    ensures Segment(bytes)[n..] == Segment(bytes[n..])
  {
  }

  /** Storing the next piece of a buffer. */
  lemma FilledNext(mine: Buffer, whole: Buffer, at: nat, n: nat)
    requires at + n <= BUF_SIZE && mine[..at] == whole[..at]
    ensures Filled(mine, at, whole[at..at + n])[..at + n] == whole[..at + n]
  {
    var m := Filled(mine, at, whole[at..at + n]);
    assert m[..at + n] == mine[..at] + whole[at..at + n];
  }

  // ----- Each phase

  lemma NotLeading(items: seq<Item>)
    requires items == [] || !items[0].Data?
    ensures forall n | 0 < n <= |items| :: !AllData(items[..n])
  {
    forall n | 0 < n <= |items| ensures !AllData(items[..n]) {
      assert items[..n][0] == items[0];
    }
  }

  lemma TurningMoves(s: System, a: nat, v: Move)
    requires Turning(s, a) && Enabled(s, v)
    ensures v.ClientAcked? && v.n <= a
  {
    AcksCounted(a, Segment(s.server.sent));
    NoAcksInSegment(s.server.sent);
    assert CountAcks([]) == 0;
    NotLeading(s.toClient);
  }

  lemma ClientAckedEffect(s: System, n: nat)
    requires Enabled(s, ClientAcked(n)) && InBounds(s) && !s.client.complete && !ClientSent(s.client, n).complete
    ensures Next(s, ClientAcked(n)) == s.(toClient := WithoutAcks(s.toClient, n), client := ClientSent(s.client, n))
  {
    hide WithoutAcks, CountAcks, ClientSent;
  }

  lemma TurningKeeps(s: System, a: nat, n: nat)
    requires Turning(s, a) && 0 < n <= a && Enabled(s, ClientAcked(n)) && InBounds(s)
    requires !s.client.complete && s.server.runs < TEST_ITERATIONS
    ensures var s' := Next(s, ClientAcked(n)); if n < a then Turning(s', a - n) else Down(s', 0)
  {
    hide Next, Enabled, WithoutAcks, CountAcks, Tally;
    AcksTaken(a, Segment(s.server.sent), n);
    ClientAckedEffect(s, n);
    assert Acks(0) + Segment(s.server.sent) == Segment(s.server.sent);
    assert s.server.sent[0..] == s.server.sent;
    SameTally(s, Next(s, ClientAcked(n)), s.server.runs);
  }

  lemma SameTally(s: System, s': System, echoes: nat)
    requires Tally(s, echoes) && s'.served == s.served && s'.echoed == s.echoed
    requires s'.server.sent == s.server.sent && s'.server.runs == s.server.runs
    ensures Tally(s', echoes)
  {
  }

  lemma DownMoves(s: System, d: nat, v: Move)
    requires Down(s, d) && Enabled(s, v)
    ensures v.ClientData? || v.ServerAcked? || v.ClientAcks?
  {
    hide Tally, Stale;
    NoAcksInSegment(s.server.sent[d..]);
    NotLeading(s.toServer);
  }

  /** What the client makes of the next `n` bytes of a buffer. */
  lemma ClientDataEffect(s: System, d: nat, n: nat)
    requires Down(s, d) && Enabled(s, ClientData(n)) && InBounds(s) && !s.client.complete
    ensures d + n <= BUF_SIZE
    ensures var buffer := Filled(s.client.buffer, d, s.server.sent[d..d + n]);
            var client := s.client.(buffer := buffer, bufferLen := d + n);
            && buffer[..d + n] == s.server.sent[..d + n]
            && Next(s, ClientData(n)) ==
               if d + n < BUF_SIZE then
                 s.(client := client, toClient := Segment(s.server.sent[d + n..]), clientOwes := s.clientOwes + n)
               else
                 s.(client := client, toClient := Segment(s.server.sent[d + n..]), clientOwes := 0,
                    toServer := s.toServer + Acks(s.clientOwes + n) + Segment(buffer), echoed := s.echoed + [buffer])
  {
    hide Tally, Stale, Filled;
    SegmentTaken(s.server.sent[d..], n);
    FilledNext(s.client.buffer, s.server.sent, d, n);
    assert s.server.sent[d..][..n] == s.server.sent[d..d + n];
    assert s.server.sent[d..][n..] == s.server.sent[d + n..];
  }

  lemma DownData(s: System, d: nat, n: nat)
    requires Down(s, d) && Enabled(s, ClientData(n)) && InBounds(s) && !s.client.complete
    ensures d + n <= BUF_SIZE
    ensures var s' := Next(s, ClientData(n));
            if d + n < BUF_SIZE then Down(s', d + n) else Up(s', |s.toServer| + s.clientOwes + n, 0)
  {
    hide Next, Enabled, Tally;
    ClientDataEffect(s, d, n);
    hide Filled;
    var s' := Next(s, ClientData(n));
    if d + n < BUF_SIZE {
      SameTally(s, s', s.server.runs);
    } else {
      var buffer := s'.client.buffer;
      assert buffer == buffer[..d + n] == s.server.sent;
      assert s.server.sent[0..] == s.server.sent && s.server.sent[d + n..] == [];
      AcksJoin(|s.toServer|, s.clientOwes + n);
      EchoTally(s, s');
    }
  }

  lemma EchoTally(s: System, s': System)
    requires Tally(s, s.server.runs)
    requires s'.served == s.served && s'.server == s.server && s'.echoed == s.echoed + [s.server.sent]
    ensures Tally(s', s.server.runs + 1)
  {
  }

  lemma DownAcked(s: System, d: nat, n: nat)
    requires Down(s, d) && Enabled(s, ServerAcked(n)) && InBounds(s) && !s.server.complete
    ensures Down(Next(s, ServerAcked(n)), d)
  {
    OnlyAcks(|s.toServer|);
    hide CountAcks, WithoutAcks;
    assert Next(s, ServerAcked(n))
        == s.(toServer := Acks(|s.toServer| - n), server := s.server.(sentLen := s.server.sentLen + n));
    hide Next, Tally;
    SameTally(s, Next(s, ServerAcked(n)), s.server.runs);
  }

  lemma DownOwes(s: System, d: nat, n: nat)
    requires Down(s, d) && Enabled(s, ClientAcks(n)) && InBounds(s)
    ensures Down(Next(s, ClientAcks(n)), d)
  {
    AcksJoin(|s.toServer|, n);
    hide Tally;
    SameTally(s, Next(s, ClientAcks(n)), s.server.runs);
  }

  // ----- The way back

  lemma UpMoves(s: System, b: nat, u: nat, v: Move)
    requires Up(s, b, u) && Enabled(s, v)
    ensures v.ClientAcked? || v.ServerAcked? || v.ServerAcks? || (v.ServerData? && b == 0)
    ensures v.ServerAcked? ==> v.n <= b
  {
    hide Tally, Stale;
    var echo := Segment(s.server.sent[u..]);
    NoAcksInSegment(s.server.sent[u..]);
    AcksCounted(b, echo);
    if b > 0 {
      assert (Acks(b) + echo)[0] == Ack;
      NotLeading(s.toServer);
    } else {
      assert Acks(0) + echo == echo;
    }
    NotLeading(s.toClient);
  }

  lemma UpClientAcked(s: System, b: nat, u: nat, n: nat)
    requires Up(s, b, u) && Enabled(s, ClientAcked(n)) && InBounds(s) && !s.client.complete
    ensures Up(Next(s, ClientAcked(n)), b, u)
  {
    OnlyAcks(|s.toClient|);
    hide CountAcks, WithoutAcks;
    ClientAckedEffect(s, n);
    hide Next, Tally;
    SameTally(s, Next(s, ClientAcked(n)), s.server.runs + 1);
  }

  lemma UpServerAcks(s: System, b: nat, u: nat, n: nat)
    requires Up(s, b, u) && Enabled(s, ServerAcks(n)) && InBounds(s)
    ensures Up(Next(s, ServerAcks(n)), b, u)
  {
    AcksJoin(|s.toClient|, n);
    hide Tally;
    SameTally(s, Next(s, ServerAcks(n)), s.server.runs + 1);
  }

  lemma ServerAckedEffect(s: System, n: nat)
    requires Enabled(s, ServerAcked(n)) && InBounds(s) && !s.server.complete
    ensures Next(s, ServerAcked(n)) == s.(toServer := WithoutAcks(s.toServer, n), server := ServerSent(s.server, n))
  {
    hide WithoutAcks, CountAcks;
  }

  lemma UpServerAcked(s: System, b: nat, u: nat, n: nat)
    requires Up(s, b, u) && 0 < n <= b && Enabled(s, ServerAcked(n)) && InBounds(s) && !s.server.complete
    ensures Up(Next(s, ServerAcked(n)), b - n, u)
  {
    hide CountAcks, WithoutAcks, Next, Tally;
    AcksTaken(b, Segment(s.server.sent[u..]), n);
    ServerAckedEffect(s, n);
    SameTally(s, Next(s, ServerAcked(n)), s.server.runs + 1);
  }

  /** What the server makes of the next `n` bytes of the echo. */
  lemma ServerDataEffect(s: System, u: nat, n: nat, random: Buffer)
    requires Up(s, 0, u) && Enabled(s, ServerData(n, random)) && InBounds(s) && !s.server.complete
    ensures u + n <= BUF_SIZE
    ensures var recv := Filled(s.server.recv, u, s.server.sent[u..u + n]);
            var (server, written) := ServerRecv(s.server, Some(s.server.sent[u..u + n]), random, true);
            && recv[..u + n] == s.server.sent[..u + n]
            && Next(s, ServerData(n, random)) ==
               ServerOut(s.(toServer := Segment(s.server.sent[u + n..]), serverOwes := s.serverOwes + n),
                         server, written)
  {
    hide Tally, Stale, Filled;
    var echo := s.server.sent[u..];
    assert Acks(0) + Segment(echo) == Segment(echo);
    SegmentTaken(echo, n);
    FilledNext(s.server.recv, s.server.sent, u, n);
    assert echo[..n] == s.server.sent[u..u + n];
    assert echo[n..] == s.server.sent[u + n..];
  }

  lemma UpDataMore(s: System, u: nat, n: nat, random: Buffer)
    requires Up(s, 0, u) && Enabled(s, ServerData(n, random)) && InBounds(s) && !s.server.complete
    requires u + n < BUF_SIZE
    ensures Up(Next(s, ServerData(n, random)), 0, u + n)
  {
    hide Next, Enabled, Tally;
    ServerDataEffect(s, u, n, random);
    hide Filled;
    var s' := Next(s, ServerData(n, random));
    assert Acks(0) + Segment(s.server.sent[u + n..]) == Segment(s.server.sent[u + n..]);
    SameTally(s, s', s.server.runs + 1);
  }

  /** The last piece: the comparison succeeds, and a new buffer goes out or the test ends well. */
  lemma ServerRoundEffect(s: System, u: nat, n: nat, random: Buffer)
    requires Up(s, 0, u) && Enabled(s, ServerData(n, random)) && InBounds(s) && !s.server.complete
    requires u + n == BUF_SIZE
    ensures var s' := Next(s, ServerData(n, random));
            var received := s.server.(recv := s.server.sent, recvLen := BUF_SIZE, runs := s.server.runs + 1);
            var settled := s.(toServer := [], serverOwes := 0);
            && (s.server.runs + 1 < TEST_ITERATIONS ==>
                s' == settled.(server := received.(sent := random, sentLen := 0), served := s.served + [random],
                               toClient := s.toClient + Acks(s.serverOwes + n) + Segment(random)))
            && (s.server.runs + 1 >= TEST_ITERATIONS ==>
                s' == settled.(server := ServerEnds(received, 0),
                               toClient := s.toClient + Acks(s.serverOwes + n) + [Fin]))
  {
    hide Next, Enabled, Tally, Stale;
    ServerDataEffect(s, u, n, random);
    var recv := Filled(s.server.recv, u, s.server.sent[u..u + n]);
    hide Filled;
    assert recv == recv[..u + n] == s.server.sent[..u + n] == s.server.sent;
    assert s.server.sent[u + n..] == [];
  }

  lemma UpDataLast(s: System, u: nat, n: nat, random: Buffer)
    requires Up(s, 0, u) && Enabled(s, ServerData(n, random)) && InBounds(s) && !s.server.complete && !s.client.complete
    requires u + n == BUF_SIZE && s.server.runs < TEST_ITERATIONS
    ensures var s', a := Next(s, ServerData(n, random)), BUF_SIZE - s.client.sentLen;
            if s.server.runs + 1 < TEST_ITERATIONS then Turning(s', a) && !s'.server.complete
            else Parting(s', a) && |s'.served| == TEST_ITERATIONS && s'.echoed == s'.served
  {
    hide Next, Enabled;
    ServerRoundEffect(s, u, n, random);
    AcksJoin(|s.toClient|, s.serverOwes + n);
  }

  // ----- The end of the test

  lemma PartingMoves(s: System, a: nat, v: Move)
    requires Parting(s, a) && Enabled(s, v)
    ensures v.ClientAcked? && 0 < v.n <= a
  {
    AcksCounted(a, [Fin]);
    assert CountAcks([Fin]) == 0 && CountAcks([]) == 0;
    assert s.toClient[0] == Ack;
    NotLeading(s.toClient);
  }

  lemma PartingKeeps(s: System, a: nat, n: nat)
    requires Parting(s, a) && 0 < n <= a && Enabled(s, ClientAcked(n)) && InBounds(s)
    ensures var s' := Next(s, ClientAcked(n));
            && s'.server.complete && s'.served == s.served && s'.echoed == s.echoed && InBounds(s')
            && if n < a then Parting(s', a - n) else Parted(s')
  {
    AcksTaken(a, [Fin], n);
    hide CountAcks, WithoutAcks;
    assert Acks(0) + [Fin] == [Fin] && [] + Acks(0) + [Fin] == [Fin];
  }

  lemma PartedKeeps(s: System, v: Move)
    requires Parted(s) && Enabled(s, v) && InBounds(s)
    ensures var s' := Next(s, v); Parted(s') && s'.served == s.served && s'.echoed == s.echoed && InBounds(s')
  {
    assert CountAcks([Fin]) == 0 && CountAcks([]) == 0;
    match v
    case ClientData(_) => NotLeading(s.toClient);
    case ServerData(_, _) => NotLeading(s.toServer);
    case _ =>
  }

  // ----- Every move, every run

  lemma DownKeeps(s: System, d: nat, v: Move)
    requires Sound(s) && !s.server.complete && Down(s, d) && Enabled(s, v)
    ensures Sound(Next(s, v)) && !Next(s, v).server.complete
  {
    DownMoves(s, d, v);
    match v
    case ClientData(n) => DownData(s, d, n); hide Tally, Filled; ClientDataEffect(s, d, n);
    case ServerAcked(n) => DownAcked(s, d, n); ServerAckedEffect(s, n);
    case ClientAcks(n) => DownOwes(s, d, n);
    case _ =>
  }

  lemma UpDataKeeps(s: System, u: nat, n: nat, random: Buffer)
    requires Sound(s) && !s.server.complete && Up(s, 0, u) && Enabled(s, ServerData(n, random))
    ensures Sound(Next(s, ServerData(n, random))) && u + n <= BUF_SIZE
  {
    hide Next, Enabled, Tally, Turning, Down, Parting, Stale;
    ServerDataEffect(s, u, n, random);
    if u + n < BUF_SIZE {
      UpDataMore(s, u, n, random);
    } else {
      UpDataLast(s, u, n, random);
      ServerRoundEffect(s, u, n, random);
    }
    hide Filled;
  }

  lemma UpAckKeeps(s: System, b: nat, u: nat, v: Move)
    requires Sound(s) && !s.server.complete && Up(s, b, u) && Enabled(s, v) && !v.ServerData?
    ensures Sound(Next(s, v)) && !Next(s, v).server.complete
  {
    UpMoves(s, b, u, v);
    match v
    case ClientAcked(n) => UpClientAcked(s, b, u, n); OnlyAcks(|s.toClient|); ClientAckedEffect(s, n);
    case ServerAcked(n) => UpServerAcked(s, b, u, n); ServerAckedEffect(s, n);
    case ServerAcks(n) => UpServerAcks(s, b, u, n);
    case _ =>
  }

  lemma TurningMoveKeeps(s: System, a: nat, v: Move)
    requires Sound(s) && !s.server.complete && Turning(s, a) && Enabled(s, v)
    ensures Sound(Next(s, v)) && !Next(s, v).server.complete
  {
    TurningMoves(s, a, v);
    TurningKeeps(s, a, v.n);
    ClientAckedEffect(s, v.n);
  }

  lemma MoveKeeps(s: System, v: Move)
    requires Sound(s) && Enabled(s, v)
    ensures Sound(Next(s, v))
  {
    hide Next, Enabled, Turning, Down, Up, Parting, Parted;
    if s.server.complete {
      if Parted(s) {
        PartedKeeps(s, v);
        PartedComplete(Next(s, v));
      } else {
        var a: nat :| Parting(s, a);
        PartingMoves(s, a, v);
        PartingKeeps(s, a, v.n);
      }
    } else if exists a :: Turning(s, a) {
      var a: nat :| Turning(s, a);
      TurningMoveKeeps(s, a, v);
    } else if exists d :: Down(s, d) {
      var d: nat :| Down(s, d);
      DownKeeps(s, d, v);
    } else {
      var b: nat, u: nat :| Up(s, b, u);
      if v.ServerData? {
        UpMoves(s, b, u, v);
        UpDataKeeps(s, u, v.n, v.random);
      } else {
        UpAckKeeps(s, b, u, v);
      }
    }
  }

  lemma PartedComplete(s: System)
    ensures Parted(s) ==> s.server.complete
  {
  }

  lemma BegunSound(s: System)
    requires Begun(s)
    ensures Sound(s)
  {
    assert s.server.sent[0..] == s.server.sent;
    assert Down(s, 0);
  }

  predicate Allowed(s: System, moves: seq<Move>)
    requires InBounds(s)
    decreases |moves|
  {
    moves != [] ==> Enabled(s, moves[0]) && Allowed(Next(s, moves[0]), moves[1..])
  }

  function After(s: System, moves: seq<Move>): System
    requires InBounds(s) && Allowed(s, moves)
    decreases |moves|
  {
    if moves == [] then s else After(Next(s, moves[0]), moves[1..])
  }

  lemma {:induction false} RunSound(s: System, moves: seq<Move>)
    requires Sound(s) && Allowed(s, moves)
    ensures Sound(After(s, moves))
    decreases |moves|
  {
    hide Turning, Down, Up, Parting, Parted, Enabled;
    if moves != [] {
      MoveKeeps(s, moves[0]);
      RunSound(Next(s, moves[0]), moves[1..]);
    }
  }

  /** In every run, with any fragmentation and any timing of acknowledgements: neither test ever fails, every
      echo is the buffer it answers, at most one is outstanding, and once the server is done all ten
      have been compared and echoed. */
  lemma Verdict(start: System, moves: seq<Move>)
    requires Begun(start) && Allowed(start, moves)
    ensures var s := After(start, moves);
            && (s.server.complete ==> s.server.result == 0 && |s.served| == TEST_ITERATIONS && s.echoed == s.served)
            && (s.client.complete ==> s.client.result == 0 && s.server.complete)
            && s.echoed <= s.served && |s.served| <= |s.echoed| + 1 && |s.served| <= TEST_ITERATIONS
  {
    BegunSound(start);
    RunSound(start, moves);
    SoundVerdict(After(start, moves));
  }

  lemma SoundVerdict(s: System)
    requires Sound(s)
    ensures s.server.complete ==> s.server.result == 0 && |s.served| == TEST_ITERATIONS && s.echoed == s.served
    ensures s.client.complete ==> s.client.result == 0 && s.server.complete
    ensures s.echoed <= s.served && |s.served| <= |s.echoed| + 1 && |s.served| <= TEST_ITERATIONS
  {
    hide Stale;
  }

  /** No byte that arrives is cut off for want of room, and none arrives at a side that is done. */
  lemma NothingDropped(start: System, moves: seq<Move>, v: Move)
    requires Begun(start) && Allowed(start, moves) && Enabled(After(start, moves), v)
    ensures var s := After(start, moves);
            && (v.ClientData? ==> !s.client.complete && v.n <= BUF_SIZE - s.client.bufferLen)
            && (v.ServerData? ==> !s.server.complete && v.n <= BUF_SIZE - s.server.recvLen)
  {
    BegunSound(start);
    RunSound(start, moves);
    SoundRoom(After(start, moves), v);
  }

  lemma SoundRoom(s: System, v: Move)
    requires Sound(s) && Enabled(s, v)
    ensures v.ClientData? ==> !s.client.complete && v.n <= BUF_SIZE - s.client.bufferLen
    ensures v.ServerData? ==> !s.server.complete && v.n <= BUF_SIZE - s.server.recvLen
  {
    hide Next, Turning, Down, Up, Parting, Parted;
    if s.server.complete {
      if Parted(s) {
        PartedMoves(s, v);
      } else {
        var a: nat :| Parting(s, a);
        PartingMoves(s, a, v);
      }
    } else if exists a :: Turning(s, a) {
      var a: nat :| Turning(s, a);
      TurningMoves(s, a, v);
    } else if exists d :: Down(s, d) {
      var d: nat :| Down(s, d);
      DownMoves(s, d, v);
      if v.ClientData? { ClientDataEffect(s, d, v.n); DownLength(s, d); }
    } else {
      var b: nat, u: nat :| Up(s, b, u);
      UpMoves(s, b, u, v);
      if v.ServerData? { ServerDataEffect(s, u, v.n, v.random); UpLength(s, u); }
    }
  }

  lemma PartedMoves(s: System, v: Move)
    requires Parted(s) && Enabled(s, v)
    ensures v.ClientFin? || v.ServerFin?
  {
    assert CountAcks([Fin]) == 0 && CountAcks([]) == 0;
    match v
    case ClientData(_) => NotLeading(s.toClient);
    case ServerData(_, _) => NotLeading(s.toServer);
    case _ =>
  }

  lemma DownLength(s: System, d: nat)
    requires Down(s, d)
    ensures s.client.bufferLen == d
  {
  }

  lemma UpLength(s: System, u: nat)
    requires Up(s, 0, u)
    ensures s.server.recvLen == u
  {
  }

  // ----- Every run ends

  function Load(items: seq<Item>): nat {
    if items == [] then 0
    else Load(items[1..]) + match items[0] { case Data(_) => 3 case Ack => 1 case Fin => 1 }
  }

  /** What is still to happen: writes to come, everything on its way or owed, and the two endings. */
  function Todo(s: System): int {
    (3 * BUF_SIZE + 1) * (2 * TEST_ITERATIONS - |s.served| - |s.echoed|)
    + Load(s.toClient) + Load(s.toServer) + 2 * s.serverOwes + 2 * s.clientOwes
    + (if s.server.complete then 0 else 2) + (if s.client.complete then 0 else 2)
  }

  lemma {:induction false} LoadJoin(a: seq<Item>, b: seq<Item>)
    ensures Load(a + b) == Load(a) + Load(b)
  {
    if a == [] {
      assert a + b == b;
    } else {
      assert (a + b)[1..] == a[1..] + b;
      LoadJoin(a[1..], b);
    }
  }

  lemma {:induction false} LoadOfAcks(n: nat)
    ensures Load(Acks(n)) == n
  {
    if n > 0 {
      assert Acks(n)[1..] == Acks(n - 1);
      LoadOfAcks(n - 1);
    }
  }

  lemma {:induction false} LoadOfData(items: seq<Item>)
    requires AllData(items)
    ensures Load(items) == 3 * |items|
  {
    if items != [] {
      assert items[0] in items;
      LoadOfData(items[1..]);
    }
  }

  lemma {:induction false} LoadWithoutAcks(items: seq<Item>, n: nat)
    requires n <= CountAcks(items)
    ensures Load(WithoutAcks(items, n)) == Load(items) - n
  {
    if n > 0 {
      if items[0].Ack? {
        LoadWithoutAcks(items[1..], n - 1);
      } else {
        LoadWithoutAcks(items[1..], n);
        assert ([items[0]] + WithoutAcks(items[1..], n))[1..] == WithoutAcks(items[1..], n);
      }
    }
  }

  lemma LoadOut(channel: seq<Item>, owed: nat, tail: seq<Item>)
    ensures Load(channel + Acks(owed) + tail) == Load(channel) + owed + Load(tail)
  {
    LoadJoin(channel + Acks(owed), tail);
    LoadJoin(channel, Acks(owed));
    LoadOfAcks(owed);
  }

  lemma LoadTaken(channel: seq<Item>, n: nat)
    requires n <= |channel| && AllData(channel[..n])
    ensures Load(channel[n..]) == Load(channel) - 3 * n
  {
    assert channel == channel[..n] + channel[n..];
    LoadJoin(channel[..n], channel[n..]);
    LoadOfData(channel[..n]);
  }

  lemma LoadFin(channel: seq<Item>, owed: nat)
    ensures Load(channel + Acks(owed) + [Fin]) == Load(channel) + owed + 1
  {
    LoadOut(channel, owed, [Fin]);
    assert Load([Fin]) == 1;
  }

  lemma LoadWritten(channel: seq<Item>, owed: nat, written: Buffer)
    ensures Load(channel + Acks(owed) + Segment(written)) == Load(channel) + owed + 3 * BUF_SIZE
  {
    LoadOut(channel, owed, Segment(written));
    LoadOfData(Segment(written));
  }

  lemma ServerOutUses(s: System, server: ServerState, written: Option<Buffer>)
    requires s.server.complete ==> server.complete
    ensures Todo(ServerOut(s, server, written)) <= Todo(s)
  {
    hide Load, AllData;
    if server.complete && !s.server.complete {
      LoadFin(s.toClient, s.serverOwes);
    } else if written.Some? {
      LoadWritten(s.toClient, s.serverOwes, written.value);
    }
  }

  lemma ClientOutUses(s: System, client: ClientState, written: Option<Buffer>)
    requires s.client.complete ==> client.complete
    ensures Todo(ClientOut(s, client, written)) <= Todo(s)
  {
    hide Load, AllData;
    if client.complete && !s.client.complete {
      LoadFin(s.toServer, s.clientOwes);
    } else if written.Some? {
      LoadWritten(s.toServer, s.clientOwes, written.value);
    }
  }

  lemma FinTaken(channel: seq<Item>)
    requires channel != [] && channel[0] == Fin
    ensures Load(channel[1..]) == Load(channel) - 1
  {
  }

  lemma OwedSent(channel: seq<Item>, n: nat)
    ensures Load(channel + Acks(n)) == Load(channel) + n
  {
    LoadJoin(channel, Acks(n));
    LoadOfAcks(n);
  }

  lemma DataUses(s: System, v: Move)
    requires Enabled(s, v) && InBounds(s) && (v.ClientData? || v.ServerData?)
    ensures Todo(Next(s, v)) < Todo(s)
  {
    hide Load, ClientOut, ServerOut;
    match v
    case ClientData(n) =>
      LoadTaken(s.toClient, n);
      var (client, written) :=
        if s.client.complete then (s.client, None) else ClientRecv(s.client, Some(Payload(s.toClient[..n])), true);
      ClientOutUses(s.(toClient := s.toClient[n..], clientOwes := s.clientOwes + n), client, written);
    case ServerData(n, random) =>
      LoadTaken(s.toServer, n);
      var (server, written) :=
        if s.server.complete then (s.server, None)
        else ServerRecv(s.server, Some(Payload(s.toServer[..n])), random, true);
      ServerOutUses(s.(toServer := s.toServer[n..], serverOwes := s.serverOwes + n), server, written);
  }

  lemma AckUses(s: System, v: Move)
    requires Enabled(s, v) && InBounds(s) && !v.ClientData? && !v.ServerData?
    ensures Todo(Next(s, v)) < Todo(s)
  {
    hide Load, ClientOut, ServerOut;
    match v
    case ClientAcked(n) =>
      LoadWithoutAcks(s.toClient, n);
      ClientOutUses(s.(toClient := WithoutAcks(s.toClient, n)),
                    if s.client.complete then s.client else ClientSent(s.client, n), None);
    case ServerAcked(n) =>
      LoadWithoutAcks(s.toServer, n);
      ServerOutUses(s.(toServer := WithoutAcks(s.toServer, n)),
                    if s.server.complete then s.server else ServerSent(s.server, n), None);
    case ClientFin =>
      FinTaken(s.toClient);
      ClientOutUses(s.(toClient := s.toClient[1..]),
                    if s.client.complete then s.client else ClientRecv(s.client, None, true).0, None);
    case ServerFin =>
      FinTaken(s.toServer);
      ServerOutUses(s.(toServer := s.toServer[1..]),
                    if s.server.complete then s.server else ServerRecv(s.server, None, s.server.sent, true).0, None);
    case ClientAcks(n) => OwedSent(s.toServer, n);
    case ServerAcks(n) => OwedSent(s.toClient, n);
  }

  lemma SoundTodo(s: System)
    requires Sound(s)
    ensures Todo(s) >= 0
  {
    SoundVerdict(s);
  }

  /** No run goes on longer than this. */
  lemma {:induction false} RunsEnd(s: System, moves: seq<Move>)
    requires Sound(s) && Allowed(s, moves)
    ensures |moves| <= Todo(s)
    decreases |moves|
  {
    hide Turning, Down, Up, Parting, Parted, Enabled, Next, Todo;
    if moves == [] {
      SoundTodo(s);
    } else {
      MoveKeeps(s, moves[0]);
      if moves[0].ClientData? || moves[0].ServerData? { DataUses(s, moves[0]); } else { AckUses(s, moves[0]); }
      RunsEnd(Next(s, moves[0]), moves[1..]);
    }
  }

  predicate Over(s: System) {
    s.server.complete && s.client.complete && s.toClient == [] && s.toServer == []
  }

  /** And none stops before both sides have finished their tests. */
  lemma NoDeadlock(start: System, moves: seq<Move>, random: Buffer) returns (v: Move)
    requires Begun(start) && Allowed(start, moves) && !Over(After(start, moves))
    ensures Enabled(After(start, moves), v)
  {
    BegunSound(start);
    RunSound(start, moves);
    v := SoundMoves(After(start, moves), random);
  }

  lemma SoundMoves(s: System, random: Buffer) returns (v: Move)
    requires Sound(s) && !Over(s)
    ensures Enabled(s, v)
  {
    hide Turning, Down, Up, Parting;
    if s.server.complete {
      if Parted(s) {
        v := if s.toClient != [] then ClientFin else ServerFin;
      } else {
        var a: nat :| Parting(s, a);
        PartingChannel(s, a);
        AcksReady(a, [Fin], s.toClient);
        v := ClientAcked(1);
      }
    } else if exists a :: Turning(s, a) {
      var a: nat :| Turning(s, a);
      TurningChannel(s, a);
      AcksReady(a, Segment(s.server.sent), s.toClient);
      v := ClientAcked(1);
    } else if exists d :: Down(s, d) {
      var d: nat :| Down(s, d);
      DownChannel(s, d);
      DataReady(s.server.sent[d..]);
      v := ClientData(1);
    } else {
      var b: nat, u: nat :| Up(s, b, u);
      UpChannel(s, b, u);
      if b > 0 {
        AcksReady(b, Segment(s.server.sent[u..]), s.toServer);
        v := ServerAcked(1);
      } else {
        DataReady(s.server.sent[u..]);
        v := ServerData(1, random);
      }
    }
  }

  lemma AcksReady(a: nat, rest: seq<Item>, channel: seq<Item>)
    requires channel == Acks(a) + rest
    ensures CountAcks(channel) >= a
  {
    AcksCounted(a, rest);
  }

  lemma DataReady(bytes: seq<Byte>)
    requires bytes != []
    ensures AllData(Segment(bytes)[..1])
  {
  }

  lemma PartingChannel(s: System, a: nat)
    requires Parting(s, a)
    ensures a > 0 && s.toClient == Acks(a) + [Fin]
  {
  }

  lemma TurningChannel(s: System, a: nat)
    requires Turning(s, a)
    ensures a > 0 && s.toClient == Acks(a) + Segment(s.server.sent)
  {
  }

  lemma DownChannel(s: System, d: nat)
    requires Down(s, d)
    ensures d < BUF_SIZE && s.toClient == Segment(s.server.sent[d..])
  {
  }

  lemma UpChannel(s: System, b: nat, u: nat)
    requires Up(s, b, u)
    ensures u < BUF_SIZE && s.toServer == Acks(b) + Segment(s.server.sent[u..])
    ensures b == 0 ==> s.toServer == Segment(s.server.sent[u..])
  {
    if b == 0 { assert Acks(0) + Segment(s.server.sent[u..]) == Segment(s.server.sent[u..]); }
  }
}
