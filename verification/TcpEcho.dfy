/** The TCP test pair: a server that sends a buffer and checks that it comes back, and a client that
    echoes it (pico_w/wifi/tcp_server/picow_tcp_server.c, pico_w/wifi/tcp_client/picow_tcp_client.c).
    Each side is a set of callbacks on a state structure. */
module TcpEcho {
  import opened Wrappers

  const BUF_SIZE := 2048
  const TEST_ITERATIONS := 10

  type Buffer = b: seq<Byte> | |b| == BUF_SIZE witness seq(BUF_SIZE, _ => 0)

  // ----- The callbacks as functions of the state

  /** `result` is the status the test ended with. */
  datatype ServerState = ServerState(
    sent: Buffer, recv: Buffer, sentLen: nat, recvLen: nat, runs: nat, complete: bool, result: int)

  datatype ClientState = ClientState(
    buffer: Buffer, bufferLen: nat, sentLen: nat, runs: nat, complete: bool, result: int)

  /** `data` copied over the buffer from `at`, cut off at its end. */
  function Filled(buffer: Buffer, at: nat, data: seq<Byte>): Buffer
    requires at <= BUF_SIZE
  {
    var n := Min(|data|, BUF_SIZE - at);
    buffer[..at] + data[..n] + buffer[at + n..]
  }

  function ServerEnds(s: ServerState, status: int): ServerState {
    s.(complete := true, result := status)
  }

  /** tcp_server_sent: `n` more bytes were acknowledged. */
  function ServerSent(s: ServerState, n: nat): ServerState {
    var s := s.(sentLen := s.sentLen + n);
    if s.sentLen >= BUF_SIZE then s.(recvLen := 0) else s
  }

  /** tcp_server_send_data: what it writes, `random` being the random bytes drawn and `ok` whether the stack
      takes them. */
  function ServerSends(s: ServerState, random: Buffer, ok: bool): (ServerState, Option<Buffer>) {
    var s := s.(sent := random, sentLen := 0);
    if ok then (s, Some(random)) else (ServerEnds(s, -1), None)
  }

  /** tcp_server_recv: data, or the end of the stream. */
  function ServerRecv(s: ServerState, data: Option<seq<Byte>>, random: Buffer, ok: bool): (ServerState, Option<Buffer>)
    requires s.recvLen <= BUF_SIZE
  {
    if data.None? then (ServerEnds(s, -1), None)
    else
      var s := s.(recv := Filled(s.recv, s.recvLen, data.value),
                  recvLen := s.recvLen + Min(|data.value|, BUF_SIZE - s.recvLen));
      if s.recvLen != BUF_SIZE then (s, None)
      else if s.sent != s.recv then (ServerEnds(s, -1), None)
      else
        var s := s.(runs := s.runs + 1);
        if s.runs >= TEST_ITERATIONS then (ServerEnds(s, 0), None) else ServerSends(s, random, ok)
  }

  function ClientEnds(c: ClientState, status: int): ClientState {
    c.(complete := true, result := status)
  }

  /** tcp_client_sent. */
  function ClientSent(c: ClientState, n: nat): ClientState {
    var c := c.(sentLen := c.sentLen + n);
    if c.sentLen < BUF_SIZE then c
    else
      var c := c.(runs := c.runs + 1);
      if c.runs >= TEST_ITERATIONS then ClientEnds(c, 0) else c.(bufferLen := 0, sentLen := 0)
  }

  /** tcp_client_recv. */
  function ClientRecv(c: ClientState, data: Option<seq<Byte>>, ok: bool): (ClientState, Option<Buffer>)
    requires c.bufferLen <= BUF_SIZE
  {
    if data.None? then (ClientEnds(c, -1), None)
    else
      var c := c.(buffer := Filled(c.buffer, c.bufferLen, data.value),
                  bufferLen := c.bufferLen + Min(|data.value|, BUF_SIZE - c.bufferLen));
      if c.bufferLen != BUF_SIZE then (c, None)
      else if ok then (c, Some(c.buffer)) else (ClientEnds(c, -1), None)
  }

  /** How the server judges what it receives. Until the buffer is full nothing but it changes. A full buffer that
      is not the one sent fails the test; one that is is counted, ends the test well if it is the tenth, and
      otherwise has new random bytes sent, or fails the test if they cannot be. A closed connection fails it. */
  lemma ServerJudges(s: ServerState, data: seq<Byte>, random: Buffer, ok: bool)
    requires s.recvLen <= BUF_SIZE
    ensures var (after, written) := ServerRecv(s, Some(data), random, ok);
            var n := s.recvLen + |data|;
            var recv := if n < BUF_SIZE then s.recv[..s.recvLen] + data + s.recv[n..]
                        else s.recv[..s.recvLen] + data[..BUF_SIZE - s.recvLen];
            after.recv == recv &&
            if n < BUF_SIZE then written == None && after == s.(recv := recv, recvLen := n)
            else if recv != s.sent then
              written == None && after.complete && after.result == -1 && after.runs == s.runs
            else if s.runs >= 9 then
              written == None && after.complete && after.result == 0 && after.runs == s.runs + 1
            else
              && after.sent == random && after.sentLen == 0 && after.runs == s.runs + 1
              && if ok then written == Some(random) && after.complete == s.complete && after.result == s.result
                 else written == None && after.complete && after.result == -1
    ensures ServerRecv(s, None, random, ok) == (s.(complete := true, result := -1), None)
  {
    var n := s.recvLen + |data|;
    if n >= BUF_SIZE {
      assert s.recv[s.recvLen + Min(|data|, BUF_SIZE - s.recvLen)..] == [];
      assert Filled(s.recv, s.recvLen, data) == s.recv[..s.recvLen] + data[..BUF_SIZE - s.recvLen];
    }
  }

  /** The client writes back exactly the buffer it has when that is full, and nothing before. */
  lemma ClientEchoes(c: ClientState, data: seq<Byte>, ok: bool)
    requires c.bufferLen <= BUF_SIZE
    ensures var (after, written) := ClientRecv(c, Some(data), ok);
            var n := c.bufferLen + |data|;
            var buffer := if n < BUF_SIZE then c.buffer[..c.bufferLen] + data + c.buffer[n..]
                          else c.buffer[..c.bufferLen] + data[..BUF_SIZE - c.bufferLen];
            after.buffer == buffer &&
            if n < BUF_SIZE then written == None && after == c.(buffer := buffer, bufferLen := n)
            else if ok then
              written == Some(buffer) && after == c.(buffer := buffer, bufferLen := BUF_SIZE)
            else written == None && after.complete && after.result == -1
    ensures ClientRecv(c, None, ok) == (c.(complete := true, result := -1), None)
  {
    var n := c.bufferLen + |data|;
    if n >= BUF_SIZE {
      assert c.buffer[c.bufferLen + Min(|data|, BUF_SIZE - c.bufferLen)..] == [];
      assert Filled(c.buffer, c.bufferLen, data) == c.buffer[..c.bufferLen] + data[..BUF_SIZE - c.bufferLen];
    }
  }

  // ----- The callbacks on the state structures

  /** The buffer with the first `n` bytes copied. */
  function Copied(before: seq<Byte>, at: nat, data: seq<Byte>, n: nat): (after: seq<Byte>)
    requires n <= |data| && at + n <= |before|
    ensures |after| == |before|
  {
    before[..at] + data[..n] + before[at + n..]
  }

  lemma CopiedNext(before: seq<Byte>, at: nat, data: seq<Byte>, n: nat)
    requires n < |data| && at + n < |before|
    ensures Copied(before, at, data, n)[at + n := data[n]] == Copied(before, at, data, n + 1)
  {
  }

  /** pbuf_copy_partial: copies what fits from `at` on. */
  method CopyInto(buffer: array<Byte>, at: nat, data: seq<Byte>) returns (copied: nat)
    requires buffer.Length == BUF_SIZE && at <= BUF_SIZE
    modifies buffer
    ensures copied == Min(|data|, BUF_SIZE - at)
    ensures buffer[..] == Filled(old(buffer[..]), at, data)
  {
    ghost var before := buffer[..];
    copied := 0;
    while copied < |data| && at + copied < BUF_SIZE
      invariant 0 <= copied <= |data| && at + copied <= BUF_SIZE
      invariant buffer[..] == Copied(before, at, data, copied)
    {
      CopiedNext(before, at, data, copied);
      hide Copied;
      ghost var now := buffer[..];
      buffer[at + copied] := data[copied];
      assert buffer[..] == now[at + copied := data[copied]];
      copied := copied + 1;
    }
  }

  /** memcmp as the server uses it. */
  method Matches(a: array<Byte>, b: array<Byte>) returns (same: bool)
    requires a.Length == b.Length == BUF_SIZE
    ensures same == (a[..] == b[..])
  {
    for i := 0 to BUF_SIZE
      invariant forall k :: 0 <= k < i ==> a[k] == b[k]
    {
      if a[i] != b[i] {
        assert a[..][i] != b[..][i];
        return false;
      }
    }
    return true;
  }

  class Server {
    const bufferSent: array<Byte>
    const bufferRecv: array<Byte>
    var sentLen: nat
    var recvLen: nat
    var runCount: nat
    var complete: bool
    var result: int

    ghost predicate Valid()
      reads this
    {
      bufferSent != bufferRecv && bufferSent.Length == bufferRecv.Length == BUF_SIZE && recvLen <= BUF_SIZE
    }

    ghost function View(): ServerState
      reads this, bufferSent, bufferRecv
      requires Valid()
    {
      ServerState(bufferSent[..], bufferRecv[..], sentLen, recvLen, runCount, complete, result)
    }

    constructor ()
      ensures Valid() && fresh(bufferSent) && fresh(bufferRecv)
      ensures View() == ServerState(seq(BUF_SIZE, _ => 0), seq(BUF_SIZE, _ => 0), 0, 0, 0, false, 0)
    {
      bufferSent := new Byte[BUF_SIZE](_ => 0);
      bufferRecv := new Byte[BUF_SIZE](_ => 0);
      sentLen, recvLen, runCount, complete, result := 0, 0, 0, false, 0;
    }

    method End(status: int)
      requires Valid()
      modifies this`complete, this`result
      ensures Valid() && View() == ServerEnds(old(View()), status)
    {
      complete, result := true, status;
    }

    method Sent(n: nat)
      requires Valid()
      modifies this`sentLen, this`recvLen
      ensures Valid() && View() == ServerSent(old(View()), n)
    {
      sentLen := sentLen + n;
      if sentLen >= BUF_SIZE { recvLen := 0; }
    }

    method SendData(random: seq<Byte>, ok: bool) returns (written: Option<Buffer>)
      requires Valid() && |random| == BUF_SIZE
      modifies this`sentLen, this`complete, this`result, bufferSent
      ensures Valid() && (View(), written) == ServerSends(old(View()), random, ok)
    {
      for i := 0 to BUF_SIZE
        modifies bufferSent
        invariant forall k :: 0 <= k < i ==> bufferSent[k] == random[k]
      {
        bufferSent[i] := random[i];
      }
      assert bufferSent[..] == random;
      sentLen := 0;
      if ok {
        written := Some(bufferSent[..]);
      } else {
        End(-1);
        written := None;
      }
    }

    method Recv(data: Option<seq<Byte>>, random: seq<Byte>, ok: bool) returns (written: Option<Buffer>)
      requires Valid() && |random| == BUF_SIZE
      modifies this, bufferSent, bufferRecv
      ensures Valid() && (View(), written) == ServerRecv(old(View()), data, random, ok)
    {
      written := None;
      if data.None? {
        End(-1);
        return;
      }
      if |data.value| > 0 {
        var copied := CopyInto(bufferRecv, recvLen, data.value);
        recvLen := recvLen + copied;
      }
      assert bufferRecv[..] == Filled(old(bufferRecv[..]), old(recvLen), data.value);
      if recvLen == BUF_SIZE {
        var same := Matches(bufferSent, bufferRecv);
        if !same {
          End(-1);
          return;
        }
        runCount := runCount + 1;
        if runCount >= TEST_ITERATIONS {
          End(0);
          return;
        }
        written := SendData(random, ok);
      }
    }
  }

  class Client {
    const buffer: array<Byte>
    var bufferLen: nat
    var sentLen: nat
    var runCount: nat
    var complete: bool
    var result: int

    ghost predicate Valid()
      reads this
    {
      buffer.Length == BUF_SIZE && bufferLen <= BUF_SIZE
    }

    ghost function View(): ClientState
      reads this, buffer
      requires Valid()
    {
      ClientState(buffer[..], bufferLen, sentLen, runCount, complete, result)
    }

    constructor ()
      ensures Valid() && fresh(buffer)
      ensures View() == ClientState(seq(BUF_SIZE, _ => 0), 0, 0, 0, false, 0)
    {
      buffer := new Byte[BUF_SIZE](_ => 0);
      bufferLen, sentLen, runCount, complete, result := 0, 0, 0, false, 0;
    }

    method End(status: int)
      requires Valid()
      modifies this`complete, this`result
      ensures Valid() && View() == ClientEnds(old(View()), status)
    {
      complete, result := true, status;
    }

    method Sent(n: nat)
      requires Valid()
      modifies this
      ensures Valid() && View() == ClientSent(old(View()), n)
    {
      sentLen := sentLen + n;
      if sentLen >= BUF_SIZE {
        runCount := runCount + 1;
        if runCount >= TEST_ITERATIONS {
          End(0);
          return;
        }
        bufferLen := 0;
        sentLen := 0;
      }
    }

    method Recv(data: Option<seq<Byte>>, ok: bool) returns (written: Option<Buffer>)
      requires Valid()
      modifies this, buffer
      ensures Valid() && (View(), written) == ClientRecv(old(View()), data, ok)
    {
      written := None;
      if data.None? {
        End(-1);
        return;
      }
      if |data.value| > 0 {
        var copied := CopyInto(buffer, bufferLen, data.value);
        bufferLen := bufferLen + copied;
      }
      assert buffer[..] == Filled(old(buffer[..]), old(bufferLen), data.value);
      if bufferLen == BUF_SIZE {
        if ok {
          written := Some(buffer[..]);
        } else {
          End(-1);
        }
      }
    }
  }
}
