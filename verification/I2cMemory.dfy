/** A 256-byte memory as an I2C slave (i2c/slave_mem_i2c/slave_mem_i2c.c). */
module I2cMemory {
  import opened Wrappers

  const SIZE := 256

  type Contents = m: seq<Byte> | |m| == SIZE witness seq(SIZE, _ => 0)

  datatype Event = Receive(byte: Byte) | Request | Finish

  datatype State = State(mem: Contents, address: Byte, addressWritten: bool)

  function Handled(s: State, e: Event): (State, Option<Byte>) {
    match e
    case Receive(byte) =>
      if !s.addressWritten then (s.(address := byte, addressWritten := true), None)
      else (s.(mem := s.mem[s.address := byte], address := (s.address + 1) % 256), None)
    case Request => (s.(address := (s.address + 1) % 256), Some(s.mem[s.address]))
    case Finish => (s.(addressWritten := false), None)
  }

  class Slave {
    const mem: array<Byte>
    var memAddress: Byte
    var memAddressWritten: bool

    ghost predicate Valid()
      reads this
    {
      mem.Length == SIZE
    }

    ghost function View(): State
      reads this, mem
      requires Valid()
    {
      State(mem[..], memAddress, memAddressWritten)
    }

    constructor ()
      ensures Valid() && fresh(mem) && View() == State(seq(SIZE, _ => 0), 0, false)
    {
      mem := new Byte[SIZE](_ => 0);
      memAddress, memAddressWritten := 0, false;
    }

    /** i2c_slave_handler; the result is the byte written back to the master. */
    method Handle(e: Event) returns (reply: Option<Byte>)
      requires Valid()
      modifies this, mem
      ensures Valid() && (View(), reply) == Handled(old(View()), e)
    {
      reply := None;
      match e
      case Receive(byte) =>
        if !memAddressWritten {
          memAddress := byte;
          memAddressWritten := true;
        } else {
          mem[memAddress] := byte;
          memAddress := (memAddress + 1) % 256;
        }
      case Request =>
        reply := Some(mem[memAddress]);
        memAddress := (memAddress + 1) % 256;
      case Finish =>
        memAddressWritten := false;
    }
  }

  // ----- Transactions

  /** Bytes received in a row, or requests in a row. */
  datatype Part = Write(bytes: seq<Byte>) | Read(count: nat)

  /** What the bus master does between a START and the STOP or restart that ends it. */
  type Transaction = seq<Part>

  function Receives(bytes: seq<Byte>): seq<Event> {
    if bytes == [] then [] else [Receive(bytes[0])] + Receives(bytes[1..])
  }

  function Requests(n: nat): seq<Event> {
    if n == 0 then [] else [Request] + Requests(n - 1)
  }

  function PartEvents(p: Part): seq<Event> {
    match p
    case Write(bytes) => Receives(bytes)
    case Read(count) => Requests(count)
  }

  /** A transaction that has not been ended. */
  function OpenEvents(t: Transaction): seq<Event> {
    if t == [] then [] else PartEvents(t[0]) + OpenEvents(t[1..])
  }

  function Events(t: Transaction): seq<Event> {
    OpenEvents(t) + [Finish]
  }

  function Noting(reply: Option<Byte>, rest: seq<Byte>): seq<Byte> {
    if reply.Some? then [reply.value] + rest else rest
  }

  /** The state after a run of events and the bytes read back. */
  function Run(s: State, events: seq<Event>): (State, seq<Byte>)
    decreases |events|
  {
    if events == [] then (s, [])
    else
      var (next, reply) := Handled(s, events[0]);
      var (end, rest) := Run(next, events[1..]);
      (end, Noting(reply, rest))
  }

  function AllEvents(ts: seq<Transaction>): seq<Event> {
    if ts == [] then [] else Events(ts[0]) + AllEvents(ts[1..])
  }

  // ----- The abstract memory

  /** A pointer into a memory that wraps. */
  datatype Memory = Memory(mem: Contents, at: Byte)

  function At(m: Memory, i: nat): Byte {
    m.mem[(m.at + i) % 256]
  }

  /** The next `n` bytes. */
  function Ahead(m: Memory, n: nat): (bytes: seq<Byte>)
    ensures |bytes| == n && forall i :: 0 <= i < n ==> bytes[i] == At(m, i)
  {
    seq<Byte>(n, i requires 0 <= i => At(m, i))
  }

  function Moved(m: Memory, n: nat): Memory {
    m.(at := (m.at + n) % 256)
  }

  /** Byte `i` of what a transaction writes goes to the sought address plus `i`; of bytes that land on the
      same place the last stays. */
  function Stored(mem: Contents, at: Byte, bytes: seq<Byte>): Contents
    decreases |bytes|
  {
    if bytes == [] then mem else Stored(mem[at := bytes[0]], (at + 1) % 256, bytes[1..])
  }

  /** One part: the first byte received in a transaction seeks, `sought` telling whether there has been one, and
      those after it are written. */
  function Step(m: Memory, sought: bool, p: Part): (Memory, bool, seq<Byte>) {
    match p
    case Write(bytes) =>
      if bytes == [] then (m, sought, [])
      else if sought then (Memory(Stored(m.mem, m.at, bytes), (m.at + |bytes|) % 256), true, [])
      else (Memory(Stored(m.mem, bytes[0], bytes[1..]), (bytes[0] + |bytes| - 1) % 256), true, [])
    case Read(count) =>
      (Moved(m, count), sought, Ahead(m, count))
  }

  function Steps(m: Memory, sought: bool, t: Transaction): (Memory, bool, seq<Byte>)
    decreases |t|
  {
    if t == [] then (m, sought, [])
    else
      var (next, sought', out) := Step(m, sought, t[0]);
      var (end, sought'', rest) := Steps(next, sought', t[1..]);
      (end, sought'', out + rest)
  }

  function Performed(m: Memory, t: Transaction): (Memory, seq<Byte>) {
    var (end, _, out) := Steps(m, false, t);
    (end, out)
  }

  function PerformedAll(m: Memory, ts: seq<Transaction>): (Memory, seq<Byte>)
    decreases |ts|
  {
    if ts == [] then (m, [])
    else
      var (next, out) := Performed(m, ts[0]);
      var (end, rest) := PerformedAll(next, ts[1..]);
      (end, out + rest)
  }

  lemma {:induction false} RunConcat(s: State, a: seq<Event>, b: seq<Event>)
    ensures var (mid, out) := Run(s, a);
            var (end, rest) := Run(mid, b);
            Run(s, a + b) == (end, out + rest)
    decreases |a|
  {
    if a == [] {
      assert a + b == b && [] + Run(s, b).1 == Run(s, b).1;
    } else {
      assert (a + b)[1..] == a[1..] + b && (a + b)[0] == a[0];
      var (next, reply) := Handled(s, a[0]);
      hide Handled;
      RunConcat(next, a[1..], b);
      var (mid, out) := Run(next, a[1..]);
      NotingMore(reply, out, Run(mid, b).1);
    }
  }

  lemma NotingMore(reply: Option<Byte>, x: seq<Byte>, y: seq<Byte>)
    ensures Noting(reply, x + y) == Noting(reply, x) + y
  {
    if reply.Some? { assert [reply.value] + (x + y) == [reply.value] + x + y; }
  }

  lemma RunOne(s: State, e: Event, rest: seq<Event>)
    ensures var (next, reply) := Handled(s, e);
            var (end, out) := Run(next, rest);
            Run(s, [e] + rest) == (end, Noting(reply, out))
  {
    assert ([e] + rest)[1..] == rest;
  }

  lemma ModAdd(x: nat, i: nat)
    ensures (x % 256 + i) % 256 == (x + i) % 256
  {
  }

  lemma AheadSplit(m: Memory, a: nat, b: nat)
    ensures Ahead(m, a + b) == Ahead(m, a) + Ahead(Moved(m, a), b)
    ensures Moved(Moved(m, a), b) == Moved(m, a + b)
  {
    ModAdd(m.at + a, b);
    forall i | 0 <= i < b ensures At(Moved(m, a), i) == At(m, a + i) { ModAdd(m.at + a, i); }
  }

  lemma {:induction false} ReceivesStore(s: State, bytes: seq<Byte>)
    requires s.addressWritten
    ensures Run(s, Receives(bytes)) == (State(Stored(s.mem, s.address, bytes), (s.address + |bytes|) % 256, true), [])
    decreases |bytes|
  {
    if bytes != [] {
      RunOne(s, Receive(bytes[0]), Receives(bytes[1..]));
      hide Run;
      ReceivesStore(Handled(s, Receive(bytes[0])).0, bytes[1..]);
      ModAdd(s.address + 1, |bytes| - 1);
    }
  }

  lemma {:induction false} RequestsRead(s: State, n: nat)
    ensures var m := Memory(s.mem, s.address); Run(s, Requests(n)) == (s.(address := Moved(m, n).at), Ahead(m, n))
    decreases n
  {
    var m := Memory(s.mem, s.address);
    if n > 0 {
      RunOne(s, Request, Requests(n - 1));
      RequestsRead(Handled(s, Request).0, n - 1);
      AheadSplit(m, 1, n - 1);
      assert Ahead(m, 1) == [At(m, 0)];
    }
  }

  lemma PartRefines(s: State, p: Part)
    ensures var (m, sought, out) := Step(Memory(s.mem, s.address), s.addressWritten, p);
            Run(s, PartEvents(p)) == (State(m.mem, m.at, sought), out)
  {
    match p
    case Write(bytes) =>
      if s.addressWritten {
        ReceivesStore(s, bytes);
      } else if bytes != [] {
        RunOne(s, Receive(bytes[0]), Receives(bytes[1..]));
        ReceivesStore(Handled(s, Receive(bytes[0])).0, bytes[1..]);
      }
    case Read(count) => RequestsRead(s, count);
  }

  /** A transaction under way, its parts in any order, event by event. */
  lemma {:induction false} OpenRefines(s: State, t: Transaction)
    ensures var (m, sought, out) := Steps(Memory(s.mem, s.address), s.addressWritten, t);
            Run(s, OpenEvents(t)) == (State(m.mem, m.at, sought), out)
    decreases |t|
  {
    hide Step, PartEvents, Handled;
    if t != [] {
      PartRefines(s, t[0]);
      RunConcat(s, PartEvents(t[0]), OpenEvents(t[1..]));
      hide Run;
      OpenRefines(Run(s, PartEvents(t[0])).0, t[1..]);
    }
  }

  /** One transaction, event by event, is one operation of the abstract memory. */
  lemma {:induction false} TransactionRefines(s: State, t: Transaction)
    requires !s.addressWritten
    ensures var (m, out) := Performed(Memory(s.mem, s.address), t);
            Run(s, Events(t)) == (State(m.mem, m.at, false), out)
  {
    OpenRefines(s, t);
    RunConcat(s, OpenEvents(t), [Finish]);
    Finished(Run(s, OpenEvents(t)).0);
    hide Run, Steps, OpenEvents;
    assert Run(s, OpenEvents(t)).1 + [] == Run(s, OpenEvents(t)).1;
  }

  lemma Finished(s: State)
    ensures Run(s, [Finish]) == (s.(addressWritten := false), [])
  {
    assert [Finish][1..] == [] && Run(s.(addressWritten := false), []) == (s.(addressWritten := false), []);
  }

  /** Over every sequence of transactions, and in the middle of a further one, the slave is the abstract memory. */
  lemma {:induction false} SlaveRefines(s: State, ts: seq<Transaction>, last: Transaction)
    requires !s.addressWritten
    ensures var (m, out) := PerformedAll(Memory(s.mem, s.address), ts);
            var (end, sought, rest) := Steps(m, false, last);
            Run(s, AllEvents(ts) + OpenEvents(last)) == (State(end.mem, end.at, sought), out + rest)
    decreases |ts|
  {
    hide Performed, Events, Steps, OpenEvents;
    if ts == [] {
      OpenRefines(s, last);
      assert AllEvents(ts) + OpenEvents(last) == OpenEvents(last);
      assert [] + Run(s, OpenEvents(last)).1 == Run(s, OpenEvents(last)).1;
    } else {
      var more := AllEvents(ts[1..]) + OpenEvents(last);
      TransactionRefines(s, ts[0]);
      RunConcat(s, Events(ts[0]), more);
      SlaveRefines(Run(s, Events(ts[0])).0, ts[1..], last);
      hide Run;
      assert AllEvents(ts) + OpenEvents(last) == Events(ts[0]) + more;
      var (next, out) := Performed(Memory(s.mem, s.address), ts[0]);
      var (m, between) := PerformedAll(next, ts[1..]);
      var rest := Steps(m, false, last).2;
      assert out + (between + rest) == (out + between) + rest;
    }
  }

  /** An event put before a transaction. */
  lemma Longer(e: Event, t: Transaction)
    requires !e.Finish?
    ensures OpenEvents([PartOf(e)] + t) == [e] + OpenEvents(t) && Events([PartOf(e)] + t) == [e] + Events(t)
  {
    assert ([PartOf(e)] + t)[1..] == t;
    assert PartEvents(PartOf(e)) == [e] by {
      if e.Request? { assert Requests(0) == []; } else { assert [e.byte][1..] == [] && Receives([]) == []; }
    }
  }

  function PartOf(e: Event): Part
    requires !e.Finish?
  {
    if e.Request? then Read(1) else Write([e.byte])
  }

  lemma FirstOf(t: Transaction, ts: seq<Transaction>)
    ensures AllEvents([t] + ts) == Events(t) + AllEvents(ts)
  {
    assert ([t] + ts)[1..] == ts;
  }

  lemma NothingButFinish()
    ensures Events([]) == [Finish]
  {
  }

  lemma Associate(a: seq<Event>, b: seq<Event>, c: seq<Event>)
    ensures (a + b) + c == a + (b + c)
  {
  }

  /** An event put before transactions. */
  lemma OneMore(e: Event, ts: seq<Transaction>, last: Transaction) returns (ts': seq<Transaction>, last': Transaction)
    ensures AllEvents(ts') + OpenEvents(last') == [e] + (AllEvents(ts) + OpenEvents(last))
  {
    ts', last' := ts, last;
    if e.Finish? {
      ts' := [[]] + ts;
      FirstOf([], ts);
      NothingButFinish();
    } else if ts == [] {
      last' := [PartOf(e)] + last;
      Longer(e, last);
      assert [] + OpenEvents(last') == OpenEvents(last') && [] + OpenEvents(last) == OpenEvents(last);
      return;
    } else {
      var t := [PartOf(e)] + ts[0];
      ts' := [t] + ts[1..];
      Longer(e, ts[0]);
      FirstOf(t, ts[1..]);
      hide OpenEvents;
      Associate([e], Events(ts[0]), AllEvents(ts[1..]));
    }
    hide AllEvents, OpenEvents, Events, PartOf;
    assert AllEvents(ts') == [e] + AllEvents(ts);
    Associate([e], AllEvents(ts), OpenEvents(last));
  }

  /** Every sequence of events is such a sequence of transactions. */
  lemma {:induction false} EverySequence(events: seq<Event>) returns (ts: seq<Transaction>, last: Transaction)
    ensures events == AllEvents(ts) + OpenEvents(last)
    decreases |events|
  {
    if events == [] {
      return [], [];
    }
    hide Events, AllEvents, OpenEvents;
    ts, last := EverySequence(events[1..]);
    ts, last := OneMore(events[0], ts, last);
    assert events == [events[0]] + events[1..];
  }

  // ----- What is written is read back

  lemma Around(k: Byte, at: Byte)
    ensures (k - (at + 1) % 256) % 256 == if k == at then 255 else (k - at) % 256 - 1
  {
  }

  /** A place no byte came to is untouched. */
  lemma {:induction false} StoredElsewhere(mem: Contents, at: Byte, bytes: seq<Byte>, k: Byte)
    requires (k - at) % 256 >= |bytes|
    ensures Stored(mem, at, bytes)[k] == mem[k]
    decreases |bytes|
  {
    if bytes != [] {
      Around(k, at);
      StoredElsewhere(mem[at := bytes[0]], (at + 1) % 256, bytes[1..], k);
    }
  }

  /** Of any number of bytes written, each of the last 256 is where it was put. */
  lemma {:induction false} StoredAt(mem: Contents, at: Byte, bytes: seq<Byte>, j: nat)
    requires j < |bytes| <= j + 256
    ensures Stored(mem, at, bytes)[(at + j) % 256] == bytes[j]
    decreases |bytes|
  {
    var next, mem' := (at + 1) % 256, mem[at := bytes[0]];
    if j > 0 {
      ModAdd(at + 1, j - 1);
      StoredAt(mem', next, bytes[1..], j - 1);
    } else {
      Around(at, at);
      StoredElsewhere(mem', next, bytes[1..], at);
    }
  }

  /** What stands at `k` after a write of any length: the last byte to come there, if any did. */
  function Landed(mem: Contents, at: Byte, bytes: seq<Byte>, k: Byte): Byte {
    var i := (k - at) % 256;
    if i >= |bytes| then mem[k] else bytes[i + (|bytes| - 1 - i) / 256 * 256]
  }

  lemma StoredLanded(mem: Contents, at: Byte, bytes: seq<Byte>, k: Byte)
    ensures Stored(mem, at, bytes)[k] == Landed(mem, at, bytes, k)
  {
    hide Stored;
    var i := (k - at) % 256;
    if i < |bytes| {
      var rounds := (|bytes| - 1 - i) / 256;
      StoredAt(mem, at, bytes, i + rounds * 256);
      WholeRounds(at, k, rounds);
    } else {
      StoredElsewhere(mem, at, bytes, k);
    }
  }

  lemma WholeRounds(at: Byte, k: Byte, rounds: nat)
    ensures (at + ((k - at) % 256 + rounds * 256)) % 256 == k
  {
    var i := (k - at) % 256;
    assert at + i == if k >= at then k else k + 256;
  }

  function Total(counts: seq<nat>): nat {
    if counts == [] then 0 else counts[0] + Total(counts[1..])
  }

  function Reads(counts: seq<nat>): seq<Transaction> {
    if counts == [] then [] else [[Read(counts[0])]] + Reads(counts[1..])
  }

  /** Reading in pieces is reading at once. */
  lemma {:induction false} ReadsJoin(m: Memory, counts: seq<nat>)
    ensures PerformedAll(m, Reads(counts)) == (Moved(m, Total(counts)), Ahead(m, Total(counts)))
    decreases |counts|
  {
    if counts != [] {
      ReadsJoin(Moved(m, counts[0]), counts[1..]);
      AheadSplit(m, counts[0], Total(counts[1..]));
      PerformedOne(m, [Read(counts[0])], Reads(counts[1..]));
      OneStep(m, Read(counts[0]));
    }
  }

  lemma PerformedOne(m: Memory, t: Transaction, ts: seq<Transaction>)
    ensures var (next, out) := Performed(m, t);
            var (end, rest) := PerformedAll(next, ts);
            PerformedAll(m, [t] + ts) == (end, out + rest)
  {
    assert ([t] + ts)[1..] == ts;
  }

  lemma OneStep(m: Memory, p: Part)
    ensures Performed(m, [p]) == (Step(m, false, p).0, Step(m, false, p).2)
  {
    var (next, sought, out) := Step(m, false, p);
    assert [p][1..] == [] && Steps(next, sought, []) == (next, sought, []) && out + [] == out;
  }

  /** For a write of any length, a seek to any address and any amount read, however restarts split the
      reading: every byte read is the last one written to its place, or what was there before. */
  lemma WriteSeekRead(s: State, address: Byte, bytes: seq<Byte>, sought: Byte, counts: seq<nat>)
    requires !s.addressWritten
    ensures var out := Run(s, AllEvents([[Write([address] + bytes)]] + ([[Write([sought])]] + Reads(counts)))).1;
            && |out| == Total(counts)
            && forall n :: 0 <= n < |out| ==> out[n] == Landed(s.mem, address, bytes, (sought + n) % 256)
  {
    hide Run, AllEvents, Reads, PerformedAll, Stored, Ahead, Landed;
    var m, rest := Memory(s.mem, s.address), Reads(counts);
    var all := [[Write([address] + bytes)]] + ([[Write([sought])]] + rest);
    SlaveRefines(s, all, []);
    OneStep(m, Write([address] + bytes));
    assert AllEvents(all) + OpenEvents([]) == AllEvents(all);
    PerformedOne(m, [Write([address] + bytes)], [[Write([sought])]] + rest);
    var written := Performed(m, [Write([address] + bytes)]).0;
    PerformedOne(written, [Write([sought])], rest);
    OneStep(written, Write([sought]));
    assert ([address] + bytes)[1..] == bytes && [sought][1..] == [];
    var from := Memory(Stored(m.mem, address, bytes), sought);
    assert Performed(written, [Write([sought])]).0 == from by { StoredNothing(written.mem, sought); }
    ReadsJoin(from, counts);
    assert [] + ([] + Ahead(from, Total(counts))) == Ahead(from, Total(counts));
    var out := Run(s, AllEvents([[Write([address] + bytes)]] + ([[Write([sought])]] + rest))).1;
    assert out == Ahead(from, Total(counts));
    forall n | 0 <= n < |out| ensures out[n] == Landed(s.mem, address, bytes, (sought + n) % 256) {
      StoredLanded(s.mem, address, bytes, (sought + n) % 256);
      assert out[n] == At(from, n);
    }
  }

  lemma StoredNothing(mem: Contents, at: Byte)
    ensures Stored(mem, at, []) == mem
  {
  }

  /** In particular, sought from where it was written, a message that fits is read back as it is. */
  lemma MessageReadBack(s: State, address: Byte, bytes: seq<Byte>, counts: seq<nat>)
    requires !s.addressWritten && |bytes| <= 256 && Total(counts) <= |bytes|
    ensures Run(s, AllEvents([[Write([address] + bytes)]] + ([[Write([address])]] + Reads(counts)))).1
         == bytes[..Total(counts)]
  {
    hide Run, AllEvents, Reads;
    WriteSeekRead(s, address, bytes, address, counts);
    forall n | 0 <= n < Total(counts) ensures Landed(s.mem, address, bytes, (address + n) % 256) == bytes[n] {
      ModBack(address, n);
    }
  }

  lemma ModBack(a: Byte, i: nat)
    requires i < 256
    ensures ((a + i) % 256 - a) % 256 == i
  {
    if a + i < 256 {} else { assert (a + i) % 256 == a + i - 256; }
  }
}
