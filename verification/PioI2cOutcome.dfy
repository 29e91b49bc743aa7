/** What a call to the PIO I2C driver leaves on the bus and returns, over every run. */
module PioI2cOutcome {
  import opened Wrappers
  import opened Pio
  import opened I2cBus
  import opened PioI2cWords
  import opened PioI2c
  import opened PioI2cReceive
  import opened PioI2cDriver
  import opened PioI2cStretch

  /** The nine levels of each record, as the bus carries them. */
  function Bits(records: seq<Sent>): seq<bool> {
    if records == [] then []
    else
      var s := records[|records| - 1];
      Bits(records[..|records| - 1]) + if s.item.Record? && Complete(s) then Wire(s.item.Driven(), s.cells) else []
  }

  lemma EventsConcat(a: seq<bool>, b: seq<bool>)
    ensures AsEvents(a + b) == AsEvents(a) + AsEvents(b)
  {
  }

  lemma RecordEvents(s: Sent, before: seq<bool>)
    requires s.item.Record? && Complete(s)
    ensures AsEvents(before) + EventsOf(s) == AsEvents(before + Wire(s.item.Driven(), s.cells))
  {
    EventsConcat(before, Wire(s.item.Driven(), s.cells));
  }

  lemma BitsNext(records: seq<Sent>, s: Sent)
    requires s.item.Record? && Complete(s)
    ensures Bits(records + [s]) == Bits(records) + Wire(s.item.Driven(), s.cells)
  {
    assert (records + [s])[..|records|] == records;
  }

  lemma {:induction false} RecordsLog(start: Sent, records: seq<Sent>)
    requires start.item.Start? && forall s <- records :: s.item.Record? && Complete(s)
    ensures Log([start] + records) == [Event.Start] + AsEvents(Bits(records))
  {
    if records == [] {
      assert [start] + records == [start] && [start][..0] == [];
      assert Log([start]) == Log([]) + EventsOf(start);
    } else {
      var front, s := records[..|records| - 1], records[|records| - 1];
      assert records == front + [s];
      RecordsLog(start, front);
      hide *;
      assert s in records;
      BitsNext(front, s);
      RecordEvents(s, Bits(front));
      assert [start] + (front + [s]) == ([start] + front) + [s];
      LogNext([start] + front, s);
      Associate([Event.Start], AsEvents(Bits(front)), EventsOf(s));
    }
  }

  /** A transfer, as items: one START, data bytes, one STOP. */
  predicate Transfer(done: seq<Sent>) {
    && |done| >= 2 && done[0].item.Start? && Last(done).item.Stop?
    && forall s <- done[1..|done| - 1] :: s.item.Record? && Complete(s)
  }

  lemma {:induction false} TransferLog(done: seq<Sent>)
    requires Transfer(done)
    ensures Log(done) == [Event.Start] + AsEvents(Bits(done[1..|done| - 1])) + [Event.Stop]
  {
    var n := |done|;
    var front := [done[0]] + done[1..n - 1];
    assert done == front + [done[n - 1]];
    LogNext(front, done[n - 1]);
    RecordsLog(done[0], done[1..n - 1]);
  }

  /** The data bytes of a finished transfer. */
  function SentBytes(m: Machine): seq<Sent>
    requires |m.done| >= 2
  {
    m.done[1..|m.done| - 1]
  }

  lemma RestingBus(m: Machine, pend: seq<seq<bool>>)
    requires Steady(m, pend) && AllDone(m) && m.done != [] && Last(m.done).item.Stop?
    ensures m.bus.events == Log(m.done) && m.bus.scl && m.bus.sda
    ensures forall s <- m.done :: Complete(s)
  {
    hide WordsLeft, Log, WellOrdered;
  }

  /** What was carried out, in terms of the plan: all of it, or a broken-off part and a STOP. */
  lemma Carried(s: State)
    requires Sound(s) && s.cpu.phase.Returned? && AllDone(s.m)
    ensures if s.cpu.phase.result == 0 then
              s.cpu.failed == 0 && Items(s.m.done) == Plan(s.job) && Unoffended(s.m) && s.m.core.pc == 12
            else
              s.cpu.phase.result == -1 && 0 < s.cpu.failed && BrokenOff(s)
                 && Items(s.m.done) == Plan(s.job)[..s.cpu.failed] + [Item.Stop]
  {
    hide Steady, Plan, Hearing, Unoffended, Offending, BytesOver;
    assert Items(s.m.done) + [] + [] == Items(s.m.done);
  }

  lemma Inner(done: seq<Sent>, middle: seq<Item>)
    requires Items(done) == [Item.Start] + middle + [Item.Stop]
    ensures |done| == |middle| + 2 && done[0].item.Start? && Last(done).item.Stop?
    ensures Items(done[1..|done| - 1]) == middle
  {
    assert Items(done)[0] == Item.Start && Items(done)[|done| - 1] == Item.Stop;
    assert Items(done)[1..|done| - 1] == middle;
  }

  /** What a successful call carried out. */
  lemma SuccessSent(s: State)
    requires Sound(s) && s.cpu.phase == Returned(0) && AllDone(s.m)
    ensures |s.m.done| >= 2 && s.m.done[0].item.Start? && Last(s.m.done).item.Stop?
    ensures Items(SentBytes(s.m)) == Body(s.job)
    ensures forall sent <- SentBytes(s.m) :: !Offending(sent)
  {
    hide Sound, Body, Offending;
    Carried(s);
    Inner(s.m.done, Body(s.job));
    OffendingRecord(Last(s.m.done));
  }

  /** What a failed call carried out. */
  lemma FailureSent(s: State)
    requires Sound(s) && s.cpu.phase == Returned(-1) && AllDone(s.m)
    ensures |s.m.done| >= 3 && s.m.done[0].item.Start? && Last(s.m.done).item.Stop?
    ensures var sent := SentBytes(s.m);
            && Items(sent) <= Body(s.job) && Offending(Last(sent))
            && forall i :: 0 <= i < |sent| - 1 ==> !Offending(sent[i])
  {
    hide Sound, Body, Offending, Steady, Hearing, InStep, Agenda, BytesOver;
    Carried(s);
    var m, f := s.m, s.cpu.failed;
    OffendingRecord(m.done[f - 1]);
    assert Items(m.done)[f - 1] == Plan(s.job)[f - 1];
    assert |m.done| == f + 1;
    BreakPoint(s.job, f);
    Inner(m.done, Body(s.job)[..f - 1]);
  }

  lemma SoundReturn(s: State)
    requires Sound(s) && s.cpu.phase.Returned?
    ensures s.cpu.phase.result == 0 || s.cpu.phase.result == -1
  {
    hide Steady, Hearing, OnPlan, BrokenOff, Item.Words, AllWords;
  }

  lemma TransferDone(s: State)
    requires Sound(s) && s.cpu.phase.Returned? && AllDone(s.m)
    ensures Transfer(s.m.done) && s.m.bus.events == Log(s.m.done) && s.m.bus.scl && s.m.bus.sda
  {
    hide Sound, Offending, Steady, Log, Complete, Body;
    SoundReturn(s);
    SoundSteady(s);
    if s.cpu.phase.result == 0 { SuccessSent(s); } else { FailureSent(s); }
    RestingBus(s.m, Pend(s.cpu));
    BodyRecords(s.job);
    var sent := SentBytes(s.m);
    forall i | 0 <= i < |sent| ensures sent[i].item.Record? && Complete(sent[i]) {
      assert Items(sent)[i] == Body(s.job)[i] && Items(sent)[i] in Body(s.job);
      assert sent[i] == s.m.done[i + 1];
    }
  }

  // ----- What a call asks for, byte by byte

  /** The write loop queues every byte in order and marks only the last Final. */
  lemma {:induction false} PayloadShape(data: seq<Octet>)
    ensures |Payload(data)| == |data|
    ensures forall i :: 0 <= i < |data| ==> Payload(data)[i] == Record(data[i], i == |data| - 1, true)
  {
    if data != [] { PayloadShape(data[1..]); }
  }

  function RecordItems(items: seq<Item>): (n: nat)
    ensures n <= |items|
  {
    if items == [] then 0
    else RecordItems(items[..|items| - 1]) + if items[|items| - 1].Record? then 1 else 0
  }

  lemma {:induction false} RecordItemsConcat(a: seq<Item>, b: seq<Item>)
    ensures RecordItems(a + b) == RecordItems(a) + RecordItems(b)
    decreases |b|
  {
    if b == [] {
      assert a + b == a;
    } else {
      assert (a + b)[..|a + b| - 1] == a + b[..|b| - 1];
      RecordItemsConcat(a, b[..|b| - 1]);
    }
  }

  lemma {:induction false} ClocksShape(len: nat)
    ensures |Clocks(len)| == len && RecordItems(Clocks(len)) == len
    ensures forall i :: 0 <= i < len ==> Clocks(len)[i] == Record(Ones(), i == len - 1, i == len - 1)
  {
    if len > 0 {
      ClocksShape(len - 1);
      var first := [Record(Ones(), len == 1, len == 1)];
      RecordItemsConcat(first, Clocks(len - 1));
      assert first[..0] == [] && RecordItems(first) == 1;
    }
  }

  /** The address byte: twice the address, plus one to read; an absent device must not go unnoticed, so it is not
      Final and the acknowledge is left to the device. */
  predicate AddressSent(job: Job, s: Sent) {
    && s.item.Record? && !s.item.final && s.item.nak
    && Value(s.item.data) == 2 * Value(job.addr) + if job.mode.Read? then 1 else 0
  }

  /** Data byte `i`: the one given, acknowledged by the device; or all ones, acknowledged by the master unless it is
      the last. The last is Final. */
  predicate DataSent(job: Job, i: nat, s: Sent) {
    s.item.Record? &&
    match job.mode
    case Write(data) => i < |data| && s.item.data == data[i] && s.item.nak && s.item.final == (i == |data| - 1)
    case Read(len) =>
      i < len && (forall j :: 0 <= j < 8 ==> s.item.data[j]) && s.item.nak == s.item.final == (i == len - 1)
  }

  function Wanted(job: Job): nat {
    match job.mode
    case Write(data) => |data|
    case Read(len) => len
  }

  predicate AsAsked(job: Job, sent: seq<Sent>) {
    && 1 <= |sent| <= 1 + Wanted(job) && AddressSent(job, sent[0])
    && forall i :: 1 <= i < |sent| ==> DataSent(job, i - 1, sent[i])
  }

  /** `addr << 1` and the read bit. */
  lemma AddressByte(addr: Address, read: bool)
    ensures Value(addr + [read]) == 2 * Value(addr) + if read then 1 else 0
  {
    assert (addr + [read])[..7] == addr;
  }

  lemma PrefixAsAsked(job: Job, sent: seq<Sent>)
    requires sent != [] && Items(sent) <= Body(job)
    ensures AsAsked(job, sent)
    ensures Items(sent) == Body(job) ==> |sent| == 1 + Wanted(job)
  {
    AddressByte(job.addr, job.mode.Read?);
    match job.mode
    case Write(data) => PayloadShape(data);
    case Read(len) => ClocksShape(len);
    hide Value, Payload, Clocks;
    assert Items(sent)[0] == Body(job)[0];
    forall i | 1 <= i < |sent| ensures DataSent(job, i - 1, sent[i]) {
      assert Items(sent)[i] == Body(job)[i];
    }
  }

  lemma BodyBegins(job: Job)
    ensures Body(job) != []
  {
  }

  /** An address byte that nobody acknowledges breaks the call off. */
  lemma Unanswered(job: Job, s: Sent)
    requires AddressSent(job, s) && Complete(s) && s.cells[8]
    ensures Offending(s)
  {
  }

  /** The first word after the START is the number the driver computes: `(addr << 2) | (read << 1) | 1`. */
  lemma AddressQueued(start: State)
    requires Begun(start)
    ensures start.cpu.later != []
         && Value(start.cpu.later[0]) == 4 * Value(start.job.addr) + if start.job.mode.Read? then 3 else 1
  {
    AddressNumber(start.job.addr, start.job.mode.Read?);
    hide Value;
  }

  /** One transfer on the bus: a START, the nine levels of each byte sent, and a STOP that leaves the
      bus free, or no STOP and the clock left to the device. The bytes sent are the address and the data of the
      call up to the first that is not acknowledged and not Final; the call returns -1 exactly when there is
      one, and otherwise all were sent. So it does when the address is not acknowledged. */
  predicate OneTransfer(job: Job, m: Machine, result: int, stopped: bool) {
    && |m.done| >= 2
    && var sent := SentBytes(m);
    && m.bus.events == [Event.Start] + AsEvents(Bits(sent)) + (if stopped then [Event.Stop] else [])
    && m.bus.scl == (stopped || !m.hold) && m.bus.sda
    && AsAsked(job, sent) && (forall i :: 0 <= i < |sent| ==> Complete(sent[i]))
    && (forall i :: 0 <= i < |sent| - 1 ==> !Offending(sent[i]))
    && (if Offending(Last(sent)) then result == -1 else result == 0 && |sent| == 1 + Wanted(job))
    && (sent[0].cells[8] ==> result == -1 && |sent| == 1)
  }

  lemma OutcomeOf(s: State)
    requires Sound(s) && s.cpu.phase.Returned? && AllDone(s.m)
    ensures OneTransfer(s.job, s.m, s.cpu.phase.result, true)
  {
    hide Sound, Offending, Body, Bits, Log, AddressSent, DataSent;
    TransferDone(s);
    TransferLog(s.m.done);
    SoundReturn(s);
    if s.cpu.phase.result == 0 { SuccessSent(s); } else { FailureSent(s); }
    var sent := SentBytes(s.m);
    BodyBegins(s.job);
    PrefixAsAsked(s.job, sent);
    forall i | 0 <= i < |sent| ensures Complete(sent[i]) { assert sent[i] in sent; }
    if sent[0].cells[8] { Unanswered(s.job, sent[0]); }
  }

  lemma OutcomeWithout(s: State)
    requires Missed(s) && s.cpu.phase.Returned?
    ensures OneTransfer(s.job, s.m, s.cpu.phase.result, false)
  {
    hide Sound, Offending, Body, Bits, Log;
    OutcomeOf(Mend(s));
    var log := [Event.Start] + AsEvents(Bits(SentBytes(s.m)));
    assert (s.m.bus.events + [Event.Stop])[..|s.m.bus.events|] == s.m.bus.events;
    assert (log + [Event.Stop])[..|log|] == log == log + [];
  }

  lemma StopSeen(bits: seq<bool>, stopped: bool)
    ensures Event.Stop in [Event.Start] + AsEvents(bits) + (if stopped then [Event.Stop] else []) <==> stopped
  {
  }

  /** In every run, whatever the device answers, however it stretches the clock, and however the two sides
      interleave over the FIFOs; and a finished run lacks its STOP exactly when some edge was driven while
      the device was holding the clock. */
  lemma {:induction false} Outcome(start: State, moves: seq<Move>)
    requires Begun(start) && Allowed(start, moves)
    ensures var s := After(start, moves);
            s.cpu.phase.Returned? && AllDone(s.m) ==>
              && OneTransfer(start.job, s.m, s.cpu.phase.result, !HeldEdge(start, moves))
              && (Event.Stop in s.m.bus.events <==> !HeldEdge(start, moves))
  {
    hide Sound, Begun, Allowed, After, Missed, HeldEdge, AllDone, Bits, Body, Offending;
    BegunSound(start);
    RunSound(start, moves);
    SameJob(start, moves);
    var s := After(start, moves);
    if s.cpu.phase.Returned? && AllDone(s.m) {
      if HeldEdge(start, moves) { OutcomeWithout(s); } else { OutcomeOf(s); }
      StopSeen(Bits(SentBytes(s.m)), !HeldEdge(start, moves));
    }
  }

  /** The end of a run, with the STOP put back if it was lost. */
  function Repaired(start: State, moves: seq<Move>): State
    requires Allowed(start, moves)
  {
    if HeldEdge(start, moves) then Mend(After(start, moves)) else After(start, moves)
  }

  lemma RunRepaired(start: State, moves: seq<Move>)
    requires Begun(start) && Allowed(start, moves)
    ensures var s := Repaired(start, moves);
            Sound(s) && s.job == start.job && s.cpu == After(start, moves).cpu && s.m.done == After(start, moves).m.done
    ensures After(start, moves).m.bus.events <= Repaired(start, moves).m.bus.events
  {
    hide Sound, Begun, Allowed, After, Freed, HeldEdge;
    BegunSound(start);
    RunSound(start, moves);
    SameJob(start, moves);
  }

  lemma {:induction false} SameJob(s: State, moves: seq<Move>)
    requires Allowed(s, moves)
    ensures After(s, moves).job == s.job
    decreases |moves|
  {
    if moves != [] {
      NextJob(s, moves[0]);
      hide Next, Enabled;
      SameJob(Next(s, moves[0]), moves[1..]);
    }
  }

  lemma NextJob(s: State, v: Move)
    requires Enabled(s, v)
    ensures Next(s, v).job == s.job
  {
    hide SmCycle, PioI2c.Grab, PioI2c.Release, Loop, Took;
  }

  // ----- Reading

  lemma {:induction false} BytesCount(done: seq<Sent>)
    ensures |Bytes(done)| <= RecordItems(Items(done))
    decreases |done|
  {
    if done != [] {
      BytesCount(done[..|done| - 1]);
      assert Items(done)[..|done| - 1] == Items(done[..|done| - 1]);
    }
  }

  lemma PlanRecords(job: Job)
    requires job.mode.Read?
    ensures RecordItems(Plan(job)) == 1 + job.mode.len
  {
    var address, len := [Record(job.addr + [true], false, true)], job.mode.len;
    ClocksShape(len);
    RecordItemsConcat(address, Clocks(len));
    RecordItemsConcat([Item.Start], Body(job));
    RecordItemsConcat([Item.Start] + Body(job), [Item.Stop]);
    assert address[..0] == [] && [Item.Start][..0] == [] && [Item.Stop][..0] == [];
    assert RecordItems(address) == 1 && RecordItems([Item.Start]) == 0 && RecordItems([Item.Stop]) == 0;
  }

  lemma HeardBound(m: Machine)
    ensures |Heard(m)| <= RecordItems(Agenda(m))
  {
    BytesCount(m.done);
    var cur := if m.cur.Some? then [m.cur.value] else [];
    RecordItemsConcat(Items(m.done), cur);
    RecordItemsConcat(Items(m.done) + cur, m.rest);
    if m.cur.Some? { assert [m.cur.value][..0] == []; }
    hide Bytes, Items;
  }

  lemma PrefixRecords(plan: seq<Item>, f: nat)
    requires f <= |plan|
    ensures RecordItems(plan[..f] + [Item.Stop]) <= RecordItems(plan)
  {
    assert plan == plan[..f] + plan[f..];
    RecordItemsConcat(plan[..f], plan[f..]);
    RecordItemsConcat(plan[..f], [Item.Stop]);
    assert [Item.Stop][..0] == [] && RecordItems([Item.Stop]) == 0;
  }

  lemma SoundAgenda(s: State)
    requires Sound(s)
    ensures Agenda(s.m) == Plan(s.job)
         || (s.cpu.failed <= |Plan(s.job)| && Agenda(s.m) == Plan(s.job)[..s.cpu.failed] + [Item.Stop])
  {
    hide Steady, Hearing, InStep, Agenda, Unoffended, Offending, Finished, BytesOver, Plan;
  }

  lemma AgendaRecords(s: State)
    requires Sound(s) && s.job.mode.Read?
    ensures RecordItems(Agenda(s.m)) <= 1 + s.job.mode.len
  {
    hide Sound, Agenda, Plan;
    SoundAgenda(s);
    PlanRecords(s.job);
    if Agenda(s.m) != Plan(s.job) { PrefixRecords(Plan(s.job), s.cpu.failed); }
  }

  lemma SoundHearing(s: State)
    requires Sound(s) && s.job.mode.Read?
    ensures s.cpu.first == (s.cpu.popped == []) && s.cpu.rxbuf == (if s.cpu.first then [] else s.cpu.popped[1..])
    ensures s.cpu.phase.Starting? || s.cpu.phase.Flushing? || s.cpu.popped + s.m.rx == Heard(s.m)
    ensures s.cpu.phase.Starting? || s.cpu.phase.Flushing? ==> s.cpu.popped == []
  {
    hide Steady, InStep, OnPlan, BrokenOff, Heard, Partial;
  }

  /** The read loop never stores past the buffer. */
  lemma NoOverrun(start: State, moves: seq<Move>)
    requires Begun(start) && Allowed(start, moves) && start.job.mode.Read?
    ensures |After(start, moves).cpu.rxbuf| <= start.job.mode.len
  {
    hide Sound, Begun, Allowed, After, Heard, Agenda, Repaired;
    RunRepaired(start, moves);
    var s := Repaired(start, moves);
    SoundHearing(s);
    AgendaRecords(s);
    HeardBound(s.m);
  }

  lemma {:induction false} BytesOfRecords(start: Sent, records: seq<Sent>)
    requires start.item.Start? && forall s <- records :: s.item.Record? && Complete(s)
    ensures var bytes := Bytes([start] + records);
            |bytes| == |records| && forall i :: 0 <= i < |records| ==> bytes[i] == OnWire(records[i])
  {
    hide OnWire, Complete;
    if records == [] {
      assert [start] + records == [] + [start];
      BytesNext([], start);
    } else {
      var front, s := records[..|records| - 1], records[|records| - 1];
      assert s in records;
      BytesOfRecords(start, front);
      assert [start] + records == ([start] + front) + [s];
      BytesNext([start] + front, s);
    }
  }

  lemma BytesOfTransfer(done: seq<Sent>)
    requires Transfer(done)
    ensures var sent := done[1..|done| - 1];
            |Bytes(done)| == |sent| && forall i :: 0 <= i < |sent| ==> Bytes(done)[i] == OnWire(sent[i])
  {
    var n := |done|;
    assert done == ([done[0]] + done[1..n - 1]) + [done[n - 1]];
    BytesNext([done[0]] + done[1..n - 1], done[n - 1]);
    BytesOfRecords(done[0], done[1..n - 1]);
    hide Bytes, OnWire;
  }

  /** Reading back the wire through all ones gives what the device put there. */
  lemma OnesTransparent(s: Sent)
    requires s.item.Record? && s.item.data == Ones() && Complete(s)
    ensures OnWire(s) == s.cells[..8]
  {
    assert forall i :: 0 <= i < 8 ==> Ones()[i];
  }

  /** `len` bytes are clocked after the address, all but the last acknowledged by the master, and the
      buffer receives what the device drove in them, in order. */
  predicate ReadDelivered(len: nat, sent: seq<Sent>, rxbuf: seq<seq<bool>>) {
    && |sent| == 1 + len && |rxbuf| == len
    && forall i :: 0 <= i < len ==>
         && sent[1 + i].item == Record(Ones(), i == len - 1, i == len - 1)
         && Complete(sent[1 + i]) && rxbuf[i] == sent[1 + i].cells[..8]
  }

  lemma ReturnedFilled(s: State)
    requires Sound(s) && s.cpu.phase == Returned(0)
    ensures Filled(s) && AllDone(s.m)
  {
    hide Steady, Hearing, BrokenOff, Item.Words, AllWords, Plan, Unoffended, Agenda;
    NotBroken(s);
  }

  lemma Delivered(job: Job, sent: seq<Sent>, bytes: seq<seq<bool>>)
    requires job.mode.Read? && Items(sent) == Body(job) && forall s <- sent :: Complete(s)
    requires |bytes| == |sent| && forall i :: 0 <= i < |sent| ==> bytes[i] == OnWire(sent[i])
    ensures |bytes| == 1 + job.mode.len && ReadDelivered(job.mode.len, sent, bytes[1..])
  {
    hide OnWire;
    var len, got := job.mode.len, bytes[1..];
    ClocksShape(len);
    hide Clocks;
    forall i | 0 <= i < len
      ensures sent[1 + i].item == Record(Ones(), i == len - 1, i == len - 1)
           && Complete(sent[1 + i]) && got[i] == sent[1 + i].cells[..8]
    {
      assert sent[1 + i].item == Items(sent)[1 + i] == Clocks(len)[i];
      assert sent[1 + i] in sent;
      OnesTransparent(sent[1 + i]);
    }
  }

  /** When the buffer is full, nothing is left in the FIFO. */
  lemma PoppedAll(popped: seq<seq<bool>>, rx: seq<seq<bool>>, rxbuf: seq<seq<bool>>, len: nat)
    requires rxbuf == (if popped == [] then [] else popped[1..]) && |rxbuf| == len && |popped + rx| == 1 + len
    ensures rxbuf == (popped + rx)[1..]
  {
  }

  lemma ReadOf(s: State)
    requires Sound(s) && s.cpu.phase == Returned(0) && s.job.mode.Read?
    ensures |s.m.done| >= 2 && ReadDelivered(s.job.mode.len, SentBytes(s.m), s.cpu.rxbuf)
  {
    hide Sound, Log, Heard, Agenda, AllDone, Body, ReadDelivered, Bytes, OnWire, Complete;
    ReturnedFilled(s);
    TransferDone(s);
    SuccessSent(s);
    SoundHearing(s);
    BytesOfTransfer(s.m.done);
    HeardAtRest(s.m);
    Delivered(s.job, SentBytes(s.m), Bytes(s.m.done));
    PoppedAll(s.cpu.popped, s.m.rx, s.cpu.rxbuf, s.job.mode.len);
  }

  /** A read that returns 0 was answered to its address. */
  lemma ReadAnswered(s: State)
    requires Sound(s) && s.cpu.phase == Returned(0) && s.job.mode.Read?
    ensures |s.m.done| >= 3 && AddressSent(s.job, SentBytes(s.m)[0])
    ensures Complete(SentBytes(s.m)[0]) && !SentBytes(s.m)[0].cells[8]
  {
    hide Sound, AddressSent, DataSent, Bits, Offending, Filled;
    ReturnedFilled(s);
    OutcomeOf(s);
  }

  lemma HeardAtRest(m: Machine)
    requires AllDone(m)
    ensures Heard(m) == Bytes(m.done)
  {
  }

  /** Every run of a read that returns 0 has been answered to its address and delivered the device's bytes. */
  lemma ReadOutcome(start: State, moves: seq<Move>)
    requires Begun(start) && Allowed(start, moves) && start.job.mode.Read?
    ensures var s := After(start, moves);
            s.cpu.phase == Returned(0) ==>
            |s.m.done| >= 3 && ReadDelivered(start.job.mode.len, SentBytes(s.m), s.cpu.rxbuf)
            && var address := SentBytes(s.m)[0];
               AddressSent(start.job, address) && Complete(address) && !address.cells[8]
  {
    hide Sound, Begun, Allowed, After, ReadDelivered, Repaired, AddressSent, Complete;
    RunRepaired(start, moves);
    if After(start, moves).cpu.phase == Returned(0) {
      ReadOf(Repaired(start, moves));
      ReadAnswered(Repaired(start, moves));
    }
  }

  /** A bus scan is right: a read of no bytes returns 0 exactly when some device answers to the address. */
  lemma BusScan(start: State, moves: seq<Move>)
    requires Begun(start) && Allowed(start, moves) && start.job.mode == Read(0)
    ensures var s := After(start, moves);
            s.cpu.phase.Returned? && AllDone(s.m) ==>
              && |s.m.done| == 3 && AddressSent(start.job, s.m.done[1]) && Complete(s.m.done[1])
              && (s.cpu.phase.result == 0 <==> !s.m.done[1].cells[8])
  {
    hide Sound, Begun, Allowed, After, HeldEdge, Bits, AllDone;
    Outcome(start, moves);
    var s := After(start, moves);
    if s.cpu.phase.Returned? && AllDone(s.m) {
      assert SentBytes(s.m)[0] == s.m.done[1] && Last(SentBytes(s.m)) == s.m.done[1];
    }
  }

  // ----- Writing

  /** A byte the device leaves SDA alone for is on the wire as it was written. */
  lemma WrittenByte(s: Sent)
    requires s.item.Record? && Complete(s) && forall i :: 0 <= i < 8 ==> s.cells[i]
    ensures OnWire(s) == s.item.data
  {
    assert forall i :: 0 <= i < 8 ==> s.item.Driven()[i] == s.item.data[i];
  }

  // ----- The wires at every moment

  lemma {:induction false} LogClean(done: seq<Sent>)
    ensures Glitch !in Log(done)
  {
    if done != [] { LogClean(done[..|done| - 1]); }
  }

  lemma PlacedClean(m: Machine)
    requires Placed(m)
    ensures Glitch !in m.bus.events
  {
    hide Log, Wire;
    LogClean(m.done);
    if m.cur.Some? && m.cur.value.Record? && m.core.pc < 12 {
      RecordClean(m, m.cur.value);
    }
  }

  lemma RecordClean(m: Machine, item: Item)
    requires item.Record? && InRecord(m, item)
    ensures Glitch !in m.bus.events
  {
    LogClean(m.done);
    RecordTied(m, item);
    if CellPc(m.core.pc) {
      hide InRecord, Log, Wire;
      OpenCell(m, item);
    } else if m.core.pc != 2 {
      hide InRecord, Log, Wire;
      OpenBefore(m, item);
    }
  }

  /** The two wires never move in the same instant under a high clock. */
  lemma NoGlitch(start: State, moves: seq<Move>)
    requires Begun(start) && Allowed(start, moves)
    ensures Glitch !in After(start, moves).m.bus.events
  {
    hide Sound, Begun, Allowed, After, Placed, Repaired;
    RunRepaired(start, moves);
    var s := Repaired(start, moves);
    SoundSteady(s);
    PlacedClean(Settled(s.m));
  }

  /** The escape sequences do not wait for a stretched clock: at the last step of a STOP the bus sees it
      exactly when the device is not holding the clock. If it is, letting go later frees the wires
      without a STOP ever having been seen. */
  lemma StopEdge(m: Machine, dev: bool, pend: seq<seq<bool>>)
    requires Steady(m, pend) && m.cur == Some(Item.Stop) && m.k == 2
    requires m.core.pc == 16 && m.core.delay == 0 && m.tx != []
    ensures var after := SmCycle(m, dev);
            && after.bus.events == m.bus.events + (if m.hold then [] else [Event.Stop])
            && var freed := PioI2c.Release(after);
               freed.bus.events == after.bus.events && freed.bus.scl && freed.bus.sda
  {
    hide SmCycle, Balanced, SetSclSda, Log;
    assert Settled(m) == m;
    ExecBalanced(m.done, Item.Stop, m.k, m.rest, m.tx, pend);
    ExecEffect(m, dev, true, true);
  }
}
