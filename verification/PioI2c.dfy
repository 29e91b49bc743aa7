/** The I2C state machine of pio/i2c/i2c.pio, driven by the words the processor queues for it. */
module PioI2c {
  import opened Wrappers
  import opened Pio
  import opened I2cBus
  import opened PioI2cWords

  function I2cInstr(pc: nat): Instr {
    match pc
    case 0 => Instr(Jmp(YPostDecrement, 12), None, 0)       // do_nack
    case 1 => Instr(IrqWait, None, 0)
    case 2 => Instr(SetX(7), None, 0)                       // do_byte
    case 3 => Instr(Out(ToPin, 1), None, 7)                 // bitloop
    case 4 => Instr(Nop, Some(true), 2)
    case 5 => Instr(Wait(true), None, 4)
    case 6 => Instr(In(FromPin), None, 7)
    case 7 => Instr(Jmp(XPostDecrement, 3), Some(false), 7)
    case 8 => Instr(Out(ToPin, 1), None, 7)                 // ACK pulse
    case 9 => Instr(Nop, Some(true), 7)
    case 10 => Instr(Wait(true), None, 7)
    case 11 => Instr(Jmp(PinHigh, 0), Some(false), 2)
    case 12 => Instr(Out(ToX, 6), None, 0)                  // entry_point
    case 13 => Instr(Out(ToY, 1), None, 0)
    case 14 => Instr(Jmp(XZero, 2), None, 0)
    case 15 => Instr(Out(ToNull, 32), None, 0)
    case 16 => Instr(Out(ToExec, 16), None, 0)              // do_exec
    case _ => Instr(Jmp(XPostDecrement, 16), None, 0)
  }

  // ----- The machine on the bus

  /** An item carried out, with what the device put on SDA in each bit cell (true: released). */
  datatype Sent = Sent(item: Item, cells: seq<bool>)

  /** The state machine, its FIFOs and the bus. `dev` is the device's side of SDA, `hold` whether it
      is stretching the clock. `done`, `cur`, `k`, `cells` and `rest` only record progress: what has
      been carried out, the item under way with the escape instructions or bit cells it has
      reached, and what is still to come. */
  datatype Machine = Machine(
    core: Core, dev: bool, hold: bool, bus: Bus,
    tx: seq<seq<bool>>, rx: seq<seq<bool>>, rxOn: bool, starved: bool,
    done: seq<Sent>, cur: Option<Item>, k: nat, cells: seq<bool>, rest: seq<Item>)

  /** One cycle; `dev` is what the device drives if a new bit cell begins. */
  function SmCycle(m: Machine, dev: bool): Machine {
    var pc := m.core.pc;
    var env := Env(m.bus.scl, m.bus.sda, if m.tx == [] then None else Some(m.tx[0]), |m.rx| < 4);
    var cycle := Step(I2cInstr(pc), if pc == 17 then 12 else pc + 1, if m.rxOn then Some(8) else None, m.core, env);
    var dev := if m.core.delay > 0 then m.dev
               else if pc == 3 || pc == 8 then dev
               else if pc == 16 && cycle.pulled then true
               else m.dev;
    Noted(m, cycle.pulled, dev).(
      core := cycle.core,
      dev := dev,
      bus := Observe(m.bus, cycle.core.side && !m.hold, cycle.core.pin && dev),
      tx := if cycle.pulled then m.tx[1..] else m.tx,
      rx := if cycle.pushed.Some? then m.rx + [cycle.pushed.value] else m.rx,
      starved := m.starved || cycle.starved)
  }

  /** The progress record after the cycle. */
  function Noted(m: Machine, pulled: bool, dev: bool): Machine {
    var pc := m.core.pc;
    if m.core.delay > 0 then m
    else if pc == 12 && pulled && m.rest != [] then
      m.(cur := Some(m.rest[0]), rest := m.rest[1..], k := 0, cells := [])
    else if pc == 16 && pulled && m.cur.Some? then
      if m.k + 1 < |m.cur.value.Levels()| then m.(k := m.k + 1)
      else m.(cur := None, done := m.done + [Sent(m.cur.value, [])])
    else if pc == 3 || pc == 8 then
      m.(cells := m.cells + [dev])
    else if pc == 11 && m.cur.Some? then
      m.(cur := None, done := m.done + [Sent(m.cur.value, m.cells)])
    else m
  }

  /** The device starts stretching the clock. It may only do so while SCL is low. */
  function Grab(m: Machine): Machine
    requires !m.bus.scl
  {
    m.(hold := true)
  }

  function Release(m: Machine): Machine {
    m.(hold := false, bus := Observe(m.bus, m.core.side, m.bus.sda))
  }

  /** Whether this cycle moves SDA under a released clock, as the START and STOP edges do. */
  predicate EdgeDue(m: Machine) {
    m.core.delay == 0 && m.core.pc == 16 && m.tx != [] && m.core.side
    && exists sda :: m.tx[0] == SetSclSda(true, sda) && sda != m.core.pin
  }

  // ----- What the watcher should have seen

  function Wire(driven: seq<bool>, cells: seq<bool>): (w: seq<bool>)
    requires |cells| <= |driven|
    ensures |w| == |cells| && forall i :: 0 <= i < |w| ==> w[i] == (driven[i] && cells[i])
  {
    seq(|cells|, i requires 0 <= i < |cells| => driven[i] && cells[i])
  }

  function AsEvents(bits: seq<bool>): (events: seq<Event>)
    ensures |events| == |bits| && forall i :: 0 <= i < |bits| ==> events[i] == Bit(bits[i])
  {
    seq(|bits|, i requires 0 <= i < |bits| => Bit(bits[i]))
  }

  predicate Complete(s: Sent) {
    |s.cells| == if s.item.Record? then 9 else 0
  }

  function EventsOf(s: Sent): seq<Event> {
    match s.item
    case Start => [Event.Start]
    case Restart => [Event.Start]
    case Stop => [Event.Stop]
    case Record(_, _, _) => if Complete(s) then AsEvents(Wire(s.item.Driven(), s.cells)) else []
  }

  function Log(done: seq<Sent>): seq<Event> {
    if done == [] then [] else Log(done[..|done| - 1]) + EventsOf(done[|done| - 1])
  }

  /** Whether the bus is free after these items, from a free bus. */
  predicate Idle(done: seq<Sent>) {
    done == [] || done[|done| - 1].item.Stop?
  }

  /** START only from a free bus; everything else only inside a transfer. */
  predicate WellOrdered(idle: bool, items: seq<Item>)
    decreases |items|
  {
    items != [] ==> items[0].Start? == idle && WellOrdered(items[0].Stop?, items[1..])
  }

  /** The words that carry the rest of the work, after those the machine has taken. */
  function WordsLeft(cur: Option<Item>, k: nat, rest: seq<Item>): seq<seq<bool>> {
    (if cur.Some? && k <= |cur.value.Levels()| then Instructions(cur.value.Levels()[k..]) else []) + AllWords(rest)
  }

  /** The books balance: items come in an order that makes sense, and the queue holds exactly a
      first part of the words left, `pend` being what the processor has yet to push. */
  predicate Balanced(done: seq<Sent>, cur: Option<Item>, k: nat, rest: seq<Item>,
                     tx: seq<seq<bool>>, pend: seq<seq<bool>>) {
    && (forall s <- done :: Complete(s))
    && WellOrdered(Idle(done), (if cur.Some? then [cur.value] else []) + rest)
    && tx + pend == WordsLeft(cur, k, rest)
  }

  predicate Nakked(s: Sent) {
    s.item.Record? && |s.cells| == 9 && s.item.nak && s.cells[8]
  }

  /** A byte the machine stops at: not acknowledged, and not marked Final. */
  predicate Offending(s: Sent) {
    Nakked(s) && !s.item.final
  }

  // ----- The invariant, one clause per place in the program

  /** The wires carry what the two ends drive. */
  predicate Tied(m: Machine) {
    m.bus.scl == (m.core.side && !m.hold) && m.bus.sda == (m.core.pin && m.dev)
  }

  /** Between items: SCL low in a transfer, both wires released otherwise. */
  predicate Between(m: Machine) {
    && m.bus.sampled == None && m.bus.events == Log(m.done)
    && if Idle(m.done) then m.core.side && m.core.pin && m.dev && !m.hold else !m.core.side
  }

  /** After `k` instructions of an escape. */
  predicate InEscape(m: Machine, item: Item)
    requires m.k <= |item.Levels()|
  {
    if m.k == 0 then Between(m)
    else
      var (scl, sda) := item.Levels()[m.k - 1];
      && m.core.side == scl && m.core.pin == sda && m.dev
      && match item
         case Start => m.k == 1 && !m.hold && m.bus.sampled == None && m.bus.events == Log(m.done) + [Event.Start]
         case Restart =>
           if m.k == 3 then !m.hold && m.bus.sampled == None && m.bus.events == Log(m.done) + [Event.Start]
           else m.bus.sampled == (if m.k == 2 && !m.hold then Some(true) else None) && m.bus.events == Log(m.done)
         case Stop =>
           m.bus.sampled == (if m.k == 2 && !m.hold then Some(false) else None) && m.bus.events == Log(m.done)
         case Record(_, _, _) => false
  }

  /** In bit cell `i` of a record, `clock` telling whether the master has released SCL. */
  predicate InCell(m: Machine, item: Item, i: nat, clock: bool)
    requires item.Record? && i < 9
  {
    && Tied(m) && FinalFlag(m, item)
    && |m.cells| == i + 1 && m.core.osr == item.Driven()[i + 1..]
    && m.core.side == clock && m.core.pin == item.Driven()[i] && m.dev == m.cells[i]
    && m.bus.sampled == (if clock && !m.hold then Some(m.core.pin && m.dev) else None)
    && m.bus.events == Log(m.done) + AsEvents(Wire(item.Driven(), m.cells[..i]))
  }

  /** About to begin bit cell `i`. */
  predicate BeforeCell(m: Machine, item: Item, i: nat)
    requires item.Record? && i < 9
  {
    && Tied(m) && FinalFlag(m, item)
    && |m.cells| == i && m.core.osr == item.Driven()[i..]
    && !m.core.side && m.bus.sampled == None
    && m.bus.events == Log(m.done) + AsEvents(Wire(item.Driven(), m.cells))
  }

  predicate FinalFlag(m: Machine, item: Item)
    requires item.Record?
  {
    m.core.y == if item.final then 1 else 0
  }

  /** In a record: the data loop, then the acknowledge cell. */
  predicate InRecord(m: Machine, item: Item)
    requires item.Record?
  {
    var pc, x := m.core.pc, m.core.x;
    match pc
    case 2 => Tied(m) && FinalFlag(m, item) && m.core.osr == item.Driven() && m.cells == []
              && Between(m) && !m.core.side
    case 3 => x <= 7 && BeforeCell(m, item, 7 - x)
    case 4 => x <= 7 && InCell(m, item, 7 - x, false)
    case 5 => x <= 7 && InCell(m, item, 7 - x, true)
    case 6 => x <= 7 && InCell(m, item, 7 - x, true) && !m.hold
    case 7 => x <= 7 && InCell(m, item, 7 - x, true) && !m.hold
    case 8 => BeforeCell(m, item, 8)
    case 9 => InCell(m, item, 8, false)
    case 10 => InCell(m, item, 8, true)
    case 11 => InCell(m, item, 8, true) && !m.hold
    case _ => false
  }

  predicate InItem(m: Machine, item: Item) {
    var pc, c := m.core.pc, m.core;
    match pc
    case 13 => m.k == 0 && m.cells == [] && c.osr == item.Header()[6..] && Between(m)
               && c.x == (if item.Record? then 0 else |item.Levels()| - 1)
    case 14 => m.k == 0 && m.cells == [] && c.osr == item.Header()[7..] && Between(m)
               && c.x == (if item.Record? then 0 else |item.Levels()| - 1)
               && (item.Record? ==> FinalFlag(m, item))
    case 15 => !item.Record? && m.k == 0 && c.osr != [] && |c.osr| <= 32 && Between(m) && c.x == |item.Levels()| - 1
    case 16 => !item.Record? && m.k < |item.Levels()| && c.osr == []
               && c.x == |item.Levels()| - 1 - m.k && InEscape(m, item)
    case 17 => !item.Record? && 0 < m.k < |item.Levels()| && c.osr == []
               && c.x == |item.Levels()| - m.k && InEscape(m, item)
    case _ => item.Record? && m.k == 0 && InRecord(m, item)
  }

  predicate AtRest(m: Machine) {
    var pc, c := m.core.pc, m.core;
    && (pc == 12 || pc == 0 || pc == 1 || (pc == 17 && c.x == 0))
    && c.osr == [] && Between(m)
    && (pc == 0 ==> m.done != [] && Nakked(Last(m.done)) && FinalFlag(m, Last(m.done).item))
    && (pc == 1 ==> m.done != [] && Offending(Last(m.done)))
  }

  function Last(done: seq<Sent>): Sent
    requires done != []
  {
    done[|done| - 1]
  }

  predicate Placed(m: Machine) {
    && Tied(m)
    && (m.core.parked ==> m.core.pc == 1 && m.core.irq)
    && if m.cur.Some? then InItem(m, m.cur.value) else AtRest(m)
  }

  /** Delay cycles change nothing. */
  function Settled(m: Machine): Machine {
    m.(core := m.core.(delay := 0))
  }

  predicate Steady(m: Machine, pend: seq<seq<bool>>) {
    Balanced(m.done, m.cur, m.k, m.rest, m.tx, pend) && Placed(Settled(m))
  }

  // ----- What one cycle does, place by place

  lemma DelayEffect(m: Machine, dev: bool)
    requires Tied(m) && m.core.delay > 0
    ensures SmCycle(m, dev) == m.(core := m.core.(delay := m.core.delay - 1))
  {
  }

  lemma NackEffect(m: Machine, dev: bool)
    requires Tied(m) && m.core.delay == 0 && m.core.pc == 0
    ensures SmCycle(m, dev) == m.(core := m.core.(pc := if m.core.y != 0 then 12 else 1, y := Decrement(m.core.y)))
  {
  }

  lemma ParkEffect(m: Machine, dev: bool)
    requires Tied(m) && m.core.delay == 0 && m.core.pc == 1 && (m.core.parked ==> m.core.irq)
    ensures SmCycle(m, dev) == m.(core := m.core.(irq := true, parked := true))
  {
  }

  lemma ByteEffect(m: Machine, dev: bool)
    requires Tied(m) && m.core.delay == 0 && m.core.pc == 2
    ensures SmCycle(m, dev) == m.(core := m.core.(pc := 3, x := 7))
  {
  }

  lemma CellEffect(m: Machine, dev: bool)
    requires Tied(m) && m.core.delay == 0 && (m.core.pc == 3 || m.core.pc == 8) && m.core.osr != []
    ensures var pin := m.core.osr[0];
            SmCycle(m, dev) == m.(
              core := m.core.(pc := m.core.pc + 1, delay := 7, osr := m.core.osr[1..], pin := pin),
              dev := dev, cells := m.cells + [dev], bus := Observe(m.bus, m.bus.scl, pin && dev))
  {
    assert m.core.osr[..1] == [m.core.osr[0]];
  }

  lemma ClockEffect(m: Machine, dev: bool)
    requires Tied(m) && m.core.delay == 0 && (m.core.pc == 4 || m.core.pc == 9)
    ensures SmCycle(m, dev) == m.(
              core := m.core.(pc := m.core.pc + 1, delay := if m.core.pc == 4 then 2 else 7, side := true),
              bus := Observe(m.bus, !m.hold, m.bus.sda))
  {
  }

  lemma StretchEffect(m: Machine, dev: bool)
    requires Tied(m) && m.core.delay == 0 && (m.core.pc == 5 || m.core.pc == 10)
    ensures SmCycle(m, dev) ==
            if m.bus.scl then m.(core := m.core.(pc := m.core.pc + 1, delay := if m.core.pc == 5 then 4 else 7)) else m
  {
  }

  lemma SampleEffect(m: Machine, dev: bool)
    requires Tied(m) && m.core.delay == 0 && m.core.pc == 6
    ensures var isr := m.core.isr + [m.bus.sda];
            SmCycle(m, dev) ==
            if m.rxOn && |isr| >= 8 then
              if |m.rx| < 4 then m.(core := m.core.(pc := 7, delay := 7, isr := []), rx := m.rx + [isr]) else m
            else m.(core := m.core.(pc := 7, delay := 7, isr := if |isr| > 32 then isr[1..] else isr))
  {
  }

  lemma FallEffect(m: Machine, dev: bool)
    requires Tied(m) && m.core.delay == 0 && m.core.pc == 7
    ensures SmCycle(m, dev) == m.(
              core := m.core.(pc := if m.core.x != 0 then 3 else 8, delay := 7,
                              x := Decrement(m.core.x), side := false),
              bus := Observe(m.bus, false, m.bus.sda))
  {
  }

  lemma AckEffect(m: Machine, dev: bool)
    requires Tied(m) && m.core.delay == 0 && m.core.pc == 11 && m.cur.Some?
    ensures SmCycle(m, dev) == m.(
              core := m.core.(pc := if m.bus.sda then 0 else 12, delay := 2, side := false),
              bus := Observe(m.bus, false, m.bus.sda),
              cur := None, done := m.done + [Sent(m.cur.value, m.cells)])
  {
  }

  lemma FetchEffect(m: Machine, dev: bool)
    requires Tied(m) && m.core.delay == 0 && m.core.pc == 12 && m.core.osr == []
    requires m.tx != [] && m.rest != [] && |m.tx[0]| == 16
    ensures SmCycle(m, dev) ==
            m.(core := m.core.(pc := 13, osr := m.tx[0][6..], x := Value(m.tx[0][..6])), tx := m.tx[1..],
               cur := Some(m.rest[0]), rest := m.rest[1..], k := 0, cells := [])
  {
  }

  lemma FlagEffect(m: Machine, dev: bool)
    requires Tied(m) && m.core.delay == 0 && m.core.pc == 13 && m.core.osr != []
    ensures SmCycle(m, dev) == m.(core := m.core.(pc := 14, osr := m.core.osr[1..], y := Value(m.core.osr[..1])))
  {
  }

  lemma BranchEffect(m: Machine, dev: bool)
    requires Tied(m) && m.core.delay == 0 && m.core.pc == 14
    ensures SmCycle(m, dev) == m.(core := m.core.(pc := if m.core.x == 0 then 2 else 15))
  {
  }

  lemma DiscardEffect(m: Machine, dev: bool)
    requires Tied(m) && m.core.delay == 0 && m.core.pc == 15 && 0 < |m.core.osr| <= 32
    ensures SmCycle(m, dev) == m.(core := m.core.(pc := 16, osr := []))
  {
  }

  lemma ExecEffect(m: Machine, dev: bool, scl: bool, sda: bool)
    requires Tied(m) && m.core.delay == 0 && m.core.pc == 16 && m.core.osr == [] && m.cur.Some?
    requires m.tx != [] && m.tx[0] == SetSclSda(scl, sda)
    ensures SmCycle(m, dev) ==
            Noted(m, true, true).(
              core := m.core.(pc := 17, side := scl, pin := sda, delay := 7), tx := m.tx[1..], dev := true,
              bus := Observe(m.bus, scl && !m.hold, sda))
  {
    ExecStep(m.core, scl, sda, Env(m.bus.scl, m.bus.sda, Some(m.tx[0]), |m.rx| < 4), if m.rxOn then Some(8) else None);
    hide Step, SetSclSda, Observe;
  }

  lemma StarveEffect(m: Machine, dev: bool)
    requires Tied(m) && m.core.delay == 0 && (m.core.pc == 12 || m.core.pc == 16) && m.core.osr == [] && m.tx == []
    ensures SmCycle(m, dev) == m.(starved := true)
  {
  }

  lemma ExecStep(c: Core, scl: bool, sda: bool, env: Env, push: Option<nat>)
    requires c.delay == 0 && c.pc == 16 && c.osr == [] && env.tx == Some(SetSclSda(scl, sda))
    ensures Step(I2cInstr(16), 17, push, c, env)
         == Cycle(c.(pc := 17, side := scl, pin := sda, delay := 7), true, None, false)
  {
    var w := SetSclSda(scl, sda);
    assert w[..16] == w && w[16..] == [];
    EscapeExecutes(scl, sda, c.(pc := 17, delay := 0, osr := []));
    hide Executed, SetSclSda;
  }

  lemma RepeatEffect(m: Machine, dev: bool)
    requires Tied(m) && m.core.delay == 0 && m.core.pc == 17
    ensures SmCycle(m, dev) == m.(core := m.core.(pc := if m.core.x != 0 then 16 else 12, x := Decrement(m.core.x)))
  {
  }

  // ----- The order of work

  function Items(done: seq<Sent>): (items: seq<Item>)
    ensures |items| == |done| && forall i :: 0 <= i < |items| ==> items[i] == done[i].item
  {
    seq(|done|, i requires 0 <= i < |done| => done[i].item)
  }

  /** Everything carried out, under way and to come. */
  function Agenda(m: Machine): seq<Item> {
    Items(m.done) + (if m.cur.Some? then [m.cur.value] else []) + m.rest
  }

  /** No byte has been left unacknowledged, except that the last one may be what the machine is
      about to stop or has stopped at; and it raises its flag only when stopped. */
  predicate Unoffended(m: Machine) {
    && (forall i :: 0 <= i < |m.done| && Offending(m.done[i]) ==>
          i == |m.done| - 1 && (m.core.pc == 0 || m.core.pc == 1))
    && (m.core.irq ==> m.core.parked && m.core.pc == 1)
  }

  /** No data byte is under way or to come, nor any acknowledge still to be judged. */
  predicate BytesOver(m: Machine) {
    m.core.pc >= 2 && (m.cur.Some? ==> !m.cur.value.Record?) && forall item <- m.rest :: !item.Record?
  }

  /** Nothing dropped from the agenda, no running past an offending byte, and no error flag
      without a data byte. */
  predicate Story(m: Machine, m': Machine) {
    && Agenda(m') == Agenda(m) && m.done <= m'.done
    && (Unoffended(m) ==> Unoffended(m'))
    && (BytesOver(m) ==> BytesOver(m') && m'.core.irq == m.core.irq)
  }

  lemma QuietStory(m: Machine, m': Machine)
    requires m'.done == m.done && m'.cur == m.cur && m'.rest == m.rest && m'.core.irq == m.core.irq
    requires m.core.pc >= 2 && m'.core.pc >= 2
    ensures Story(m, m')
  {
  }

  lemma GrownStory(m: Machine, m': Machine, s: Sent)
    requires m'.done == m.done + [s] && m.cur == Some(s.item) && m'.cur.None? && m'.rest == m.rest
    requires m.core.pc >= 2 && m'.core.irq == m.core.irq && (Offending(s) ==> m'.core.pc == 0)
    requires s.item.Record? || m'.core.pc >= 2
    ensures Story(m, m')
  {
    assert Items(m.done + [s]) == Items(m.done) + [s.item];
  }

  lemma FetchStory(m: Machine, m': Machine)
    requires m.cur.None? && m.rest != [] && m.core.pc >= 2
    requires m'.done == m.done && m'.cur == Some(m.rest[0]) && m'.rest == m.rest[1..] && m'.core.irq == m.core.irq
    requires m'.core.pc >= 2
    ensures Story(m, m')
  {
    var before := Items(m.done);
    assert m.rest == [m.rest[0]] + m.rest[1..];
    assert before + [] + m.rest == before + [m.rest[0]] + m.rest[1..];
  }

  lemma DelayStory(m: Machine, m': Machine)
    requires m' == m.(core := m.core.(delay := m'.core.delay))
    ensures Story(m, m')
  {
  }

  lemma NackStory(m: Machine, m': Machine)
    requires m.cur.None? && AtRest(m) && m.core.pc <= 1 && m' == m.(core := m'.core)
    requires m.core.pc == 0 ==> m'.core.irq == m.core.irq && m'.core.pc == (if m.core.y != 0 then 12 else 1)
    requires m.core.pc == 1 ==> m'.core.pc == 1 && m'.core.parked
    ensures Story(m, m')
  {
    hide Log, Between;
  }

  // ----- Every cycle keeps the invariant

  lemma DelayKeeps(m: Machine, dev: bool, pend: seq<seq<bool>>)
    requires Steady(m, pend) && m.core.delay > 0
    ensures Steady(SmCycle(m, dev), pend) && Story(m, SmCycle(m, dev))
  {
    assert Tied(m);
    DelayEffect(m, dev);
    hide SmCycle, Placed, Balanced;
    DelayStory(m, SmCycle(m, dev));
    hide Story;
    assert Settled(SmCycle(m, dev)) == Settled(m);
  }

  lemma BeginCell(m: Machine, item: Item, i: nat, dev: bool)
    requires item.Record? && i < 9 && BeforeCell(m, item, i)
    ensures var pin := item.Driven()[i];
            InCell(m.(core := m.core.(pc := m.core.pc + 1, osr := m.core.osr[1..], pin := pin),
                      dev := dev, cells := m.cells + [dev], bus := Observe(m.bus, m.bus.scl, pin && dev)),
                   item, i, false)
  {
    hide Log;
    assert (m.cells + [dev])[..i] == m.cells;
  }

  lemma RaiseClock(m: Machine, item: Item, i: nat)
    requires item.Record? && i < 9 && InCell(m, item, i, false)
    ensures InCell(m.(core := m.core.(pc := m.core.pc + 1, side := true), bus := Observe(m.bus, !m.hold, m.bus.sda)),
                   item, i, true)
  {
    hide Log;
  }

  /** The falling clock edge completes the cell. */
  lemma DropClock(m: Machine, item: Item, i: nat)
    requires item.Record? && i < 9 && InCell(m, item, i, true) && !m.hold
    ensures var bus := Observe(m.bus, false, m.bus.sda);
            !bus.scl && bus.sda == m.bus.sda && bus.sampled == None
            && bus.events == Log(m.done) + AsEvents(Wire(item.Driven(), m.cells))
  {
    hide Log;
    var before := AsEvents(Wire(item.Driven(), m.cells[..i]));
    assert AsEvents(Wire(item.Driven(), m.cells)) == before + [Bit(m.bus.sda)];
    assert Log(m.done) + before + [Bit(m.bus.sda)] == Log(m.done) + (before + [Bit(m.bus.sda)]);
  }

  /** The same work outstanding. */
  predicate SameBooks(m: Machine, m': Machine) {
    m'.done == m.done && m'.cur == m.cur && m'.k == m.k && m'.rest == m.rest && m'.tx == m.tx
    && m'.core.parked == m.core.parked && m'.core.irq == m.core.irq
  }

  predicate CellPc(pc: nat) {
    4 <= pc <= 7 || 9 <= pc <= 11
  }

  /** Which bit cell the program is in. */
  function CellIndex(c: Core): int {
    if c.pc <= 7 then 7 - c.x else 8
  }

  lemma OpenCell(m: Machine, item: Item)
    requires item.Record? && InRecord(m, item) && CellPc(m.core.pc)
    ensures 0 <= CellIndex(m.core) <= 8 && InCell(m, item, CellIndex(m.core), m.core.pc != 4 && m.core.pc != 9)
    ensures m.core.pc == 6 || m.core.pc == 7 || m.core.pc == 11 ==> !m.hold
  {
    hide InCell;
  }

  lemma CloseCell(m: Machine, item: Item)
    requires item.Record? && CellPc(m.core.pc) && 0 <= CellIndex(m.core)
    requires InCell(m, item, CellIndex(m.core), m.core.pc != 4 && m.core.pc != 9)
    requires m.core.pc == 6 || m.core.pc == 7 || m.core.pc == 11 ==> !m.hold
    ensures InRecord(m, item)
  {
    hide InCell;
  }

  lemma OpenBefore(m: Machine, item: Item)
    requires item.Record? && InRecord(m, item) && (m.core.pc == 3 || m.core.pc == 8)
    ensures 0 <= CellIndex(m.core) <= 8 && BeforeCell(m, item, CellIndex(m.core)) && Tied(m) && m.core.osr != []
    ensures m.core.osr[0] == item.Driven()[CellIndex(m.core)]
  {
  }

  lemma CloseBefore(m: Machine, item: Item)
    requires item.Record? && (m.core.pc == 3 || m.core.pc == 8) && 0 <= CellIndex(m.core)
    requires BeforeCell(m, item, CellIndex(m.core))
    ensures InRecord(m, item)
  {
    hide BeforeCell;
  }

  /** A cell does not depend on where in it the program is, nor on what has been received. */
  lemma SameCell(m: Machine, m': Machine, item: Item, i: nat, clock: bool)
    requires item.Record? && i < 9 && InCell(m, item, i, clock)
    requires m' == m.(core := m.core.(pc := m'.core.pc, delay := m'.core.delay, isr := m'.core.isr), rx := m'.rx)
    ensures InCell(m', item, i, clock)
  {
    hide Log, Wire, AsEvents;
  }

  lemma CellTied(m: Machine, item: Item, i: nat, clock: bool)
    requires item.Record? && i < 9 && InCell(m, item, i, clock)
    ensures Tied(m) && |m.cells| == i + 1 && m.core.osr == item.Driven()[i + 1..] && FinalFlag(m, item)
    ensures clock && !m.hold ==> m.bus.scl
  {
  }

  lemma CellKeeps(m: Machine, item: Item, dev: bool)
    requires item.Record? && InRecord(m, item) && m.core.delay == 0 && (m.core.pc == 3 || m.core.pc == 8)
    ensures InRecord(SmCycle(m, dev), item) && SameBooks(m, SmCycle(m, dev))
  {
    hide SmCycle, InRecord, InCell, BeforeCell, Observe;
    var i := CellIndex(m.core);
    OpenBefore(m, item);
    CellEffect(m, dev);
    BeginCell(m, item, i, dev);
    var begun := m.(core := m.core.(pc := m.core.pc + 1, osr := m.core.osr[1..], pin := item.Driven()[i]),
                    dev := dev, cells := m.cells + [dev], bus := Observe(m.bus, m.bus.scl, item.Driven()[i] && dev));
    SameCell(begun, SmCycle(m, dev), item, i, false);
    CloseCell(SmCycle(m, dev), item);
  }

  lemma ClockKeeps(m: Machine, item: Item, dev: bool)
    requires item.Record? && InRecord(m, item) && m.core.delay == 0 && (m.core.pc == 4 || m.core.pc == 9)
    ensures InRecord(SmCycle(m, dev), item) && SameBooks(m, SmCycle(m, dev))
  {
    hide SmCycle, InRecord, InCell, Observe;
    var i := CellIndex(m.core);
    OpenCell(m, item);
    CellTied(m, item, i, false);
    ClockEffect(m, dev);
    RaiseClock(m, item, i);
    var raised := m.(core := m.core.(pc := m.core.pc + 1, side := true), bus := Observe(m.bus, !m.hold, m.bus.sda));
    SameCell(raised, SmCycle(m, dev), item, i, true);
    CloseCell(SmCycle(m, dev), item);
  }

  lemma StretchKeeps(m: Machine, item: Item, dev: bool)
    requires item.Record? && InRecord(m, item) && m.core.delay == 0 && (m.core.pc == 5 || m.core.pc == 10)
    ensures InRecord(SmCycle(m, dev), item) && SameBooks(m, SmCycle(m, dev))
  {
    hide SmCycle, InRecord, InCell;
    OpenCell(m, item);
    CellTied(m, item, CellIndex(m.core), true);
    StretchEffect(m, dev);
    if m.bus.scl {
      SameCell(m, SmCycle(m, dev), item, CellIndex(m.core), true);
      CloseCell(SmCycle(m, dev), item);
    }
  }

  lemma SampleKeeps(m: Machine, item: Item, dev: bool)
    requires item.Record? && InRecord(m, item) && m.core.delay == 0 && m.core.pc == 6
    ensures InRecord(SmCycle(m, dev), item) && SameBooks(m, SmCycle(m, dev))
  {
    hide SmCycle, InRecord, InCell;
    OpenCell(m, item);
    CellTied(m, item, CellIndex(m.core), true);
    SampleEffect(m, dev);
    SameCell(m, SmCycle(m, dev), item, CellIndex(m.core), true);
    CloseCell(SmCycle(m, dev), item);
  }

  lemma FallKeeps(m: Machine, item: Item, dev: bool)
    requires item.Record? && InRecord(m, item) && m.core.delay == 0 && m.core.pc == 7
    ensures InRecord(SmCycle(m, dev), item) && SameBooks(m, SmCycle(m, dev))
  {
    hide SmCycle, InRecord, InCell, Observe;
    OpenCell(m, item);
    CellTied(m, item, CellIndex(m.core), true);
    FallEffect(m, dev);
    DropClock(m, item, CellIndex(m.core));
    CloseBefore(SmCycle(m, dev), item);
  }

  lemma ByteKeeps(m: Machine, item: Item, dev: bool)
    requires item.Record? && InRecord(m, item) && m.core.delay == 0 && m.core.pc == 2
    ensures InRecord(SmCycle(m, dev), item) && SameBooks(m, SmCycle(m, dev))
  {
    ByteEffect(m, dev);
    assert AsEvents(Wire(item.Driven(), [])) == [];
    assert Log(m.done) + [] == Log(m.done);
    hide SmCycle, Log, Wire, AsEvents;
  }

  lemma LogNext(done: seq<Sent>, s: Sent)
    ensures Log(done + [s]) == Log(done) + EventsOf(s)
  {
    assert (done + [s])[..|done|] == done;
  }

  lemma AckKeeps(m: Machine, item: Item, dev: bool)
    requires item.Record? && m.cur == Some(item) && InRecord(m, item) && m.core.delay == 0 && m.core.pc == 11
    ensures var m' := SmCycle(m, dev);
            var s := Sent(item, m.cells);
            && Complete(s) && m' == m.(core := m'.core, bus := m'.bus, cur := None, done := m.done + [s])
            && m'.core.parked == m.core.parked && m'.core.irq == m.core.irq
            && AtRest(m') && Tied(m')
            && m'.core.pc == (if Nakked(s) then 0 else 12) && m'.tx == m.tx
    ensures Story(m, SmCycle(m, dev))
  {
    hide SmCycle, InRecord, InCell, Observe, Log, AsEvents, Wire, Story;
    OpenCell(m, item);
    CellTied(m, item, 8, true);
    AckEffect(m, dev);
    DropClock(m, item, 8);
    LogNext(m.done, Sent(item, m.cells));
    AckLevel(m, item);
    GrownStory(m, SmCycle(m, dev), Sent(item, m.cells));
  }

  lemma AckLevel(m: Machine, item: Item)
    requires item.Record? && InCell(m, item, 8, true)
    ensures m.bus.sda == (item.nak && m.cells[8])
  {
  }

  lemma RecordKeeps(m: Machine, item: Item, dev: bool)
    requires item.Record? && InRecord(m, item) && m.core.delay == 0 && m.core.pc != 11
    ensures InRecord(SmCycle(m, dev), item) && SameBooks(m, SmCycle(m, dev)) && Tied(SmCycle(m, dev))
  {
    hide SmCycle, InCell, BeforeCell, Tied;
    match m.core.pc
    case 2 => ByteKeeps(m, item, dev); RecordTied(SmCycle(m, dev), item);
    case 3 => CellKeeps(m, item, dev); RecordTied(SmCycle(m, dev), item);
    case 4 => ClockKeeps(m, item, dev); RecordTied(SmCycle(m, dev), item);
    case 5 => StretchKeeps(m, item, dev); RecordTied(SmCycle(m, dev), item);
    case 6 => SampleKeeps(m, item, dev); RecordTied(SmCycle(m, dev), item);
    case 7 => FallKeeps(m, item, dev); RecordTied(SmCycle(m, dev), item);
    case 8 => CellKeeps(m, item, dev); RecordTied(SmCycle(m, dev), item);
    case 9 => ClockKeeps(m, item, dev); RecordTied(SmCycle(m, dev), item);
    case 10 => StretchKeeps(m, item, dev); RecordTied(SmCycle(m, dev), item);
    case _ => assert false;
  }

  lemma RecordIsItem(m: Machine, item: Item)
    requires item.Record? && InRecord(m, item) && m.k == 0
    ensures InItem(m, item) && Tied(m)
  {
    hide InCell, BeforeCell;
    RecordTied(m, item);
  }

  lemma RecordTied(m: Machine, item: Item)
    requires item.Record? && InRecord(m, item)
    ensures Tied(m) && 2 <= m.core.pc <= 11
  {
    hide Log, Wire, AsEvents;
  }

  // ----- Escapes

  /** An escape instruction on the wires. */
  function Driven(m: Machine, scl: bool, sda: bool): Machine {
    m.(core := m.core.(side := scl, pin := sda), dev := true, bus := Observe(m.bus, scl && !m.hold, sda))
  }

  /** Carrying out instruction `k` of an escape, provided a START or STOP edge finds the clock
      really released. */
  lemma EscapeStep(m: Machine, item: Item)
    requires !item.Record? && m.k < |item.Levels()| && InEscape(m, item) && Tied(m)
    requires item.Start? == Idle(m.done)
    requires var (scl, sda) := item.Levels()[m.k]; m.core.side && scl && sda != m.core.pin ==> !m.hold
    ensures var (scl, sda) := item.Levels()[m.k];
            var m' := Driven(m, scl, sda);
            Tied(m') &&
            if m.k + 1 < |item.Levels()| then InEscape(m'.(k := m.k + 1), item)
            else Between(m'.(done := m.done + [Sent(item, [])]))
  {
    hide Log;
    LogNext(m.done, Sent(item, []));
    assert Log(m.done) + [] == Log(m.done);
  }

  // ----- The whole program

  /** Alike but for what the place in the program does not depend on. */
  predicate Alike(m: Machine, m': Machine) {
    m' == m.(core := m.core.(delay := m'.core.delay, isr := m'.core.isr, irq := m'.core.irq),
             tx := m'.tx, rx := m'.rx, rxOn := m'.rxOn, starved := m'.starved)
  }

  lemma AlikeCell(m: Machine, m': Machine, item: Item, i: nat, clock: bool)
    requires item.Record? && i < 9 && InCell(m, item, i, clock) && Alike(m, m')
    ensures InCell(m', item, i, clock)
  {
    hide Log, Wire, AsEvents;
  }

  lemma AlikeBefore(m: Machine, m': Machine, item: Item, i: nat)
    requires item.Record? && i < 9 && BeforeCell(m, item, i) && Alike(m, m')
    ensures BeforeCell(m', item, i)
  {
    hide Log, Wire, AsEvents;
  }

  lemma AlikeByte(m: Machine, m': Machine, item: Item)
    requires item.Record? && InRecord(m, item) && m.core.pc == 2 && Alike(m, m')
    ensures InRecord(m', item)
  {
    hide Log, Wire, AsEvents;
  }

  lemma AlikeRecord(m: Machine, m': Machine, item: Item)
    requires item.Record? && InRecord(m, item) && Alike(m, m')
    ensures InRecord(m', item)
  {
    hide InRecord, InCell, BeforeCell;
    RecordTied(m, item);
    if m.core.pc == 2 {
      AlikeByte(m, m', item);
    } else if CellPc(m.core.pc) {
      OpenCell(m, item);
      AlikeCell(m, m', item, CellIndex(m.core), m.core.pc != 4 && m.core.pc != 9);
      CloseCell(m', item);
    } else {
      OpenBefore(m, item);
      AlikeBefore(m, m', item, CellIndex(m.core));
      CloseBefore(m', item);
    }
  }

  lemma AlikePlaced(m: Machine, m': Machine)
    requires Placed(m) && Alike(m, m') && (m.core.parked && m.core.irq ==> m'.core.irq)
    ensures Placed(m')
  {
    hide InRecord, Log;
    if m.cur.Some? && m.cur.value.Record? && !(13 <= m.core.pc <= 17) {
      AlikeRecord(m, m', m.cur.value);
    }
  }

  lemma HeadTaken(tx: seq<seq<bool>>, pend: seq<seq<bool>>, head: seq<bool>, tail: seq<seq<bool>>)
    requires tx != [] && tx + pend == [head] + tail
    ensures tx[0] == head && tx[1..] + pend == tail
  {
    assert (tx + pend)[0] == head;
    assert (tx + pend)[1..] == tx[1..] + pend;
  }

  lemma WordsOfNext(rest: seq<Item>, k: nat)
    requires rest != []
    ensures WordsLeft(None, k, rest) == [rest[0].Header()] + WordsLeft(Some(rest[0]), 0, rest[1..])
  {
    var item := rest[0];
    assert item.Levels()[0..] == item.Levels();
    assert [item.Header()] + Instructions(item.Levels()) + AllWords(rest[1..])
        == [item.Header()] + (Instructions(item.Levels()) + AllWords(rest[1..]));
  }

  lemma WordsOfEscape(item: Item, k: nat, rest: seq<Item>)
    requires k < |item.Levels()|
    ensures WordsLeft(Some(item), k, rest)
         == [SetSclSda(item.Levels()[k].0, item.Levels()[k].1)] + WordsLeft(Some(item), k + 1, rest)
    ensures k + 1 == |item.Levels()| ==> WordsLeft(Some(item), k + 1, rest) == WordsLeft(None, k, rest)
  {
    hide SetSclSda;
    var levels := item.Levels();
    assert levels[k..][1..] == levels[k + 1..];
    var word := SetSclSda(levels[k].0, levels[k].1);
    assert [word] + Instructions(levels[k + 1..]) + AllWords(rest)
        == [word] + (Instructions(levels[k + 1..]) + AllWords(rest));
  }

  /** Fetching a header takes its word off the queue. */
  lemma FetchBalanced(done: seq<Sent>, k: nat, rest: seq<Item>, tx: seq<seq<bool>>, pend: seq<seq<bool>>)
    requires Balanced(done, None, k, rest, tx, pend) && tx != []
    ensures rest != [] && tx[0] == rest[0].Header()
    ensures Balanced(done, Some(rest[0]), 0, rest[1..], tx[1..], pend)
  {
    assert WordsLeft(None, k, []) == [];
    WordsOfNext(rest, k);
    hide WordsLeft;
    HeadTaken(tx, pend, rest[0].Header(), WordsLeft(Some(rest[0]), 0, rest[1..]));
    assert [rest[0]] + rest[1..] == rest && [] + rest == rest;
  }

  /** So does each escape instruction. */
  lemma ExecBalanced(done: seq<Sent>, item: Item, k: nat, rest: seq<Item>, tx: seq<seq<bool>>, pend: seq<seq<bool>>)
    requires Balanced(done, Some(item), k, rest, tx, pend) && tx != [] && k < |item.Levels()|
    ensures tx[0] == SetSclSda(item.Levels()[k].0, item.Levels()[k].1)
    ensures if k + 1 < |item.Levels()| then Balanced(done, Some(item), k + 1, rest, tx[1..], pend)
            else Balanced(done + [Sent(item, [])], None, k, rest, tx[1..], pend)
  {
    WordsOfEscape(item, k, rest);
    hide WordsLeft, SetSclSda;
    HeadTaken(tx, pend, SetSclSda(item.Levels()[k].0, item.Levels()[k].1), WordsLeft(Some(item), k + 1, rest));
    assert ([item] + rest)[1..] == rest && [] + rest == rest;
  }

  lemma RecordBalanced(done: seq<Sent>, s: Sent, k: nat, rest: seq<Item>, tx: seq<seq<bool>>, pend: seq<seq<bool>>)
    requires Balanced(done, Some(s.item), k, rest, tx, pend) && s.item.Record? && Complete(s)
    ensures Balanced(done + [s], None, k, rest, tx, pend)
  {
    assert ([s.item] + rest)[1..] == rest;
    assert [] + rest == rest;
  }

  lemma OrderOf(done: seq<Sent>, item: Item, k: nat, rest: seq<Item>, tx: seq<seq<bool>>, pend: seq<seq<bool>>)
    requires Balanced(done, Some(item), k, rest, tx, pend)
    ensures item.Start? == Idle(done)
  {
    assert ([item] + rest)[0] == item;
  }

  lemma RestKeeps(m: Machine, dev: bool)
    requires m.cur.None? && AtRest(m) && Tied(m) && m.core.delay == 0 && m.core.pc != 12
    requires m.core.parked ==> m.core.pc == 1 && m.core.irq
    ensures var m' := SmCycle(m, dev);
            && m' == m.(core := m'.core) && Tied(m') && AtRest(m')
            && (m'.core.parked ==> m'.core.pc == 1 && m'.core.irq)
    ensures Story(m, SmCycle(m, dev))
  {
    hide SmCycle, Log, Story;
    if m.core.pc == 0 {
      NackEffect(m, dev);
      NackStory(m, SmCycle(m, dev));
    } else if m.core.pc == 1 {
      ParkEffect(m, dev);
      NackStory(m, SmCycle(m, dev));
    } else {
      RepeatEffect(m, dev);
      QuietStory(m, SmCycle(m, dev));
    }
  }

  lemma FetchPlaces(m: Machine, dev: bool)
    requires AtRest(m) && Tied(m) && m.core.delay == 0 && m.cur.None? && m.core.pc == 12 && !m.core.parked
    requires m.tx != [] && m.rest != [] && m.tx[0] == m.rest[0].Header()
    ensures var m' := SmCycle(m, dev);
            && Placed(m') && m'.core.delay == 0 && m'.done == m.done && m'.k == 0 && m'.tx == m.tx[1..]
            && m'.cur == Some(m.rest[0]) && m'.rest == m.rest[1..]
    ensures Story(m, SmCycle(m, dev))
  {
    hide SmCycle, Log, InRecord, InEscape, Story;
    FetchEffect(m, dev);
    FetchStory(m, SmCycle(m, dev));
    var item := m.rest[0];
    if item.Record? { RecordFields(item); } else { EscapeFields(item); }
  }

  lemma FetchKeeps(m: Machine, dev: bool, pend: seq<seq<bool>>)
    requires Steady(m, pend) && m.core.delay == 0 && m.cur.None? && m.core.pc == 12
    ensures Steady(SmCycle(m, dev), pend) && Story(m, SmCycle(m, dev))
  {
    hide SmCycle, Log, Balanced, Between, Story;
    assert Settled(m) == m;
    var m' := SmCycle(m, dev);
    if m.tx == [] {
      StarveEffect(m, dev);
      SameBetween(m, m');
      QuietStory(m, m');
    } else {
      FetchBalanced(m.done, m.k, m.rest, m.tx, pend);
      FetchPlaces(m, dev);
      assert Settled(m') == m';
    }
  }

  lemma FlagKeeps(m: Machine, item: Item, dev: bool)
    requires InItem(m, item) && Tied(m) && m.core.delay == 0 && m.core.pc == 13
    ensures var m' := SmCycle(m, dev); m' == m.(core := m'.core) && Tied(m') && InItem(m', item)
    ensures SameBooks(m, SmCycle(m, dev)) && Story(m, SmCycle(m, dev))
  {
    hide SmCycle, Story, Log;
    assert item.Header()[6..][..1] == item.Header()[6..7] && item.Header()[6..][1..] == item.Header()[7..];
    if item.Record? { RecordFields(item); }
    FlagEffect(m, dev);
    QuietStory(m, SmCycle(m, dev));
  }

  lemma BranchKeeps(m: Machine, item: Item, dev: bool)
    requires InItem(m, item) && Tied(m) && m.core.delay == 0 && m.core.pc == 14 && item.Start? == Idle(m.done)
    ensures var m' := SmCycle(m, dev); m' == m.(core := m'.core) && Tied(m') && InItem(m', item)
    ensures SameBooks(m, SmCycle(m, dev)) && Story(m, SmCycle(m, dev))
  {
    hide SmCycle, Story, Log;
    if item.Record? { RecordFields(item); }
    BranchEffect(m, dev);
    QuietStory(m, SmCycle(m, dev));
  }

  lemma DiscardKeeps(m: Machine, item: Item, dev: bool)
    requires InItem(m, item) && Tied(m) && m.core.delay == 0 && m.core.pc == 15
    ensures var m' := SmCycle(m, dev); m' == m.(core := m'.core) && Tied(m') && InItem(m', item)
    ensures SameBooks(m, SmCycle(m, dev)) && Story(m, SmCycle(m, dev))
  {
    hide SmCycle, Story, InEscape;
    DiscardEffect(m, dev);
    EscapeBegins(SmCycle(m, dev), item);
    QuietStory(m, SmCycle(m, dev));
  }

  lemma EscapeBegins(m: Machine, item: Item)
    requires !item.Record? && m.k == 0 && Between(m)
    ensures InEscape(m, item) && 2 <= |item.Levels()|
  {
  }

  lemma ExecKeeps(m: Machine, item: Item, dev: bool, pend: seq<seq<bool>>)
    requires m.cur == Some(item) && InItem(m, item) && Tied(m) && m.core.delay == 0 && m.core.pc == 16 && !m.core.parked
    requires Balanced(m.done, m.cur, m.k, m.rest, m.tx, pend)
    requires EdgeDue(m) ==> !m.hold
    ensures var m' := SmCycle(m, dev);
            Placed(m') && Balanced(m'.done, m'.cur, m'.k, m'.rest, m'.tx, pend) && Story(m, m')
  {
    hide SmCycle, Log, Balanced, InEscape, Between, Observe, Story;
    if m.tx == [] {
      StarveEffect(m, dev);
      QuietStory(m, SmCycle(m, dev));
      SameEscape(m, SmCycle(m, dev), item);
    } else {
      ExecBalanced(m.done, item, m.k, m.rest, m.tx, pend);
      OrderOf(m.done, item, m.k, m.rest, m.tx, pend);
      var (scl, sda) := item.Levels()[m.k];
      assert m.core.side && scl && sda != m.core.pin ==> EdgeDue(m);
      ExecPlaces(m, item, dev, scl, sda);
    }
  }

  lemma ExecPlaces(m: Machine, item: Item, dev: bool, scl: bool, sda: bool)
    requires m.cur == Some(item) && InItem(m, item) && Tied(m) && m.core.delay == 0 && m.core.pc == 16 && !m.core.parked
    requires item.Start? == Idle(m.done)
    requires (scl, sda) == item.Levels()[m.k] && m.tx != [] && m.tx[0] == SetSclSda(scl, sda)
    requires m.core.side && scl && sda != m.core.pin ==> !m.hold
    ensures var m' := SmCycle(m, dev);
            && Placed(m') && m'.rest == m.rest && m'.tx == m.tx[1..] && Story(m, m')
            && if m.k + 1 < |item.Levels()| then m'.done == m.done && m'.cur == m.cur && m'.k == m.k + 1
               else m'.done == m.done + [Sent(item, [])] && m'.cur == None && m'.k == m.k
  {
    hide SmCycle, Log, InEscape, Between, Observe, SetSclSda, Story;
    EscapeStep(m, item);
    ExecEffect(m, dev, scl, sda);
    var m' := SmCycle(m, dev);
    if m.k + 1 < |item.Levels()| {
      SameEscape(Driven(m, scl, sda).(k := m.k + 1), m', item);
      QuietStory(m, m');
    } else {
      GrownStory(m, m', Sent(item, []));
      SameBetween(Driven(m, scl, sda).(done := m.done + [Sent(item, [])]), m');
    }
  }

  lemma SameEscape(m: Machine, m': Machine, item: Item)
    requires m.k <= |item.Levels()| && InEscape(m, item) && Tied(m)
    requires m' == m.(core := m'.core, tx := m'.tx, starved := m'.starved)
    requires m'.core.side == m.core.side && m'.core.pin == m.core.pin
    ensures InEscape(m', item) && Tied(m')
  {
  }

  lemma SameBetween(m: Machine, m': Machine)
    requires Between(m) && Tied(m)
    requires m' == m.(core := m'.core, tx := m'.tx, cur := m'.cur, starved := m'.starved)
    requires m'.core.side == m.core.side && m'.core.pin == m.core.pin
    ensures Between(m') && Tied(m')
  {
  }

  lemma RepeatKeeps(m: Machine, item: Item, dev: bool)
    requires InItem(m, item) && Tied(m) && m.core.delay == 0 && m.core.pc == 17
    ensures var m' := SmCycle(m, dev); m' == m.(core := m'.core) && Tied(m') && InItem(m', item)
    ensures SameBooks(m, SmCycle(m, dev)) && Story(m, SmCycle(m, dev))
  {
    hide SmCycle, Story, InEscape;
    RepeatEffect(m, dev);
    SameEscape(m, SmCycle(m, dev), item);
    QuietStory(m, SmCycle(m, dev));
  }

  lemma ItemKeeps(m: Machine, item: Item, dev: bool, pend: seq<seq<bool>>)
    requires m.cur == Some(item) && InItem(m, item) && Tied(m) && m.core.delay == 0
    requires m.core.parked ==> m.core.pc == 1
    requires Balanced(m.done, m.cur, m.k, m.rest, m.tx, pend)
    requires EdgeDue(m) ==> !m.hold
    ensures var m' := SmCycle(m, dev);
            Placed(m') && Balanced(m'.done, m'.cur, m'.k, m'.rest, m'.tx, pend) && Story(m, m')
  {
    hide SmCycle, Balanced, InRecord, InEscape, Between, Log, EdgeDue, Tied, AtRest, Story;
    var m' := SmCycle(m, dev);
    match m.core.pc
    case 13 => FlagKeeps(m, item, dev);
    case 14 => OrderOf(m.done, item, m.k, m.rest, m.tx, pend); BranchKeeps(m, item, dev);
    case 15 => DiscardKeeps(m, item, dev);
    case 16 => ExecKeeps(m, item, dev, pend);
    case 17 => RepeatKeeps(m, item, dev);
    case 11 => AckKeeps(m, item, dev); RecordBalanced(m.done, Sent(item, m.cells), m.k, m.rest, m.tx, pend);
    case _ =>
      RecordTied(m, item);
      RecordKeeps(m, item, dev);
      RecordIsItem(m', item);
      RecordTied(m', item);
      QuietStory(m, m');
  }

  /** Every cycle of the program, whatever the device does with the next bit cell, keeps the
      invariant; the only demand on the device is not to be stretching the clock at the instant a
      START or STOP edge is driven. */
  lemma CycleKeeps(m: Machine, dev: bool, pend: seq<seq<bool>>)
    requires Steady(m, pend)
    requires EdgeDue(m) ==> !m.hold
    ensures Steady(SmCycle(m, dev), pend) && Story(m, SmCycle(m, dev))
  {
    hide SmCycle, Balanced, InItem, AtRest, Log, EdgeDue, Tied, Story;
    if m.core.delay > 0 {
      DelayKeeps(m, dev, pend);
    } else {
      assert Settled(m) == m;
      if m.cur.None? && m.core.pc == 12 {
        FetchKeeps(m, dev, pend);
      } else {
        if m.cur.None? { RestKeeps(m, dev); } else { ItemKeeps(m, m.cur.value, dev, pend); }
        AlikePlaced(SmCycle(m, dev), Settled(SmCycle(m, dev)));
      }
    }
  }

  // ----- Clock stretching

  lemma StretchBetween(m: Machine, m': Machine)
    requires Between(m) && Tied(m)
    requires (!m.bus.scl && m' == Grab(m)) || m' == Release(m)
    ensures Between(m') && Tied(m')
  {
    hide Log;
  }

  lemma StretchEscape(m: Machine, m': Machine, item: Item)
    requires m.k < |item.Levels()| && InEscape(m, item) && Tied(m)
    requires (!m.bus.scl && m' == Grab(m)) || m' == Release(m)
    ensures InEscape(m', item) && Tied(m')
  {
    hide Log, Between;
    if m.k == 0 { StretchBetween(m, m'); }
  }

  lemma StretchCell(m: Machine, m': Machine, item: Item, i: nat, clock: bool)
    requires item.Record? && i < 9 && InCell(m, item, i, clock)
    requires (!m.bus.scl && m' == Grab(m)) || m' == Release(m)
    ensures InCell(m', item, i, clock) && (!m.hold ==> !clock || !m'.hold)
  {
    hide Log, Wire, AsEvents;
  }

  lemma StretchBefore(m: Machine, m': Machine, item: Item, i: nat)
    requires item.Record? && i < 9 && BeforeCell(m, item, i)
    requires (!m.bus.scl && m' == Grab(m)) || m' == Release(m)
    ensures BeforeCell(m', item, i)
  {
    hide Log, Wire, AsEvents;
  }

  lemma StretchByte(m: Machine, m': Machine, item: Item)
    requires item.Record? && InRecord(m, item) && m.core.pc == 2
    requires (!m.bus.scl && m' == Grab(m)) || m' == Release(m)
    ensures InRecord(m', item)
  {
    hide Log, Wire, AsEvents, Between;
    StretchBetween(m, m');
  }

  lemma StretchRecord(m: Machine, m': Machine, item: Item)
    requires item.Record? && InRecord(m, item)
    requires (!m.bus.scl && m' == Grab(m)) || m' == Release(m)
    ensures InRecord(m', item) && Tied(m')
  {
    hide InRecord, InCell, BeforeCell, Grab, Release;
    StretchSame(m, m');
    RecordTied(m, item);
    if m.core.pc == 2 {
      StretchByte(m, m', item);
    } else if CellPc(m.core.pc) {
      OpenCell(m, item);
      StretchCell(m, m', item, CellIndex(m.core), m.core.pc != 4 && m.core.pc != 9);
      CloseCell(m', item);
    } else {
      OpenBefore(m, item);
      StretchBefore(m, m', item, CellIndex(m.core));
      CloseBefore(m', item);
    }
    RecordTied(m', item);
  }

  lemma StretchPlaced(m: Machine, m': Machine)
    requires Placed(m)
    requires (!m.bus.scl && m' == Grab(m)) || m' == Release(m)
    ensures Placed(m')
  {
    hide InRecord, InEscape, Between, Tied, Grab, Release;
    if m.cur.None? || 13 <= m.core.pc <= 15 {
      StretchBetween(m, m');
    } else if 16 <= m.core.pc <= 17 {
      StretchEscape(m, m', m.cur.value);
    } else {
      StretchRecord(m, m', m.cur.value);
    }
    StretchSame(m, m');
  }

  lemma StretchSame(m: Machine, m': Machine)
    requires (!m.bus.scl && m' == Grab(m)) || m' == Release(m)
    ensures m' == m.(hold := m'.hold, bus := m'.bus)
  {
  }

  /** The device may stretch the clock whenever it is low, and let go at any time. */
  lemma StretchingKeeps(m: Machine, m': Machine, pend: seq<seq<bool>>)
    requires Steady(m, pend)
    requires (!m.bus.scl && m' == Grab(m)) || m' == Release(m)
    ensures Steady(m', pend) && m' == m.(hold := m'.hold, bus := m'.bus)
  {
    StretchPlaced(Settled(m), Settled(m'));
    hide Placed, Balanced;
  }
}
