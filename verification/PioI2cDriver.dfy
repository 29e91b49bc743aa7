/** The processor's side of the PIO I2C driver (pio/i2c/pio_i2c.c), running beside the state machine. */
module PioI2cDriver {
  import opened Wrappers
  import opened Pio
  import opened I2cBus
  import opened PioI2cWords
  import opened PioI2c
  import opened PioI2cReceive

  type Address = a: seq<bool> | |a| == 7 witness [false, false, false, false, false, false, false]

  datatype Mode = Write(data: seq<Octet>) | Read(len: nat)

  /** One call of pio_i2c_write_blocking or pio_i2c_read_blocking. */
  datatype Job = Job(addr: Address, mode: Mode)

  function Ones(): Octet {
    [true, true, true, true, true, true, true, true]
  }

  /** The records of the write loop: the last byte is marked Final, the receiver acknowledges. */
  function Payload(data: seq<Octet>): seq<Item> {
    if data == [] then [] else [Record(data[0], |data| == 1, true)] + Payload(data[1..])
  }

  /** The records of the read loop: all ones to clock a byte in, the last Final and not acknowledged. */
  function Clocks(len: nat): seq<Item> {
    if len == 0 then [] else [Record(Ones(), len == 1, len == 1)] + Clocks(len - 1)
  }

  function Body(job: Job): seq<Item> {
    match job.mode
    case Write(data) => [Record(job.addr + [false], false, true)] + Payload(data)
    case Read(len) => [Record(job.addr + [true], false, true)] + Clocks(len)
  }

  function Plan(job: Job): seq<Item> {
    [Item.Start] + Body(job) + [Item.Stop]
  }

  datatype Phase =
    | Starting    // pio_i2c_start
    | Flushing    // a read empties the RX FIFO
    | Sending     // the address word and the loop over the bytes
    | Stopping    // pio_i2c_stop
    | Waiting     // pio_i2c_wait_idle
    | Deciding    // the error check after it
    | Draining | Jumping | Clearing   // the three steps of pio_i2c_resume_after_error
    | Closing     // pio_i2c_stop after an error
    | Returned(result: int)

  /** `now` is what the present phase has yet to push, `later` what the following ones will;
      `popped` records every byte taken from the RX FIFO since the flush and `failed` how many
      items had been carried out when an error was handled. */
  datatype Cpu = Cpu(
    phase: Phase, now: seq<seq<bool>>, later: seq<seq<bool>>,
    first: bool, rxbuf: seq<seq<bool>>, popped: seq<seq<bool>>, failed: nat)

  datatype State = State(job: Job, cpu: Cpu, m: Machine)

  /** A call begins with the state machine at rest on a free bus; `rx` may hold old bytes. */
  predicate Begun(s: State) {
    var c, m := s.m.core, s.m;
    && s.cpu == Cpu(Starting, Item.Start.Words(), AllWords(Body(s.job)) + Item.Stop.Words(), true, [], [], 0)
    && c.pc == 12 && c.osr == [] && c.side && c.pin && !c.irq && !c.parked
    && (s.job.mode.Read? ==> c.isr == [])
    && m.dev && !m.hold && m.bus == Bus(true, true, None, [])
    && m.tx == [] && m.done == [] && m.cur == None && m.rest == Plan(s.job)
  }

  datatype Move =
    | Tick(dev: bool) | Grab | Release      // the state machine and the device
    | Push | StartDone | FlushPop | FlushDone | Pop | SendDone | Abort | StopDone
    | Wake | Decide | Drain | Jump | Clear | Return

  predicate MayPush(phase: Phase) {
    phase.Starting? || phase.Sending? || phase.Stopping? || phase.Closing?
  }

  /** The read loop's count of bytes still wanted is zero; a write wants none. */
  predicate Filled(s: State) {
    match s.job.mode
    case Write(_) => true
    case Read(len) => |s.cpu.rxbuf| == len
  }

  /** The queue is the four-entry FIFO and the word prefetched into the OSR: a push finds room with up
      to four words queued. */
  predicate Enabled(s: State, v: Move) {
    var cpu, m := s.cpu, s.m;
    match v
    case Tick(_) => true
    case Grab => !m.bus.scl
    case Release => m.hold
    case Push => MayPush(cpu.phase) && cpu.now != [] && |m.tx| <= 4
    case StartDone => cpu.phase.Starting? && cpu.now == []
    case FlushPop => cpu.phase.Flushing? && m.rx != []
    case FlushDone => cpu.phase.Flushing? && m.rx == []
    case Pop => cpu.phase.Sending? && s.job.mode.Read? && m.rx != [] && (cpu.now != [] || !Filled(s))
    case SendDone => cpu.phase.Sending? && cpu.now == [] && Filled(s)
    case Abort => (cpu.phase.Sending? || cpu.phase.Stopping?) && m.core.irq
    case StopDone => cpu.phase.Stopping? && cpu.now == []
    case Wake => cpu.phase.Waiting? && (m.starved || m.core.irq)
    case Decide => cpu.phase.Deciding?
    case Drain => cpu.phase.Draining?
    case Jump => cpu.phase.Jumping?
    case Clear => cpu.phase.Clearing?
    case Return => cpu.phase.Closing? && cpu.now == []
  }

  function Next(s: State, v: Move): State
    requires Enabled(s, v)
  {
    var cpu, m := s.cpu, s.m;
    match v
    case Tick(dev) => s.(m := SmCycle(m, dev))
    case Grab => s.(m := PioI2c.Grab(m))
    case Release => s.(m := PioI2c.Release(m))
    case Push => s.(cpu := cpu.(now := cpu.now[1..]), m := m.(tx := m.tx + [cpu.now[0]]))
    case StartDone =>
      if s.job.mode.Read? then s.(cpu := cpu.(phase := Flushing), m := m.(rxOn := true))
      else s.(cpu := Loop(s.job, cpu), m := m.(rxOn := false))
    case FlushPop => s.(m := m.(rx := m.rx[1..]))
    case FlushDone => s.(cpu := Loop(s.job, cpu))
    case Pop => s.(cpu := Took(cpu, m.rx[0]), m := m.(rx := m.rx[1..]))
    case SendDone => s.(cpu := cpu.(phase := Stopping, now := cpu.later, later := []))
    case Abort => s.(cpu := cpu.(phase := Waiting), m := m.(starved := false))
    case StopDone => s.(cpu := cpu.(phase := Waiting), m := m.(starved := false))
    case Wake => s.(cpu := cpu.(phase := Deciding))
    case Decide => s.(cpu := cpu.(phase := if m.core.irq then Draining else Returned(0)))
    case Drain =>
      s.(cpu := cpu.(phase := Jumping, now := [], later := Item.Stop.Words(), failed := |m.done|),
         m := m.(tx := [], rest := [Item.Stop]))
    case Jump =>
      s.(cpu := cpu.(phase := Clearing),
         m := m.(core := m.core.(pc := 12, osr := [], delay := 0, parked := false)))
    case Clear =>
      s.(cpu := cpu.(phase := Closing, now := cpu.later, later := []), m := m.(core := m.core.(irq := false)))
    case Return => s.(cpu := cpu.(phase := Returned(-1)))
  }

  function Loop(job: Job, cpu: Cpu): Cpu {
    cpu.(phase := Sending, now := AllWords(Body(job)), later := Item.Stop.Words())
  }

  /** The first byte read back, the address, is thrown away. */
  function Took(cpu: Cpu, byte: seq<bool>): Cpu {
    cpu.(popped := cpu.popped + [byte], first := false, rxbuf := if cpu.first then cpu.rxbuf else cpu.rxbuf + [byte])
  }

  // ----- Runs

  predicate Allowed(s: State, moves: seq<Move>)
    decreases |moves|
  {
    moves != [] ==> Enabled(s, moves[0]) && Allowed(Next(s, moves[0]), moves[1..])
  }

  function After(s: State, moves: seq<Move>): State
    requires Allowed(s, moves)
    decreases |moves|
  {
    if moves == [] then s else After(Next(s, moves[0]), moves[1..])
  }

  // ----- What every run keeps

  function Pend(cpu: Cpu): seq<seq<bool>> {
    cpu.now + cpu.later
  }

  /** Everything asked for has been carried out. */
  predicate Finished(m: Machine) {
    m.cur.None? && m.rest == [] && m.tx == [] && m.core.pc == 12
  }

  /** What each phase has left to push. */
  predicate InStep(s: State) {
    var cpu, m := s.cpu, s.m;
    match cpu.phase
    case Starting => cpu.later == AllWords(Body(s.job)) + Item.Stop.Words()
    case Flushing => s.job.mode.Read? && cpu.now == [] && cpu.later == AllWords(Body(s.job)) + Item.Stop.Words()
    case Sending => cpu.later == Item.Stop.Words()
    case Stopping => cpu.later == [] && Filled(s)
    case Waiting => (m.core.irq || (Pend(cpu) == [] && Filled(s))) && (m.starved ==> Finished(m))
    case Deciding => m.core.irq || (Pend(cpu) == [] && Filled(s) && Finished(m))
    case Draining => m.core.irq
    case Jumping => cpu.now == [] && cpu.later == Item.Stop.Words()
    case Clearing => cpu.now == [] && cpu.later == Item.Stop.Words()
    case Closing => cpu.later == []
    case Returned(r) => Pend(cpu) == [] && (r == 0 || r == -1) && (r == 0 ==> Filled(s))
  }

  /** Before an error is handled: the plan is being followed and no offending byte has been passed. */
  predicate OnPlan(s: State) {
    var phase := s.cpu.phase;
    && Agenda(s.m) == Plan(s.job) && Unoffended(s.m)
    && !phase.Jumping? && !phase.Clearing? && !phase.Closing? && phase != Returned(-1)
    && (phase == Returned(0) ==> Finished(s.m))
  }

  /** Afterwards: the plan was broken off at an offending byte, the first, and only STOP follows. */
  predicate BrokenOff(s: State) {
    var phase, m, f := s.cpu.phase, s.m, s.cpu.failed;
    && 0 < f <= |m.done| && f <= |Plan(s.job)|
    && Offending(m.done[f - 1]) && (forall i :: 0 <= i < f - 1 ==> !Offending(m.done[i]))
    && Agenda(m) == Plan(s.job)[..f] + [Item.Stop]
    && match phase
       case Jumping => m.core.pc == 1 && m.core.irq && m.core.parked && m.cur.None? && m.rest == [Item.Stop]
       case Clearing => BytesOver(m) && m.core.irq
       case Closing => BytesOver(m) && !m.core.irq
       case Returned(r) => r == -1 && BytesOver(m) && !m.core.irq
       case _ => false
  }

  /** What has been received. */
  predicate Hearing(s: State) {
    var cpu, m := s.cpu, s.m;
    && cpu.first == (cpu.popped == []) && cpu.rxbuf == (if cpu.first then [] else cpu.popped[1..])
    && if s.job.mode.Write? then cpu.first && (!cpu.phase.Starting? ==> !m.rxOn)
       else if cpu.phase.Starting? || cpu.phase.Flushing? then
         cpu.first && m.core.isr == [] && (cpu.phase.Flushing? ==> m.rxOn)
       else Received(m, cpu.popped)
  }

  predicate Sound(s: State) {
    && Steady(s.m, Pend(s.cpu)) && InStep(s) && Hearing(s)
    && if s.cpu.failed == 0 then OnPlan(s) else BrokenOff(s)
  }

  // ----- Facts about one cycle the driver relies on

  lemma ExecutedFlags(word: seq<bool>, c: Core)
    ensures Executed(word, c).irq == c.irq && Executed(word, c).isr == c.isr
  {
    hide Value;
  }

  lemma OutFlags(destination: Destination, out: seq<bool>, c: Core)
    ensures ShiftedOut(destination, out, c).irq == c.irq && ShiftedOut(destination, out, c).isr == c.isr
  {
    hide Value, Executed;
    ExecutedFlags(out, c);
  }

  lemma ExecuteFlags(i: Instr, next: nat, push: Option<nat>, c: Core, env: Env)
    ensures var cycle := Execute(i, push, c, next, env);
            && (c.irq ==> cycle.core.irq)
            && (!i.op.In? ==> cycle.core.isr == c.isr && cycle.pushed == None)
            && (cycle.starved ==> i.op.Out? && c.osr == [] && env.tx == None)
  {
    hide ShiftedOut, Taken;
    if i.op.Out? {
      var osr := if c.osr == [] && env.tx.Some? then env.tx.value else c.osr;
      var n := if i.op.count <= |osr| then i.op.count else |osr|;
      OutFlags(i.op.destination, osr[..n], c.(pc := next, delay := i.delay).(osr := osr[n..]));
    }
  }

  lemma StepFlags(i: Instr, next: nat, push: Option<nat>, c: Core, env: Env)
    ensures var cycle := Step(i, next, push, c, env);
            && (c.irq ==> cycle.core.irq)
            && (!i.op.In? ==> cycle.core.isr == c.isr && cycle.pushed == None)
            && (cycle.starved ==> c.delay == 0 && i.op.Out? && c.osr == [] && env.tx == None)
  {
    hide Execute;
    if c.delay == 0 {
      ExecuteFlags(i, next, push, c.(side := if i.side.Some? then i.side.value else c.side), env);
    }
  }

  lemma NotedFlags(m: Machine, pulled: bool, dev: bool)
    ensures Noted(m, pulled, dev).rxOn == m.rxOn
  {
  }

  lemma InOnlyAtSix(pc: nat)
    ensures I2cInstr(pc).op.In? ==> pc == 6
  {
  }

  lemma CycleFlags(m: Machine, dev: bool)
    ensures var m' := SmCycle(m, dev);
            && m'.rxOn == m.rxOn && (m.core.irq ==> m'.core.irq)
            && (m.core.pc != 6 ==> m'.core.isr == m.core.isr && m'.rx == m.rx)
            && (m'.starved && !m.starved ==>
                m.core.delay == 0 && m.core.osr == [] && m.tx == [] && I2cInstr(m.core.pc).op.Out?)
  {
    hide Step, Observe, Noted, I2cInstr;
    var pc := m.core.pc;
    InOnlyAtSix(pc);
    var env := Env(m.bus.scl, m.bus.sda, if m.tx == [] then None else Some(m.tx[0]), |m.rx| < 4);
    var next, push := if pc == 17 then 12 else pc + 1, if m.rxOn then Some(8) else None;
    StepFlags(I2cInstr(pc), next, push, m.core, env);
    var cycle := Step(I2cInstr(pc), next, push, m.core, env);
    NotedFlags(m, cycle.pulled, m.dev);
    NotedFlags(m, cycle.pulled, dev);
    NotedFlags(m, cycle.pulled, true);
  }

  /** The queue runs dry either between items or within an escape. */
  lemma StarvedPlace(m: Machine, dev: bool)
    requires Placed(m) && m.core.delay == 0 && SmCycle(m, dev).starved && !m.starved
    ensures m.tx == [] && m.core.osr == []
    ensures (m.core.pc == 12 && m.cur.None?)
         || (m.core.pc == 16 && m.cur.Some? && m.k < |m.cur.value.Levels()|)
  {
    CycleFlags(m, dev);
    hide SmCycle, Log, Between, InEscape, InCell;
    if m.cur.Some? && m.cur.value.Record? && (m.core.pc == 3 || m.core.pc == 8) {
      OpenBefore(m, m.cur.value);
    }
  }

  lemma NoWordsLeft(k: nat, rest: seq<Item>)
    requires WordsLeft(None, k, rest) == []
    ensures rest == []
  {
  }

  /** Once everything is pushed, running dry means everything has been carried out. */
  lemma StarvedFinished(m: Machine, dev: bool)
    requires Steady(m, []) && SmCycle(m, dev).starved && !m.starved
    ensures Finished(SmCycle(m, dev))
  {
    hide SmCycle, Placed, Balanced, WordsLeft;
    CycleFlags(m, dev);
    assert Settled(m) == m;
    StarvedPlace(m, dev);
    BalancedWords(m, []);
    if m.cur.Some? {
      WordsOfEscape(m.cur.value, m.k, m.rest);
    } else {
      NoWordsLeft(m.k, m.rest);
      SteadyTied(m, []);
      StarveEffect(m, dev);
    }
  }

  lemma BalancedWords(m: Machine, pend: seq<seq<bool>>)
    requires Steady(m, pend)
    ensures m.tx + pend == WordsLeft(m.cur, m.k, m.rest)
  {
    hide Placed;
  }

  lemma SteadyTied(m: Machine, pend: seq<seq<bool>>)
    requires Steady(m, pend)
    ensures Tied(m)
  {
    hide Balanced, InItem, AtRest;
  }

  lemma FinishedStays(m: Machine, dev: bool, pend: seq<seq<bool>>)
    requires Steady(m, pend) && Finished(m)
    ensures Finished(SmCycle(m, dev))
  {
    hide SmCycle, Balanced, Between;
    if m.core.delay > 0 { DelayEffect(m, dev); } else { StarveEffect(m, dev); }
  }

  /** A stopped machine stays stopped. */
  lemma StoppedStays(m: Machine, dev: bool, pend: seq<seq<bool>>)
    requires Steady(m, pend) && m.core.pc == 1 && m.core.irq && m.core.parked
    ensures var m' := SmCycle(m, dev);
            m' == m.(core := m.core.(delay := m'.core.delay)) && m'.core.delay <= m.core.delay
  {
    SteadyTied(m, pend);
    hide SmCycle, Steady, Tied;
    if m.core.delay > 0 { DelayEffect(m, dev); } else { ParkEffect(m, dev); }
  }

  // ----- Before the address word is queued

  lemma SuffixWords(items: seq<Item>, a: nat, b: nat)
    requires a < b <= |items|
    ensures |AllWords(items[b..])| + |items[a].Levels()| < |AllWords(items[a..])|
    decreases b - a
  {
    assert items[a..][1..] == items[a + 1..];
    if a + 1 < b { SuffixWords(items, a + 1, b); }
  }

  lemma {:induction false} AllWordsConcat(a: seq<Item>, b: seq<Item>)
    ensures AllWords(a + b) == AllWords(a) + AllWords(b)
  {
    hide Item.Words;
    if a == [] {
      assert a + b == b;
    } else {
      AllWordsConcat(a[1..], b);
      assert (a + b)[1..] == a[1..] + b && (a + b)[0] == a[0];
      Associate(a[0].Words(), AllWords(a[1..]), AllWords(b));
    }
  }

  lemma Associate<T>(x: seq<T>, y: seq<T>, z: seq<T>)
    ensures x + (y + z) == (x + y) + z
  {
  }

  lemma AllWordsOne(item: Item)
    ensures AllWords([item]) == item.Words()
  {
    assert [item][1..] == [];
  }

  lemma PlanWords(job: Job)
    ensures AllWords(Plan(job)) == Item.Start.Words() + (AllWords(Body(job)) + Item.Stop.Words())
    ensures AllWords(Plan(job)[1..]) == AllWords(Body(job)) + Item.Stop.Words()
  {
    var tail := Body(job) + [Item.Stop];
    assert Plan(job) == [Item.Start] + tail && Plan(job)[1..] == tail;
    AllWordsConcat([Item.Start], tail);
    AllWordsConcat(Body(job), [Item.Stop]);
    AllWordsOne(Item.Start);
    AllWordsOne(Item.Stop);
  }

  /** While all the words after the START are still to be pushed, no later item has been begun. */
  lemma NotYet(m: Machine, pend: seq<seq<bool>>, plan: seq<Item>)
    requires Steady(m, pend) && Agenda(m) == plan && plan != [] && |pend| >= |AllWords(plan[1..])|
    ensures |m.done| + (if m.cur.Some? then 1 else 0) <= 1
  {
    hide Placed;
    var begun := |m.done| + (if m.cur.Some? then 1 else 0);
    BalancedWords(m, pend);
    assert m.rest == plan[begun..];
    if begun >= 2 {
      var from := if m.cur.Some? then begun - 1 else begun;
      if m.cur.Some? {
        assert m.cur.value == plan[from];
        SuffixWords(plan, from, begun);
      }
      if from > 1 { SuffixWords(plan, 1, from); }
      WordsLeftBound(m.cur, m.k, m.rest);
    }
  }

  lemma WordsLeftBound(cur: Option<Item>, k: nat, rest: seq<Item>)
    ensures |WordsLeft(cur, k, rest)| <= |AllWords(rest)| + (if cur.Some? then |cur.value.Levels()| else 0)
  {
  }

  // ----- A tick of the state machine keeps the invariant

  lemma IrqMeansStopped(m: Machine)
    requires Unoffended(m) && m.core.irq
    ensures m.core.pc == 1 && m.core.parked
  {
  }

  lemma TickInStep(s: State, dev: bool)
    requires Steady(s.m, Pend(s.cpu)) && InStep(s)
    requires s.cpu.phase.Waiting? && s.m.core.irq ==> s.m.core.pc == 1 && s.m.core.parked
    ensures InStep(s.(m := SmCycle(s.m, dev)))
  {
    hide SmCycle, Steady, Finished;
    CycleFlags(s.m, dev);
    if s.cpu.phase.Waiting? && s.m.core.irq {
      StoppedStays(s.m, dev, Pend(s.cpu));
    } else if (s.cpu.phase.Waiting? || s.cpu.phase.Deciding?) && Finished(s.m) {
      FinishedStays(s.m, dev, Pend(s.cpu));
    } else if s.cpu.phase.Waiting? && SmCycle(s.m, dev).starved {
      StarvedFinished(s.m, dev);
    }
    if Finished(s.m) && s.cpu.phase.Waiting? { FinishedStays(s.m, dev, Pend(s.cpu)); }
  }

  lemma TickPlan(s: State, dev: bool)
    requires Steady(s.m, Pend(s.cpu)) && OnPlan(s) && (EdgeDue(s.m) ==> !s.m.hold)
    ensures OnPlan(s.(m := SmCycle(s.m, dev)))
  {
    hide SmCycle, Steady, Finished, Unoffended, EdgeDue, Agenda;
    CycleKeeps(s.m, dev, Pend(s.cpu));
    if Finished(s.m) { FinishedStays(s.m, dev, Pend(s.cpu)); }
  }

  lemma TickBroken(s: State, dev: bool)
    requires Steady(s.m, Pend(s.cpu)) && BrokenOff(s) && (EdgeDue(s.m) ==> !s.m.hold)
    ensures BrokenOff(s.(m := SmCycle(s.m, dev)))
  {
    hide SmCycle, Steady, Unoffended, EdgeDue, Agenda, BytesOver, Offending;
    CycleKeeps(s.m, dev, Pend(s.cpu));
    if s.cpu.phase.Jumping? { StoppedStays(s.m, dev, Pend(s.cpu)); }
  }

  lemma SamplesInRecords(m: Machine, pend: seq<seq<bool>>)
    requires Steady(m, pend) && m.core.pc == 6
    ensures m.cur.Some? && m.cur.value.Record?
  {
    hide Balanced, InRecord, InEscape, Between;
  }

  lemma TickHearing(s: State, dev: bool)
    requires Steady(s.m, Pend(s.cpu)) && InStep(s) && Hearing(s) && (s.cpu.failed == 0 ==> OnPlan(s))
    requires s.cpu.failed > 0 ==> BrokenOff(s)
    ensures Hearing(s.(m := SmCycle(s.m, dev)))
  {
    hide SmCycle, Steady, Received, Unoffended, Agenda, EdgeDue;
    var pend := Pend(s.cpu);
    CycleFlags(s.m, dev);
    if s.job.mode.Read? {
      if s.cpu.phase.Starting? || s.cpu.phase.Flushing? {
        NoRecordYet(s);
        if s.m.core.pc == 6 { SamplesInRecords(s.m, pend); }
      } else {
        CycleHears(s.m, dev, pend, s.cpu.popped);
      }
    }
  }

  /** Until the loop begins, the machine has at most the START under way. */
  lemma NoRecordYet(s: State)
    requires Steady(s.m, Pend(s.cpu)) && InStep(s) && OnPlan(s) && (s.cpu.phase.Starting? || s.cpu.phase.Flushing?)
    ensures s.m.cur.Some? ==> s.m.done == [] && s.m.cur.value == Item.Start
    ensures forall sent <- s.m.done :: sent.item == Item.Start
    ensures |s.m.done| <= 1
  {
    hide Steady, Unoffended;
    PlanWords(s.job);
    NotYet(s.m, Pend(s.cpu), Plan(s.job));
    assert Agenda(s.m)[0] == Item.Start;
  }

  lemma TickKeeps(s: State, dev: bool)
    requires Sound(s) && (EdgeDue(s.m) ==> !s.m.hold)
    ensures Sound(Next(s, Tick(dev)))
  {
    if s.m.core.irq && s.cpu.failed == 0 { IrqMeansStopped(s.m); }
    hide SmCycle, Steady, InStep, Hearing, EdgeDue, Agenda, Unoffended, BytesOver, Offending, Finished;
    CycleKeeps(s.m, dev, Pend(s.cpu));
    TickInStep(s, dev);
    TickHearing(s, dev);
    if s.cpu.failed == 0 { TickPlan(s, dev); } else { TickBroken(s, dev); }
  }

  // ----- So do the device's and the processor's moves

  /** Only the FIFOs, the stall flag and the wires differ. */
  predicate SameCourse(m: Machine, m': Machine) {
    m' == m.(tx := m'.tx, rx := m'.rx, rxOn := m'.rxOn, starved := m'.starved, hold := m'.hold, bus := m'.bus)
  }

  lemma PlanCarries(s: State, s': State)
    requires OnPlan(s) && s'.job == s.job && SameCourse(s.m, s'.m)
    requires !s'.cpu.phase.Jumping? && !s'.cpu.phase.Clearing? && !s'.cpu.phase.Closing? && s'.cpu.phase != Returned(-1)
    requires s'.cpu.phase == Returned(0) ==> Finished(s'.m)
    ensures OnPlan(s')
  {
    hide Plan, Finished;
  }

  lemma BrokenCarries(s: State, s': State)
    requires BrokenOff(s) && s'.job == s.job && SameCourse(s.m, s'.m) && s'.cpu.failed == s.cpu.failed
    requires s'.cpu.phase == s.cpu.phase || (s.cpu.phase.Closing? && s'.cpu.phase == Returned(-1))
    ensures BrokenOff(s')
  {
    hide Plan, Offending;
  }

  lemma ReceivedCarries(m: Machine, m': Machine, taken: seq<seq<bool>>, taken': seq<seq<bool>>)
    requires Received(m, taken) && SameCourse(m, m') && m'.rxOn == m.rxOn && taken' + m'.rx == taken + m.rx
    ensures Received(m', taken')
  {
    hide Bytes, Wire;
  }

  lemma StretchKeepsSound(s: State, v: Move)
    requires Sound(s) && Enabled(s, v) && (v.Grab? || v.Release?)
    ensures Sound(Next(s, v))
  {
    hide OnPlan, BrokenOff, Steady, Received, PioI2c.Grab, PioI2c.Release, Item.Words, AllWords, Body;
    var s' := Next(s, v);
    StretchingKeeps(s.m, s'.m, Pend(s.cpu));
    if s.cpu.failed == 0 { StillFinished(s); PlanCarries(s, s'); } else { BrokenCarries(s, s'); }
    if s.job.mode.Read? && !s.cpu.phase.Starting? && !s.cpu.phase.Flushing? {
      ReceivedCarries(s.m, s'.m, s.cpu.popped, s.cpu.popped);
    }
  }

  lemma StillFinished(s: State)
    requires OnPlan(s)
    ensures s.cpu.phase == Returned(0) ==> Finished(s.m)
    ensures !s.cpu.phase.Jumping? && !s.cpu.phase.Clearing? && !s.cpu.phase.Closing? && s.cpu.phase != Returned(-1)
  {
    hide Plan, Finished, Unoffended;
  }

  /** The FIFOs may change hands as long as the queue and what is yet to be pushed keep their order. */
  lemma QueueKeeps(m: Machine, m': Machine, pend: seq<seq<bool>>, pend': seq<seq<bool>>)
    requires Steady(m, pend) && m' == m.(tx := m'.tx, rx := m'.rx, rxOn := m'.rxOn, starved := m'.starved)
    requires m'.tx + pend' == m.tx + pend
    ensures Steady(m', pend')
  {
    hide WordsLeft, WellOrdered, Log;
    hide Placed;
    AlikePlaced(Settled(m), Settled(m'));
  }

  lemma PushKeeps(s: State)
    requires Sound(s) && Enabled(s, Push)
    ensures Sound(Next(s, Push))
  {
    hide OnPlan, BrokenOff, Steady, Received, Item.Words, AllWords, Body;
    var s' := Next(s, Push);
    assert s.cpu.now == [s.cpu.now[0]] + s.cpu.now[1..];
    assert s'.m.tx + Pend(s'.cpu) == s.m.tx + Pend(s.cpu);
    QueueKeeps(s.m, s'.m, Pend(s.cpu), Pend(s'.cpu));
    if s.cpu.failed == 0 { StillFinished(s); PlanCarries(s, s'); } else { BrokenCarries(s, s'); }
    if s.job.mode.Read? && !s.cpu.phase.Starting? {
      ReceivedCarries(s.m, s'.m, s.cpu.popped, s.cpu.popped);
    }
  }

  lemma StartDoneKeeps(s: State)
    requires Sound(s) && Enabled(s, StartDone)
    ensures Sound(Next(s, StartDone))
  {
    hide OnPlan, BrokenOff, Steady, Received, Item.Words, AllWords, Body;
    NotBroken(s);
    var s' := Next(s, StartDone);
    QueueKeeps(s.m, s'.m, Pend(s.cpu), Pend(s'.cpu));
    PlanCarries(s, s');
  }

  lemma NotBroken(s: State)
    ensures BrokenOff(s) ==>
              s.cpu.phase.Jumping? || s.cpu.phase.Clearing? || s.cpu.phase.Closing? || s.cpu.phase == Returned(-1)
  {
    hide Plan, Offending, BytesOver;
  }

  lemma FlushPopKeeps(s: State)
    requires Sound(s) && Enabled(s, FlushPop)
    ensures Sound(Next(s, FlushPop))
  {
    hide OnPlan, BrokenOff, Steady, Received, Item.Words, AllWords, Body;
    NotBroken(s);
    var s' := Next(s, FlushPop);
    QueueKeeps(s.m, s'.m, Pend(s.cpu), Pend(s'.cpu));
    PlanCarries(s, s');
  }

  lemma NothingHeardYet(m: Machine)
    requires |m.done| <= 1 && forall sent <- m.done :: sent.item == Item.Start
    requires m.cur.Some? ==> m.cur.value == Item.Start
    requires m.rxOn && m.rx == [] && m.core.isr == []
    ensures Received(m, [])
  {
    if m.done != [] {
      assert m.done[..0] == [];
      assert Bytes(m.done) == Bytes([]) + BytesOf(m.done[0]);
    }
  }

  /** When the read loop begins the FIFO is empty and nothing has been heard. */
  lemma {:induction false} FlushDoneKeeps(s: State)
    requires Sound(s) && Enabled(s, FlushDone)
    ensures Sound(Next(s, FlushDone))
  {
    hide OnPlan, BrokenOff, Steady, Received, Item.Words, AllWords, Body;
    NotBroken(s);
    NoRecordYet(s);
    NothingHeardYet(s.m);
    var s' := Next(s, FlushDone);
    QueueKeeps(s.m, s'.m, Pend(s.cpu), Pend(s'.cpu));
    PlanCarries(s, s');
  }

  lemma PopKeeps(s: State)
    requires Sound(s) && Enabled(s, Pop)
    ensures Sound(Next(s, Pop))
  {
    hide OnPlan, BrokenOff, Steady, Received, Item.Words, AllWords, Body;
    NotBroken(s);
    var s' := Next(s, Pop);
    QueueKeeps(s.m, s'.m, Pend(s.cpu), Pend(s'.cpu));
    PlanCarries(s, s');
    var popped, byte := s.cpu.popped, s.m.rx[0];
    assert s.m.rx == [byte] + s.m.rx[1..];
    assert popped + [byte] + s.m.rx[1..] == popped + s.m.rx;
    ReceivedCarries(s.m, s'.m, popped, s'.cpu.popped);
    assert (popped + [byte])[1..] == if popped == [] then [] else popped[1..] + [byte];
  }

  /** The moves between phases that touch neither the queue nor the receiver. */
  lemma PhaseKeeps(s: State, v: Move)
    requires Sound(s) && Enabled(s, v) && (v.SendDone? || v.Abort? || v.StopDone? || v.Wake? || v.Decide?)
    ensures Sound(Next(s, v))
  {
    hide OnPlan, BrokenOff, Steady, Received, Item.Words, AllWords, Body, Finished;
    NotBroken(s);
    var s' := Next(s, v);
    assert Pend(s'.cpu) == Pend(s.cpu);
    QueueKeeps(s.m, s'.m, Pend(s.cpu), Pend(s'.cpu));
    PlanCarries(s, s');
    if s.job.mode.Read? { ReceivedCarries(s.m, s'.m, s.cpu.popped, s.cpu.popped); }
  }

  lemma ReturnKeeps(s: State)
    requires Sound(s) && Enabled(s, Return)
    ensures Sound(Next(s, Return))
  {
    hide OnPlan, BrokenOff, Steady, Received, Item.Words, AllWords, Body, Finished;
    StillBroken(s);
    BrokenCarries(s, Next(s, Return));
  }

  lemma StillBroken(s: State)
    requires Sound(s) && (s.cpu.phase.Jumping? || s.cpu.phase.Clearing? || s.cpu.phase.Closing?)
    ensures BrokenOff(s) && s.cpu.failed > 0
  {
    hide Steady, InStep, Hearing, Plan;
  }

  // ----- Recovering from an error

  lemma DrainBalanced(done: seq<Sent>, k: nat, rest: seq<Item>, tx: seq<seq<bool>>, pend: seq<seq<bool>>)
    requires Balanced(done, None, k, rest, tx, pend) && done != [] && !Last(done).item.Stop?
    ensures Balanced(done, None, k, [Item.Stop], [], Item.Stop.Words())
  {
    AllWordsOne(Item.Stop);
    assert [] + Item.Stop.Words() == Item.Stop.Words();
    assert [] + [Item.Stop] == [Item.Stop] && [Item.Stop][1..] == [];
    hide Item.Words;
  }

  /** The machine has stopped between items, after an offending byte. */
  lemma StoppedPlace(m: Machine, pend: seq<seq<bool>>)
    requires Steady(m, pend) && m.core.pc == 1
    ensures m.cur.None? && m.done != [] && Offending(Last(m.done))
  {
    hide Balanced, InEscape, Between, Offending;
  }

  lemma DrainSteady(m: Machine, pend: seq<seq<bool>>)
    requires Steady(m, pend) && m.core.pc == 1
    ensures Steady(m.(tx := [], rest := [Item.Stop]), Item.Stop.Words())
  {
    StoppedPlace(m, pend);
    DrainBalanced(m.done, m.k, m.rest, m.tx, pend);
    hide Balanced, Log;
  }

  /** Discarding the queue breaks the plan off exactly at the offending byte. */
  lemma DrainBreaks(s: State)
    requires OnPlan(s) && Steady(s.m, Pend(s.cpu)) && s.m.core.irq && Enabled(s, Drain)
    ensures BrokenOff(Next(s, Drain))
  {
    hide Steady, Offending, Plan;
    StoppedPlace(s.m, Pend(s.cpu));
    var n := |s.m.done|;
    assert Items(s.m.done) + [] == Plan(s.job)[..n];
  }

  lemma DrainKeeps(s: State)
    requires Sound(s) && Enabled(s, Drain)
    ensures Sound(Next(s, Drain))
  {
    hide BrokenOff, Steady, Received, Item.Words, AllWords, Body, Offending, Plan, Agenda;
    NotBroken(s);
    DrainSteady(s.m, Pend(s.cpu));
    StoppedPlace(s.m, Pend(s.cpu));
    DrainBreaks(s);
    var s' := Next(s, Drain);
    if s.job.mode.Read? { ReceivedRecovering(s.m, s'.m, s.cpu.popped); }
    assert Pend(s'.cpu) == Item.Stop.Words();
  }

  lemma ReceivedRecovering(m: Machine, m': Machine, taken: seq<seq<bool>>)
    requires Received(m, taken) && m.cur.None? && m'.cur.None?
    requires m'.rxOn == m.rxOn && m'.rx == m.rx && m'.core.isr == m.core.isr && m'.done == m.done
    ensures Received(m', taken)
  {
    hide Bytes;
  }

  /** The jump to the entry point takes the machine out of its wait. */
  lemma JumpSteady(m: Machine, pend: seq<seq<bool>>)
    requires Steady(m, pend) && m.core.pc == 1
    ensures Steady(m.(core := m.core.(pc := 12, osr := [], delay := 0, parked := false)), pend)
  {
    StoppedPlace(m, pend);
    hide Balanced, Log;
  }

  lemma JumpKeeps(s: State)
    requires Sound(s) && Enabled(s, Jump)
    ensures Sound(Next(s, Jump))
  {
    hide Steady, Received, Item.Words, AllWords, Body, Offending, Plan;
    JumpSteady(s.m, Pend(s.cpu));
    StoppedPlace(s.m, Pend(s.cpu));
    var s' := Next(s, Jump);
    if s.job.mode.Read? { ReceivedRecovering(s.m, s'.m, s.cpu.popped); }
  }

  lemma ClearSteady(m: Machine, pend: seq<seq<bool>>)
    requires Steady(m, pend) && m.core.pc >= 2
    ensures Steady(m.(core := m.core.(irq := false)), pend)
  {
    hide Balanced, InItem, AtRest;
    AlikePlaced(Settled(m), Settled(m.(core := m.core.(irq := false))));
  }

  lemma ClearKeeps(s: State)
    requires Sound(s) && Enabled(s, Clear)
    ensures Sound(Next(s, Clear))
  {
    hide Steady, Item.Words, AllWords, Body, Offending, Plan, Bytes, Wire;
    ClearSteady(s.m, Pend(s.cpu));
    var s' := Next(s, Clear);
    assert Pend(s'.cpu) == Pend(s.cpu);
  }

  /** Every move keeps the invariant, but for a cycle that drives an edge under a held clock. */
  lemma MoveKeeps(s: State, v: Move)
    requires Sound(s) && Enabled(s, v) && (v.Tick? && EdgeDue(s.m) ==> !s.m.hold)
    ensures Sound(Next(s, v))
  {
    hide Sound, Enabled, Next, EdgeDue;
    match v
    case Tick(dev) => TickKeeps(s, dev);
    case Grab => StretchKeepsSound(s, v);
    case Release => StretchKeepsSound(s, v);
    case Push => PushKeeps(s);
    case StartDone => StartDoneKeeps(s);
    case FlushPop => FlushPopKeeps(s);
    case FlushDone => FlushDoneKeeps(s);
    case Pop => PopKeeps(s);
    case Drain => DrainKeeps(s);
    case Jump => JumpKeeps(s);
    case Clear => ClearKeeps(s);
    case Return => ReturnKeeps(s);
    case _ => PhaseKeeps(s, v);
  }

  // ----- Whole runs

  lemma PlanOrdered(job: Job)
    ensures WellOrdered(true, Plan(job))
  {
    assert Plan(job)[1..] == Body(job) + [Item.Stop];
    BodyRecords(job);
    RecordsOrdered(Body(job));
  }

  lemma BodyRecords(job: Job)
    ensures forall item <- Body(job) :: item.Record?
  {
    match job.mode
    case Write(data) => PayloadRecords(data);
    case Read(len) => ClocksRecords(len);
  }

  lemma {:induction false} PayloadRecords(data: seq<Octet>)
    ensures forall item <- Payload(data) :: item.Record?
  {
    if data != [] { PayloadRecords(data[1..]); }
  }

  lemma {:induction false} ClocksRecords(len: nat)
    ensures forall item <- Clocks(len) :: item.Record?
  {
    if len > 0 { ClocksRecords(len - 1); }
  }

  lemma RecordsOrdered(records: seq<Item>)
    requires forall item <- records :: item.Record?
    ensures WellOrdered(false, records + [Item.Stop])
  {
    if records == [] {
      assert WellOrdered(true, []);
      assert [Item.Stop][1..] == [];
      assert records + [Item.Stop] == [Item.Stop];
    } else {
      RecordsOrdered(records[1..]);
      assert records[0] in records;
      assert (records + [Item.Stop])[0] == records[0];
      assert (records + [Item.Stop])[1..] == records[1..] + [Item.Stop];
    }
  }

  lemma BegunSteady(s: State)
    requires Begun(s)
    ensures Steady(s.m, Pend(s.cpu))
  {
    PlanOrdered(s.job);
    PlanWords(s.job);
    assert [] + Plan(s.job) == Plan(s.job);
    hide Plan, AllWords, WellOrdered, Body, Item.Words;
    assert s.m.tx + Pend(s.cpu) == WordsLeft(s.m.cur, s.m.k, s.m.rest);
  }

  lemma BegunSound(s: State)
    requires Begun(s)
    ensures Sound(s)
  {
    BegunSteady(s);
    hide Plan, AllWords, Steady, Body, Item.Words;
    assert Items(s.m.done) + [] + s.m.rest == s.m.rest;
  }

  // ----- What is carried out, in terms of the call

  /** No item left to carry out. */
  predicate AllDone(m: Machine) {
    m.cur.None? && m.rest == []
  }

  lemma OffendingRecord(s: Sent)
    ensures Offending(s) ==> s.item.Record? && !s.item.final
  {
  }

  lemma BreakPoint(job: Job, f: nat)
    requires 0 < f <= |Plan(job)| && Plan(job)[f - 1].Record?
    ensures 1 < f < |Plan(job)| && Plan(job)[..f] == [Item.Start] + Body(job)[..f - 1]
  {
    hide Body;
  }

  lemma EscapePlace(m: Machine, pend: seq<seq<bool>>)
    requires Steady(m, pend) && m.core.pc == 16
    ensures m.cur.Some? && m.k < |m.cur.value.Levels()|
  {
    hide Balanced, Between, InEscape, InCell, BeforeCell;
  }

  lemma SoundSteady(s: State)
    requires Sound(s)
    ensures Steady(s.m, Pend(s.cpu))
  {
    hide Steady, Hearing, InStep, OnPlan, BrokenOff;
  }

  lemma PlanOf(s: State)
    requires Sound(s)
    ensures s.cpu.failed == 0 ==> OnPlan(s)
    ensures s.cpu.failed > 0 ==> BrokenOff(s)
    ensures InStep(s)
  {
    hide InStep, OnPlan, BrokenOff, Steady, Hearing;
  }

  /** The agenda is a START, a first part of the call's records, and one STOP. */
  lemma AgendaShape(s: State) returns (n: nat)
    requires Sound(s)
    ensures n <= |Body(s.job)| && Agenda(s.m) == [Item.Start] + Body(s.job)[..n] + [Item.Stop]
  {
    hide Steady, Hearing, InStep, Unoffended, Finished, BytesOver, Body, Offending;
    if s.cpu.failed == 0 {
      n := |Body(s.job)|;
    } else {
      var f := s.cpu.failed;
      OffendingRecord(s.m.done[f - 1]);
      assert Agenda(s.m)[f - 1] == Plan(s.job)[f - 1];
      BreakPoint(s.job, f);
      n := f - 1;
    }
  }

  /** So there is no repeated START in it, and nothing comes after the STOP. */
  lemma StopLast(s: State)
    requires Sound(s)
    ensures s.m.cur != Some(Item.Restart) && (s.m.cur == Some(Item.Stop) ==> s.m.rest == [])
    ensures s.m.rest == [] && s.m.cur.Some? ==> s.m.cur == Some(Item.Stop)
  {
    hide Sound, Body;
    var n := AgendaShape(s);
    BodyRecords(s.job);
    var m, agenda := s.m, Agenda(s.m);
    if m.cur.Some? {
      var j := |m.done|;
      assert agenda[j] == m.cur.value && |agenda| == j + 1 + |m.rest|;
      if 1 <= j <= n {
        assert agenda[j] == Body(s.job)[j - 1] && Body(s.job)[j - 1] in Body(s.job);
      }
    }
  }
}
