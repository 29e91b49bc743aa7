/** The PIO I2C driver and its state machine never wait for each other forever. */
module PioI2cProgress {
  import opened Wrappers
  import opened Pio
  import opened I2cBus
  import opened PioI2cWords
  import opened PioI2c
  import opened PioI2cReceive
  import opened PioI2cDriver
  import opened PioI2cStretch
  import opened PioI2cOutcome

  // ----- What a cycle of the state machine uses up

  /** A bound on the instructions left before the next header word. */
  function Left(m: Machine): nat {
    var pc, x := m.core.pc, m.core.x;
    var escape := if m.cur.Some? && m.k <= |m.cur.value.Levels()| then |m.cur.value.Levels()| - m.k else 0;
    match pc
    case 0 => 2
    case 1 => if m.core.parked then 0 else 1
    case 2 => 61
    case 3 => 5 * x + 11
    case 4 => 5 * x + 10
    case 5 => 5 * x + 9
    case 6 => 5 * x + 8
    case 7 => 5 * x + 7
    case 8 => 6
    case 9 => 5
    case 10 => 4
    case 11 => 3
    case 12 => 0
    case 13 => 64
    case 14 => 63
    case 15 => 62
    case 16 => 2 * escape
    case 17 => 2 * escape + 1
    case _ => 0
  }

  /** A bound on the cycles left if nothing holds the machine up. */
  function Work(m: Machine): nat {
    600 * |m.rest| + 8 * Left(m) + m.core.delay
  }

  /** What the machine can be waiting for: the device to let go of the clock, room in the RX FIFO,
      a word in the TX FIFO, or the processor to deal with an error. */
  predicate Stalled(m: Machine) {
    m.core.delay == 0 &&
    match m.core.pc
    case 1 => m.core.parked
    case 5 => m.hold
    case 10 => m.hold
    case 6 => m.rxOn && |m.rx| >= 4
    case 12 => m.tx == []
    case 16 => m.tx == []
    case _ => false
  }

  predicate Worked(m: Machine, m': Machine) {
    Work(m') < Work(m) && |m'.rx| <= |m.rx| + 1
  }

  lemma StopWorks(m: Machine, dev: bool)
    requires Tied(m) && m.core.delay == 0 && !Stalled(m) && (m.core.parked ==> m.core.irq)
    requires m.core.pc == 0 || m.core.pc == 1 || (m.core.pc == 17 && m.cur.None?)
    ensures Worked(m, SmCycle(m, dev)) && SmCycle(m, dev).starved == m.starved
  {
    hide SmCycle, Tied;
    match m.core.pc
    case 0 => NackEffect(m, dev);
    case 1 => ParkEffect(m, dev);
    case _ => RepeatEffect(m, dev);
  }

  lemma FetchWorks(m: Machine, dev: bool)
    requires Tied(m) && m.core.delay == 0 && m.core.pc == 12 && m.core.osr == []
    requires m.tx != [] && m.rest != [] && |m.tx[0]| == 16
    ensures Worked(m, SmCycle(m, dev)) && SmCycle(m, dev).starved == m.starved
  {
    hide SmCycle, Tied;
    FetchEffect(m, dev);
  }

  lemma RestWorks(m: Machine, dev: bool, pend: seq<seq<bool>>)
    requires Steady(m, pend) && m.core.delay == 0 && m.cur.None? && !Stalled(m)
    ensures Worked(m, SmCycle(m, dev)) && SmCycle(m, dev).starved == m.starved
  {
    hide SmCycle, Balanced, Between, Worked;
    assert Settled(m) == m;
    if m.core.pc == 12 {
      FetchBalanced(m.done, m.k, m.rest, m.tx, pend);
      FetchWorks(m, dev);
    } else {
      StopWorks(m, dev);
    }
  }

  lemma UnpackWorks(m: Machine, dev: bool)
    requires Tied(m) && m.core.delay == 0 && m.cur.Some? && m.core.osr != [] && |m.core.osr| <= 32
    requires 13 <= m.core.pc <= 15
    ensures Worked(m, SmCycle(m, dev)) && SmCycle(m, dev).starved == m.starved
  {
    hide SmCycle, Tied;
    match m.core.pc
    case 13 => FlagEffect(m, dev);
    case 14 => BranchEffect(m, dev);
    case _ => DiscardEffect(m, dev);
  }

  lemma ExecWorks(m: Machine, item: Item, dev: bool, pend: seq<seq<bool>>)
    requires Steady(m, pend) && m.core.delay == 0 && m.cur == Some(item) && m.core.pc == 16 && m.tx != []
    ensures Worked(m, SmCycle(m, dev)) && SmCycle(m, dev).starved == m.starved
  {
    hide SmCycle, Balanced, InEscape, Between, Log, SetSclSda, Observe;
    assert Settled(m) == m;
    ExecBalanced(m.done, item, m.k, m.rest, m.tx, pend);
    var (scl, sda) := item.Levels()[m.k];
    ExecEffect(m, dev, scl, sda);
  }

  lemma RepeatWorks(m: Machine, item: Item, dev: bool)
    requires Tied(m) && InItem(m, item) && m.core.delay == 0 && m.cur == Some(item) && m.core.pc == 17
    ensures Worked(m, SmCycle(m, dev)) && SmCycle(m, dev).starved == m.starved
  {
    hide SmCycle, InEscape, Tied;
    RepeatEffect(m, dev);
  }

  lemma ClockWorks(m: Machine, dev: bool)
    requires Tied(m) && m.core.delay == 0 && !Stalled(m)
    requires m.core.pc == 4 || m.core.pc == 9 || ((m.core.pc == 5 || m.core.pc == 10) && m.core.side)
    ensures Worked(m, SmCycle(m, dev)) && SmCycle(m, dev).starved == m.starved
  {
    hide SmCycle, Observe;
    if m.core.pc == 4 || m.core.pc == 9 { ClockEffect(m, dev); } else { StretchEffect(m, dev); }
  }

  lemma CellWorks(m: Machine, dev: bool)
    requires Tied(m) && m.core.delay == 0 && (m.core.pc == 3 || m.core.pc == 8) && m.core.osr != []
    ensures Worked(m, SmCycle(m, dev)) && SmCycle(m, dev).starved == m.starved
  {
    hide SmCycle, Observe;
    CellEffect(m, dev);
  }

  lemma SampleWorks(m: Machine, dev: bool)
    requires Tied(m) && m.core.delay == 0 && m.core.pc == 6 && (m.rxOn && |m.core.isr| >= 7 ==> |m.rx| < 4)
    ensures Worked(m, SmCycle(m, dev)) && SmCycle(m, dev).starved == m.starved
  {
    hide SmCycle, Tied;
    SampleEffect(m, dev);
  }

  lemma EdgeWorks(m: Machine, dev: bool)
    requires Tied(m) && m.core.delay == 0 && m.cur.Some? && (m.core.pc == 2 || m.core.pc == 7 || m.core.pc == 11)
    ensures Worked(m, SmCycle(m, dev)) && SmCycle(m, dev).starved == m.starved
  {
    hide SmCycle, Tied, Observe;
    match m.core.pc
    case 2 => ByteEffect(m, dev);
    case 7 => FallEffect(m, dev);
    case _ => AckEffect(m, dev);
  }

  lemma RecordWorks(m: Machine, item: Item, dev: bool)
    requires item.Record? && m.cur == Some(item) && InRecord(m, item) && m.core.delay == 0 && !Stalled(m)
    ensures Worked(m, SmCycle(m, dev)) && SmCycle(m, dev).starved == m.starved
  {
    hide SmCycle, Worked, InRecord, InCell;
    RecordTied(m, item);
    match m.core.pc
    case 3 => OpenBefore(m, item); CellWorks(m, dev);
    case 8 => OpenBefore(m, item); CellWorks(m, dev);
    case 4 => ClockWorks(m, dev);
    case 9 => ClockWorks(m, dev);
    case 5 => OpenCell(m, item); ClockHigh(m, item, CellIndex(m.core)); ClockWorks(m, dev);
    case 10 => OpenCell(m, item); ClockHigh(m, item, CellIndex(m.core)); ClockWorks(m, dev);
    case 6 => SampleWorks(m, dev);
    case _ => EdgeWorks(m, dev);
  }

  lemma ClockHigh(m: Machine, item: Item, i: nat)
    requires item.Record? && i < 9 && InCell(m, item, i, true)
    ensures m.core.side
  {
  }

  lemma ItemWorks(m: Machine, item: Item, dev: bool, pend: seq<seq<bool>>)
    requires Steady(m, pend) && m.core.delay == 0 && m.cur == Some(item) && !Stalled(m)
    ensures Worked(m, SmCycle(m, dev)) && SmCycle(m, dev).starved == m.starved
  {
    hide SmCycle, Balanced, InRecord, InEscape, Between, Worked;
    assert Settled(m) == m;
    match m.core.pc
    case 13 => UnpackWorks(m, dev);
    case 14 => UnpackWorks(m, dev);
    case 15 => UnpackWorks(m, dev);
    case 16 => ExecWorks(m, item, dev, pend);
    case 17 => RepeatWorks(m, item, dev);
    case _ => RecordWorks(m, item, dev);
  }

  lemma FullStays(m: Machine, dev: bool)
    requires Tied(m) && m.core.delay == 0 && m.core.pc == 6
    ensures SmCycle(m, dev) == m || (Worked(m, SmCycle(m, dev)) && SmCycle(m, dev).starved == m.starved)
  {
    hide SmCycle, Tied, Work;
    if m.rxOn && |m.core.isr| >= 7 && |m.rx| >= 4 {
      SampleEffect(m, dev);
    } else {
      SampleWorks(m, dev);
    }
  }

  lemma StarvingPlace(m: Machine, pend: seq<seq<bool>>)
    requires Steady(m, pend) && (m.core.pc == 12 || m.core.pc == 16)
    ensures m.core.osr == [] && (m.core.pc == 12 ==> m.cur.None?)
  {
    hide Balanced, Between, InEscape, InCell, BeforeCell;
  }

  /** Every cycle uses up some work, unless the machine is waiting for someone; then nothing changes but
      the stall flag. */
  lemma CycleWorks(m: Machine, dev: bool, pend: seq<seq<bool>>)
    requires Steady(m, pend)
    ensures var m' := SmCycle(m, dev);
            || (Worked(m, m') && m'.starved == m.starved)
            || (Stalled(m) && m' == m.(starved := m.starved || m.core.pc == 12 || m.core.pc == 16))
  {
    hide SmCycle, Balanced, Between, InEscape, InRecord, Worked;
    if m.core.delay > 0 {
      SteadyTied(m, pend);
      DelayEffect(m, dev);
      DelayWorks(m);
    } else if !Stalled(m) {
      if m.cur.None? { RestWorks(m, dev, pend); } else { ItemWorks(m, m.cur.value, dev, pend); }
    } else {
      assert Settled(m) == m;
      match m.core.pc
      case 1 => ParkEffect(m, dev);
      case 5 => StretchEffect(m, dev);
      case 10 => StretchEffect(m, dev);
      case 6 => FullStays(m, dev);
      case _ => StarvingPlace(m, pend); StarveEffect(m, dev);
    }
  }

  lemma DelayWorks(m: Machine)
    requires m.core.delay > 0
    ensures Worked(m, m.(core := m.core.(delay := m.core.delay - 1)))
  {
  }

  // ----- What a move of either side uses up

  /** More than the phases still to come can add to the work: breaking off an error puts a STOP in the queue,
      and waiting begins by clearing the stall flag. */
  function Budget(phase: Phase): nat {
    match phase
    case Starting => 1216
    case Flushing => 1215
    case Sending => 1214
    case Stopping => 1213
    case Waiting => 1211
    case Deciding => 1210
    case Draining => 1209
    case Jumping => 3
    case Clearing => 2
    case Closing => 1
    case Returned(_) => 0
  }

  function Toil(s: State): nat {
    2 * Work(s.m) + |Pend(s.cpu)| + |s.m.rx| + if s.m.starved then 0 else 1
  }

  /** A bound on what is left to do. */
  function Effort(s: State): nat {
    Toil(s) + Budget(s.cpu.phase)
  }

  lemma SameWork(m: Machine, m': Machine)
    requires m' == m.(tx := m'.tx, rx := m'.rx, rxOn := m'.rxOn, starved := m'.starved, hold := m'.hold, bus := m'.bus)
    ensures Work(m') == Work(m)
  {
  }

  lemma TickEffort(s: State, dev: bool)
    requires Sound(s)
    ensures Effort(Next(s, Tick(dev))) < Effort(s) || (Stalled(s.m) && Next(s, Tick(dev)) == s)
    ensures !Stalled(s.m) ==> Effort(Next(s, Tick(dev))) < Effort(s)
    ensures s.m.tx == [] && Stalled(s.m) && (s.m.core.pc == 12 || s.m.core.pc == 16) && !s.m.starved ==>
            Effort(Next(s, Tick(dev))) < Effort(s)
  {
    hide Sound, SmCycle, Work, Budget;
    SoundSteady(s);
    CycleWorks(s.m, dev, Pend(s.cpu));
    SameWork(s.m, s.m.(starved := true));
  }

  /** Breaking off leaves one STOP; the jump leaves the machine waiting for its header. */
  lemma RecoverWork(m: Machine)
    ensures Work(m.(tx := [], rest := [Item.Stop])) <= Work(m) + 600
    ensures Work(m.(core := m.core.(pc := 12, osr := [], delay := 0, parked := false))) <= Work(m)
    ensures Work(m.(core := m.core.(irq := false))) == Work(m)
  {
  }

  lemma StopWords()
    ensures |Item.Stop.Words()| == 4
  {
  }

  lemma RecoverEffort(s: State, v: Move)
    requires InStep(s) && Enabled(s, v) && (v.Drain? || v.Jump? || v.Clear?)
    ensures Effort(Next(s, v)) < Effort(s)
  {
    hide Work, Item.Words, AllWords, Body, Finished, EdgeDue, SmCycle, Loop, Took;
    RecoverWork(s.m);
    StopWords();
  }

  /** The loop's words were already among those to come. */
  lemma LoopEffort(s: State, v: Move)
    requires InStep(s) && Enabled(s, v) && (v.StartDone? || v.FlushDone?)
    ensures Effort(Next(s, v)) < Effort(s)
  {
    hide Work, Item.Words, AllWords, Body, Finished, EdgeDue, SmCycle, Took;
    SameWork(s.m, Next(s, v).m);
  }

  lemma ProcessorEffort(s: State, v: Move)
    requires InStep(s) && Enabled(s, v) && !v.Tick? && !v.Grab? && !v.Release?
    ensures Effort(Next(s, v)) < Effort(s)
  {
    hide Work, InStep, EdgeDue, SmCycle, Loop;
    if v.Drain? || v.Jump? || v.Clear? {
      RecoverEffort(s, v);
    } else if v.StartDone? || v.FlushDone? {
      LoopEffort(s, v);
    } else {
      SameWork(s.m, Next(s, v).m);
    }
  }

  lemma StretchEffort(s: State, v: Move)
    requires Enabled(s, v) && (v.Grab? || v.Release?)
    ensures Effort(Next(s, v)) == Effort(s)
  {
    hide Work, Budget;
    SameWork(s.m, Next(s, v).m);
  }

  lemma MendedEffort(s: State)
    ensures Effort(Mend(s)) == Effort(s)
  {
    hide Work, Budget;
    SameWork(s.m, Mended(s.m));
  }

  // ----- Somebody can always move

  /** A move that is certain to be possible: a push needs a free FIFO entry. */
  predicate Surely(s: State, v: Move) {
    Enabled(s, v) && (v.Push? ==> |s.m.tx| < 4)
  }

  predicate Useful(s: State, dev: bool, v: Move) {
    && Surely(s, v) && !v.Grab? && !v.Release? && (v.Tick? ==> v.dev == dev)
    && Effort(Next(s, v)) < Effort(s)
  }

  lemma UsefulProcessor(s: State, dev: bool, v: Move)
    requires Sound(s) && Surely(s, v) && !v.Grab? && !v.Release? && !v.Tick?
    ensures Useful(s, dev, v)
  {
    hide Effort, Next, Steady, InStep, OnPlan, BrokenOff, Hearing;
    PlanOf(s);
    ProcessorEffort(s, v);
  }

  lemma UsefulTick(s: State, dev: bool)
    requires Sound(s)
    requires !Stalled(s.m) || (s.m.tx == [] && (s.m.core.pc == 12 || s.m.core.pc == 16) && !s.m.starved)
    ensures Useful(s, dev, Tick(dev))
  {
    TickEffort(s, dev);
    hide Effort, Next, Sound;
  }

  /** While the machine has stopped at an error, the processor is on its way to it. */
  lemma StoppedPhase(s: State)
    requires Sound(s) && s.m.core.pc == 1 && s.m.core.irq
    ensures !s.cpu.phase.Starting? && !s.cpu.phase.Flushing? && !s.cpu.phase.Closing? && !s.cpu.phase.Returned?
  {
    hide Sound, Steady, Item.Words, AllWords, Plan, Hearing, Offending, Unoffended, Agenda;
    PlanOf(s);
    SoundSteady(s);
    StoppedPlace(s.m, Pend(s.cpu));
    NotBroken(s);
    if s.cpu.phase.Starting? || s.cpu.phase.Flushing? {
      NoRecordYet(s);
      OffendingRecord(Last(s.m.done));
    }
  }

  lemma StoppedFlag(m: Machine, pend: seq<seq<bool>>)
    requires Steady(m, pend) && m.core.parked
    ensures m.core.irq && m.core.pc == 1
  {
    hide Balanced, InItem, AtRest;
  }

  lemma ProgressStopped(s: State, dev: bool) returns (v: Move)
    requires Sound(s) && Stalled(s.m) && s.m.core.pc == 1
    ensures Useful(s, dev, v)
  {
    hide Sound, Useful, Steady;
    SoundSteady(s);
    StoppedFlag(s.m, Pend(s.cpu));
    StoppedPhase(s);
    v := match s.cpu.phase
      case Sending => Abort
      case Stopping => Abort
      case Waiting => Wake
      case Deciding => Decide
      case Draining => Drain
      case Jumping => Jump
      case _ => Clear;
    UsefulProcessor(s, dev, v);
  }

  lemma HeardWhileSampling(m: Machine)
    requires m.core.pc == 6 && m.cur.Some? && m.cur.value.Record?
    ensures |Heard(m)| < RecordItems(Agenda(m))
  {
    BytesCount(m.done);
    RecordItemsConcat(Items(m.done), [m.cur.value]);
    RecordItemsConcat(Items(m.done) + [m.cur.value], m.rest);
    assert [m.cur.value][..0] == [];
    hide Bytes, Items;
  }

  /** With the buffer filled, no byte is left to be sampled that could find the FIFO full. */
  lemma FilledSampling(s: State)
    requires Sound(s) && s.job.mode.Read? && !s.cpu.phase.Starting? && !s.cpu.phase.Flushing?
    requires Filled(s) && s.m.core.pc == 6
    ensures |s.m.rx| < 4
  {
    hide Sound, Agenda, Heard, Steady;
    SoundSteady(s);
    SamplesInRecords(s.m, Pend(s.cpu));
    SoundHearing(s);
    AgendaRecords(s);
    HeardWhileSampling(s.m);
  }

  lemma WriteDeaf(s: State)
    requires Sound(s) && s.job.mode.Write? && !s.cpu.phase.Starting?
    ensures !s.m.rxOn
  {
    hide Steady, InStep, OnPlan, BrokenOff, Received;
  }

  lemma SamplingPhase(s: State)
    requires Sound(s) && s.m.core.pc == 6
    ensures !s.cpu.phase.Starting? && !s.cpu.phase.Flushing? && (s.cpu.phase.Sending? || Filled(s))
  {
    hide Sound, Steady, Item.Words, AllWords, Plan, Agenda, Filled;
    PlanOf(s);
    SoundSteady(s);
    SamplesInRecords(s.m, Pend(s.cpu));
    if s.cpu.failed == 0 {
      NotBroken(s);
      if s.m.core.irq { IrqMeansStopped(s.m); }
      if s.cpu.phase.Starting? || s.cpu.phase.Flushing? { NoRecordYet(s); }
    }
  }

  /** The machine waits for room in the RX FIFO only in the middle of a read's loop. */
  lemma FullPhase(s: State)
    requires Sound(s) && s.m.core.pc == 6 && s.m.rxOn && |s.m.rx| >= 4
    ensures s.cpu.phase.Sending? && s.job.mode.Read?
  {
    hide Sound;
    SamplingPhase(s);
    if s.job.mode.Write? {
      WriteDeaf(s);
    } else if Filled(s) {
      FilledSampling(s);
    }
  }

  lemma ProgressFull(s: State, dev: bool) returns (v: Move)
    requires Sound(s) && s.m.core.pc == 6 && s.m.rxOn && |s.m.rx| >= 4
    ensures Useful(s, dev, v)
  {
    hide Sound, Useful;
    FullPhase(s);
    v := if s.cpu.now != [] || !Filled(s) then Pop else SendDone;
    UsefulProcessor(s, dev, v);
  }

  // ----- The machine has run out of words

  /** Only the STOP is left when nothing but its words is. */
  lemma StopLeft(front: seq<Item>)
    ensures |AllWords(front + [Item.Stop])| >= 4
    ensures |AllWords(front + [Item.Stop])| == 4 ==> front == []
  {
    AllWordsConcat(front, [Item.Stop]);
    AllWordsOne(Item.Stop);
  }

  lemma RestWords(m: Machine, job: Job)
    requires Agenda(m) == Plan(job) && m.rest != []
    ensures |AllWords(m.rest)| >= 4 && (|AllWords(m.rest)| == 4 ==> m.rest == [Item.Stop])
  {
    hide Body, AllWords;
    var plan := Plan(job);
    var n, j := |plan|, |m.done| + if m.cur.Some? then 1 else 0;
    assert m.rest == plan[j..n - 1] + [Item.Stop];
    StopLeft(plan[j..n - 1]);
  }

  /** Once all of the loop's words are used, all its bytes have been carried out. */
  lemma LoopOver(m: Machine, job: Job)
    requires Steady(m, Item.Stop.Words()) && Agenda(m) == Plan(job)
    requires m.tx == [] && (m.core.pc == 12 || m.core.pc == 16)
    ensures m.cur.None? && m.rest == [Item.Stop]
  {
    hide Steady, Body, AllWords, Agenda, Plan, WordsLeft;
    StarvingPlace(m, Item.Stop.Words());
    BalancedWords(m, Item.Stop.Words());
    AgendaEnd(m, job);
    if m.core.pc == 16 { EscapePlace(m, Item.Stop.Words()); }
    WordsSplit(m.cur, m.k, m.rest);
    if m.rest != [] { RestWords(m, job); }
  }

  lemma WordsSplit(cur: Option<Item>, k: nat, rest: seq<Item>)
    requires cur.Some? ==> k <= |cur.value.Levels()|
    ensures |WordsLeft(cur, k, rest)| == |AllWords(rest)| + if cur.Some? then |cur.value.Levels()| - k else 0
    ensures rest == [] ==> AllWords(rest) == []
  {
  }

  lemma AgendaEnd(m: Machine, job: Job)
    requires Agenda(m) == Plan(job)
    ensures m.cur.Some? && m.rest == [] ==> m.cur.value == Item.Stop
  {
    hide Body;
    assert Agenda(m)[|Plan(job)| - 1] == Item.Stop;
  }

  lemma LoopOverHeard(s: State)
    requires Sound(s) && s.cpu.phase.Sending? && s.cpu.now == [] && s.m.tx == [] && s.m.rx == []
    requires s.job.mode.Read? && (s.m.core.pc == 12 || s.m.core.pc == 16)
    ensures Filled(s)
  {
    hide Sound, Steady, Heard, Agenda, Item.Words, Unoffended;
    PlanOf(s);
    NotBroken(s);
    SoundSteady(s);
    SoundHearing(s);
    assert Pend(s.cpu) == Item.Stop.Words();
    LoopOver(s.m, s.job);
    assert Heard(s.m) == Bytes(s.m.done) by { hide Bytes; HeardBetween(s.m); }
    LoopBytes(s.m, Pend(s.cpu), s.job);
  }

  lemma HeardBetween(m: Machine)
    requires m.cur.None?
    ensures Heard(m) == Bytes(m.done)
  {
  }

  lemma LoopBytes(m: Machine, pend: seq<seq<bool>>, job: Job)
    requires Steady(m, pend) && Agenda(m) == Plan(job) && m.cur.None? && m.rest == [Item.Stop] && job.mode.Read?
    ensures |Bytes(m.done)| == 1 + job.mode.len
  {
    hide Steady, Complete;
    var done := m.done;
    assert Items(done) + [] + [Item.Stop] == [Item.Start] + Body(job) + [Item.Stop];
    assert Items(done) == (Items(done) + [] + [Item.Stop])[..|done|] == [Item.Start] + Body(job);
    ClocksShape(job.mode.len);
    BodyRecords(job);
    assert done[0].item == Items(done)[0];
    assert done == [done[0]] + done[1..];
    assert forall s <- done :: Complete(s) by { AllComplete(m, pend); }
    forall i | 0 <= i < |done[1..]| ensures done[1..][i].item.Record? {
      assert done[1..][i].item == Items(done)[i + 1] == Body(job)[i];
    }
    BytesOfRecords(done[0], done[1..]);
  }

  lemma AllComplete(m: Machine, pend: seq<seq<bool>>)
    requires Steady(m, pend)
    ensures forall s <- m.done :: Complete(s)
  {
    hide Placed;
  }

  /** Something is still queued until everything has been carried out. */
  lemma ReturnedQueue(s: State)
    requires Sound(s) && s.cpu.phase.Returned? && s.m.tx == [] && (s.m.core.pc == 12 || s.m.core.pc == 16)
    ensures AllDone(s.m)
  {
    hide Sound, Steady, Item.Words, AllWords, WordsLeft;
    PlanOf(s);
    SoundSteady(s);
    BalancedWords(s.m, Pend(s.cpu));
    StarvingPlace(s.m, Pend(s.cpu));
    if s.m.core.pc == 16 {
      EscapePlace(s.m, Pend(s.cpu));
      WordsOfEscape(s.m.cur.value, s.m.k, s.m.rest);
    } else {
      NoWordsLeft(s.m.k, s.m.rest);
    }
  }

  lemma ProgressStarved(s: State, dev: bool) returns (v: Move)
    requires Sound(s) && Stalled(s.m) && s.m.tx == [] && (s.m.core.pc == 12 || s.m.core.pc == 16)
    requires !(s.cpu.phase.Returned? && AllDone(s.m))
    ensures Useful(s, dev, v)
  {
    hide Sound, Useful;
    if s.cpu.phase.Returned? { ReturnedQueue(s); }
    if s.cpu.phase.Sending? && s.cpu.now == [] && s.job.mode.Read? && s.m.rx == [] { LoopOverHeard(s); }
    if s.cpu.phase.Waiting? && !s.m.starved {
      v := Tick(dev);
      UsefulTick(s, dev);
    } else {
      v := match s.cpu.phase
        case Starting => if s.cpu.now != [] then Push else StartDone
        case Flushing => if s.m.rx != [] then FlushPop else FlushDone
        case Sending => if s.cpu.now != [] then Push else if Filled(s) then SendDone else Pop
        case Stopping => if s.cpu.now != [] then Push else StopDone
        case Waiting => Wake
        case Deciding => Decide
        case Draining => Drain
        case Jumping => Jump
        case Clearing => Clear
        case _ => if s.cpu.now != [] then Push else Return;
      UsefulProcessor(s, dev, v);
    }
  }

  /** The program is waiting for the device to let go of the clock. */
  predicate Stretched(m: Machine) {
    m.hold && m.core.delay == 0 && (m.core.pc == 5 || m.core.pc == 10)
  }

  lemma ProgressOf(s: State, dev: bool) returns (v: Move)
    requires Sound(s) && !Stretched(s.m) && !(s.cpu.phase.Returned? && AllDone(s.m))
    ensures Useful(s, dev, v)
  {
    hide Sound, Useful;
    if !Stalled(s.m) {
      v := Tick(dev);
      UsefulTick(s, dev);
    } else if s.m.core.pc == 1 {
      v := ProgressStopped(s, dev);
    } else if s.m.core.pc == 6 {
      v := ProgressFull(s, dev);
    } else {
      v := ProgressStarved(s, dev);
    }
  }

  // ----- The same once a STOP has been lost

  lemma MissedMoves(s: State, v: Move)
    requires Missed(s) && Enabled(Mend(s), v) && !v.Grab? && !v.Release?
    ensures Enabled(s, v) && Missed(Next(s, v)) && Mend(Next(s, v)) == Next(Mend(s), v)
    ensures v.Tick? && Next(Mend(s), v) == Mend(s) ==> Next(s, v) == s
    ensures Effort(s) == Effort(Mend(s)) && Effort(Next(s, v)) == Effort(Next(Mend(s), v))
  {
    hide Missed, Next, Effort, EdgeDue;
    MendedEffort(s);
    if v.Tick? { MissedTick(s, v.dev); } else { MissedProcessor(s, v); }
    MendedEffort(Next(s, v));
  }

  lemma ProgressMissed(s: State, dev: bool) returns (v: Move)
    requires Missed(s) && !s.cpu.phase.Returned?
    ensures Useful(s, dev, v)
  {
    hide Sound, Effort, Next, EdgeDue, Freed;
    v := ProgressOf(Mend(s), dev);
    MissedMoves(s, v);
  }

  // ----- Whole runs

  lemma SoundNeverBack(s: State, v: Move)
    requires Sound(s) && Enabled(s, v) && !v.Grab? && !v.Release?
    ensures Effort(Next(s, v)) < Effort(s) || (v.Tick? && Next(s, v) == s)
  {
    hide Sound, Next, Enabled, Effort;
    if v.Tick? { TickEffort(s, v.dev); } else { PlanOf(s); ProcessorEffort(s, v); }
  }

  /** The device holding or letting go of the clock leaves as much to do as before; every other move leaves
      less, or it is a cycle in which nothing changes. */
  lemma NeverBack(s: State, v: Move)
    requires (Sound(s) || Missed(s)) && Enabled(s, v)
    ensures if v.Grab? || v.Release? then Effort(Next(s, v)) == Effort(s)
            else Effort(Next(s, v)) < Effort(s) || (v.Tick? && Next(s, v) == s)
  {
    hide Sound, Next, Effort, Freed, EdgeDue;
    if v.Grab? || v.Release? {
      StretchEffort(s, v);
    } else if Sound(s) {
      SoundNeverBack(s, v);
    } else {
      MissedMoves(s, v);
      SoundNeverBack(Mend(s), v);
    }
  }

  /** The moves of a run but for those of the device and the cycles in which nothing changes. */
  function Steps(s: State, moves: seq<Move>): nat
    requires Allowed(s, moves)
    decreases |moves|
  {
    if moves == [] then 0
    else
      (if moves[0].Grab? || moves[0].Release? || Next(s, moves[0]) == s then 0 else 1)
      + Steps(Next(s, moves[0]), moves[1..])
  }

  lemma {:induction false} StepsBound(s: State, moves: seq<Move>)
    requires (Sound(s) || Missed(s)) && Allowed(s, moves)
    ensures Steps(s, moves) + Effort(After(s, moves)) <= Effort(s)
    decreases |moves|
  {
    hide Sound, Missed, Enabled, Next, Effort, EdgeDue;
    if moves != [] {
      var v := moves[0];
      NeverBack(s, v);
      if Sound(s) && !(v.Tick? && EdgeHeld(s.m)) {
        MoveKeeps(s, v);
      } else if Sound(s) {
        HeldMisses(s, v.dev);
      } else {
        MissedKeeps(s, v);
      }
      StepsBound(Next(s, v), moves[1..]);
    }
  }

  /** Every call ends: no run has more such moves than its start leaves to do. */
  lemma RunsEnd(start: State, moves: seq<Move>)
    requires Begun(start) && Allowed(start, moves)
    ensures Steps(start, moves) <= Effort(start)
  {
    hide Sound, Effort, Allowed, Begun;
    BegunSound(start);
    StepsBound(start, moves);
  }

  /** And none gets stuck: in every run, until the call has returned and the bus is at rest, unless the
      program is waiting for the device to let go of the clock some move of the processor or the state
      machine is possible that leaves less to do, whatever the device drives. */
  lemma Progress(start: State, moves: seq<Move>, dev: bool) returns (v: Move)
    requires Begun(start) && Allowed(start, moves)
    requires !Stretched(After(start, moves).m)
    requires !(After(start, moves).cpu.phase.Returned? && AllDone(After(start, moves).m))
    ensures Useful(After(start, moves), dev, v)
  {
    hide Sound, Begun, Allowed, After, Useful, HeldEdge, EdgeDue;
    BegunSound(start);
    RunSound(start, moves);
    var s := After(start, moves);
    if Sound(s) { v := ProgressOf(s, dev); } else { v := ProgressMissed(s, dev); }
  }

  // ----- Both ways to end occur, whatever the call

  lemma HoldStays(m: Machine, dev: bool)
    ensures SmCycle(m, dev).hold == m.hold
  {
    hide Step, Observe;
  }

  lemma QuietHold(s: State, v: Move)
    requires Enabled(s, v) && !v.Grab? && !v.Release?
    ensures Next(s, v).m.hold == s.m.hold
  {
    hide SmCycle, EdgeDue, Loop, Took;
    if v.Tick? { HoldStays(s.m, v.dev); }
  }

  /** The call runs to its end if the device never holds the clock. */
  lemma QuietRun(s: State, dev: bool) returns (moves: seq<Move>)
    requires Sound(s) && !s.m.hold
    ensures Allowed(s, moves) && !HeldEdge(s, moves)
    ensures After(s, moves).cpu.phase.Returned? && AllDone(After(s, moves).m)
    decreases Effort(s)
  {
    hide Sound, Enabled, Next, Effort, EdgeDue;
    if s.cpu.phase.Returned? && AllDone(s.m) {
      moves := [];
    } else {
      var v := ProgressOf(s, dev);
      MoveKeeps(s, v);
      QuietHold(s, v);
      var rest := QuietRun(Next(s, v), dev);
      moves := [v] + rest;
      assert moves[1..] == rest;
    }
  }

  /** The STOP is still to come, and the device holds the clock from the STOP's first word on. */
  predicate Ahead(s: State) {
    var m := s.m;
    && Sound(s) && (m.rest != [] || m.cur == Some(Item.Stop))
    && (m.hold ==> m.cur == Some(Item.Stop) && m.k >= 1)
    && (m.cur == Some(Item.Stop) && m.k >= 2 ==> m.hold)
  }

  lemma StopPlace(m: Machine, pend: seq<seq<bool>>)
    requires Steady(m, pend) && m.cur == Some(Item.Stop)
    ensures 13 <= m.core.pc <= 17 && (m.k == 1 ==> !m.bus.scl)
    ensures m.core.pc == 16 && m.core.delay == 0 && m.tx != [] && m.k >= 2 ==> EdgeDue(m)
  {
    if m.core.pc == 16 && m.core.delay == 0 && m.tx != [] {
      EscapePlace(m, pend);
      ExecBalanced(m.done, Item.Stop, m.k, m.rest, m.tx, pend);
    }
    hide Balanced, Log, SetSclSda;
  }

  lemma CycleCourse(m: Machine, dev: bool)
    ensures var m' := SmCycle(m, dev);
            || (m'.cur == m.cur && m'.k == m.k && m'.rest == m.rest)
            || (m.core.pc == 12 && m.rest != [] && m'.cur == Some(m.rest[0]) && m'.k == 0)
            || (m.core.pc == 16 && m.core.delay == 0 && m.tx != [] && m.cur.Some? && m'.rest == m.rest
                && m'.cur == (if m.k + 1 < |m.cur.value.Levels()| then m.cur else None)
                && m'.k == (if m.k + 1 < |m.cur.value.Levels()| then m.k + 1 else m.k))
            || (m.core.pc == 11 && m.cur.Some? && m'.cur == None && m'.rest == m.rest)
  {
    hide Observe, Execute;
  }

  lemma AheadTick(s: State, dev: bool)
    requires Ahead(s) && !EdgeHeld(s.m) && !(s.m.cur == Some(Item.Stop) && s.m.k == 1 && !s.m.hold)
    ensures Ahead(Next(s, Tick(dev)))
  {
    hide Sound, SmCycle, Steady, EdgeDue;
    TickKeeps(s, dev);
    HoldStays(s.m, dev);
    CycleCourse(s.m, dev);
    StopLast(s);
    StopLast(Next(s, Tick(dev)));
    SoundSteady(s);
    if s.m.cur == Some(Item.Stop) { StopPlace(s.m, Pend(s.cpu)); }
  }

  lemma AheadProcessor(s: State, v: Move)
    requires Ahead(s) && Enabled(s, v) && !v.Tick? && !v.Grab? && !v.Release?
    ensures Ahead(Next(s, v))
  {
    hide Sound, EdgeDue;
    MoveKeeps(s, v);
  }

  /** The device takes hold of the clock when the first word of the STOP has pulled it low, and never lets go. */
  lemma HeldRun(s: State, dev: bool) returns (moves: seq<Move>)
    requires Ahead(s) || (Missed(s) && s.m.hold)
    ensures Allowed(s, moves) && Missed(After(s, moves)) && (Ahead(s) ==> HeldEdge(s, moves))
    ensures After(s, moves).cpu.phase.Returned? && After(s, moves).m.hold
    decreases Effort(s), if s.m.hold then 0 else 1
  {
    hide Sound, Freed, Enabled, Next, Effort, EdgeDue;
    var v;
    if Ahead(s) {
      v := HeldMove(s, dev);
    } else if s.cpu.phase.Returned? {
      return [];
    } else {
      v := ProgressMissed(s, dev);
      MissedKeeps(s, v);
      QuietHold(s, v);
    }
    var rest := HeldRun(Next(s, v), dev);
    moves := [v] + rest;
    assert moves[1..] == rest;
  }

  lemma HeldMove(s: State, dev: bool) returns (v: Move)
    requires Ahead(s)
    ensures Enabled(s, v)
    ensures Ahead(Next(s, v)) || (v.Tick? && EdgeHeld(s.m) && Missed(Next(s, v)) && Next(s, v).m.hold)
    ensures Effort(Next(s, v)) < Effort(s)
         || (v.Grab? && !s.m.hold && Next(s, v).m.hold && Effort(Next(s, v)) == Effort(s))
  {
    hide Sound, Missed, Effort, EdgeDue, Steady;
    SoundSteady(s);
    if s.m.cur == Some(Item.Stop) { StopPlace(s.m, Pend(s.cpu)); }
    if s.m.cur == Some(Item.Stop) && s.m.k == 1 && !s.m.hold {
      v := Grab;
      StretchEffort(s, v);
      StretchKeepsSound(s, v);
    } else {
      v := ProgressOf(s, dev);
      if !v.Tick? {
        AheadProcessor(s, v);
      } else if EdgeHeld(s.m) {
        HeldMisses(s, dev);
        HoldStays(s.m, dev);
      } else {
        AheadTick(s, dev);
      }
    }
  }

  /** A device that holds the clock at its STOP makes any call end without one: it has returned, all it had to
      do is done, and no STOP has been seen. */
  lemma LostStop(start: State, dev: bool) returns (moves: seq<Move>)
    requires Begun(start)
    ensures Allowed(start, moves) && HeldEdge(start, moves)
    ensures var s := After(start, moves);
            s.cpu.phase.Returned? && AllDone(s.m) && s.m.hold && Event.Stop !in s.m.bus.events
  {
    hide Sound, HeldEdge, After, Allowed, OneTransfer, Body;
    BegunSound(start);
    moves := HeldRun(start, dev);
    Outcome(start, moves);
  }

  /** And one that never holds it makes any call end with it. */
  lemma SeenStop(start: State, dev: bool) returns (moves: seq<Move>)
    requires Begun(start)
    ensures Allowed(start, moves) && !HeldEdge(start, moves)
    ensures var s := After(start, moves);
            s.cpu.phase.Returned? && AllDone(s.m) && Event.Stop in s.m.bus.events
  {
    hide Sound, HeldEdge, After, Allowed, OneTransfer, Body;
    BegunSound(start);
    moves := QuietRun(start, dev);
    Outcome(start, moves);
  }
}
