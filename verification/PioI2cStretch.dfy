/** A device that stretches the clock where the driver does not wait for it. The words of a STOP are executed
    without looking at the clock, so a device that holds SCL at the last of them hides the STOP. */
module PioI2cStretch {
  import opened Wrappers
  import opened Pio
  import opened I2cBus
  import opened PioI2cWords
  import opened PioI2c
  import opened PioI2cDriver

  /** An edge of SDA is due under a clock that the program has released and the device is holding. */
  predicate EdgeHeld(m: Machine) {
    EdgeDue(m) && m.hold
  }

  /** What a machine that has lost its STOP would be had the device let go in time. */
  function Mended(m: Machine): Machine {
    m.(hold := false, bus := Bus(true, true, None, m.bus.events + [Event.Stop]))
  }

  function Mend(s: State): State {
    s.(m := Mended(s.m))
  }

  /** After a lost STOP both sides but the device's hold on the clock have released the wires. */
  predicate Freed(m: Machine) {
    && AllDone(m) && m.done != [] && Last(m.done).item.Stop? && m.core.side && m.core.pin && m.dev
    && m.bus == Bus(!m.hold, true, if m.hold then None else Some(true), m.bus.events)
  }

  /** The STOP was lost, and nothing else is amiss. */
  predicate Missed(s: State) {
    Freed(s.m) && Sound(Mend(s))
  }

  // ----- The cycle that loses it

  lemma HeldPlace(m: Machine, pend: seq<seq<bool>>)
    requires Steady(m, pend) && EdgeHeld(m) && m.cur != Some(Item.Restart)
    ensures m.cur == Some(Item.Stop) && m.k == 2 && Tied(m) && m.core.osr == [] && m.dev && !m.core.pin
    ensures m.bus == Bus(false, false, None, m.bus.events)
    ensures m.tx[0] == SetSclSda(true, true)
  {
    EscapePlace(m, pend);
    assert Settled(m) == m;
    ExecBalanced(m.done, m.cur.value, m.k, m.rest, m.tx, pend);
    hide Balanced, Log;
  }

  /** A STOP edge under a held clock leaves the machine as the same edge under a released one would, but for
      the wires. */
  lemma HeldCycle(m: Machine, dev: bool, pend: seq<seq<bool>>)
    requires Steady(m, pend) && EdgeHeld(m)
    requires m.cur != Some(Item.Restart) && (m.cur == Some(Item.Stop) ==> m.rest == [])
    ensures Freed(SmCycle(m, dev)) && SmCycle(m, dev).hold
    ensures Mended(SmCycle(m, dev)) == SmCycle(PioI2c.Release(m), dev)
  {
    HeldPlace(m, pend);
    ExecEffect(m, dev, true, true);
    ExecEffect(PioI2c.Release(m), dev, true, true);
    hide SmCycle, Steady, SetSclSda;
    assert m.bus.events + [] == m.bus.events;
  }

  lemma HeldMisses(s: State, dev: bool)
    requires Sound(s) && EdgeHeld(s.m)
    ensures Missed(Next(s, Tick(dev)))
  {
    var s' := s.(m := PioI2c.Release(s.m));
    StretchKeepsSound(s, Release);
    SoundSteady(s);
    StopLast(s);
    HeldCycle(s.m, dev, Pend(s.cpu));
    hide Sound, SmCycle, Freed, EdgeDue;
    TickKeeps(s', dev);
    assert Next(s', Tick(dev)) == Mend(Next(s, Tick(dev)));
  }

  // ----- Afterwards

  lemma FreedPlace(m: Machine, pend: seq<seq<bool>>)
    requires Freed(m) && Steady(Mended(m), pend)
    ensures m.tx == [] && m.core.osr == [] && (m.core.pc == 12 || (m.core.pc == 17 && m.core.x == 0))
    ensures Tied(m) && Tied(Mended(m)) && pend == [] && !m.core.parked
  {
    BalancedWords(Mended(m), pend);
    assert WordsLeft(None, m.k, []) == [];
    hide Balanced, Log;
  }

  /** The machine goes on as if nothing had happened. */
  lemma FreedCycle(m: Machine, dev: bool, pend: seq<seq<bool>>)
    requires Freed(m) && Steady(Mended(m), pend)
    ensures Freed(SmCycle(m, dev)) && Mended(SmCycle(m, dev)) == SmCycle(Mended(m), dev)
    ensures SmCycle(m, dev).hold == m.hold && SmCycle(m, dev).bus == m.bus
  {
    FreedPlace(m, pend);
    hide SmCycle, Steady, Tied;
    if m.core.delay > 0 {
      DelayEffect(m, dev);
      DelayEffect(Mended(m), dev);
    } else if m.core.pc == 17 {
      RepeatEffect(m, dev);
      RepeatEffect(Mended(m), dev);
    } else {
      StarveEffect(m, dev);
      StarveEffect(Mended(m), dev);
    }
  }

  lemma MissedTick(s: State, dev: bool)
    requires Missed(s)
    ensures Missed(Next(s, Tick(dev))) && Mend(Next(s, Tick(dev))) == Next(Mend(s), Tick(dev))
    ensures Mend(Next(s, Tick(dev))) == Mend(s) ==> Next(s, Tick(dev)) == s
  {
    SoundSteady(Mend(s));
    FreedPlace(s.m, Pend(s.cpu));
    FreedCycle(s.m, dev, Pend(s.cpu));
    hide Sound, SmCycle, Freed, Steady;
    TickKeeps(Mend(s), dev);
    assert Next(Mend(s), Tick(dev)) == Mend(Next(s, Tick(dev)));
    if Mend(Next(s, Tick(dev))) == Mend(s) {
      var m, m' := s.m, Next(s, Tick(dev)).m;
      assert m' == Mended(m').(hold := m'.hold, bus := m'.bus) == Mended(m).(hold := m.hold, bus := m.bus) == m;
    }
  }

  lemma MissedStretch(s: State, v: Move)
    requires Missed(s) && Enabled(s, v) && (v.Grab? || v.Release?)
    ensures Missed(Next(s, v)) && Mend(Next(s, v)) == Mend(s)
  {
    hide Sound, SmCycle, EdgeDue, Loop, Took;
    assert s.m.hold;
    var m' := Next(s, v).m;
    assert m'.bus == Bus(!m'.hold, true, if m'.hold then None else Some(true), s.m.bus.events + []);
    assert Mend(Next(s, v)) == Mend(s);
  }

  /** The error, if there was one, has been dealt with. */
  lemma FreedPhase(s: State)
    requires Missed(s)
    ensures !s.cpu.phase.Draining?
  {
    SoundSteady(Mend(s));
    FreedPlace(s.m, Pend(s.cpu));
    hide Steady, Hearing, Freed, Plan, Agenda, Offending;
    if s.cpu.failed == 0 && s.m.core.irq { IrqMeansStopped(Mend(s).m); }
  }

  /** The processor does not look at the wires. */
  lemma ProcessorMends(s: State, v: Move)
    requires Enabled(s, v) && !v.Tick? && !v.Grab? && !v.Release?
    ensures Enabled(Mend(s), v) && Mend(Next(s, v)) == Next(Mend(s), v)
  {
    hide SmCycle, EdgeDue, Loop, Took, Body, AllWords;
  }

  lemma ProcessorFrees(s: State, v: Move)
    requires Freed(s.m) && Enabled(s, v) && !v.Tick? && !v.Grab? && !v.Release?
    requires !s.cpu.phase.Draining?
    ensures Freed(Next(s, v).m)
  {
    hide SmCycle, EdgeDue, Loop, Took, Body, AllWords;
  }

  lemma MissedProcessor(s: State, v: Move)
    requires Missed(s) && Enabled(s, v) && !v.Tick? && !v.Grab? && !v.Release?
    ensures Enabled(Mend(s), v) && Mend(Next(s, v)) == Next(Mend(s), v) && Missed(Next(s, v))
  {
    FreedPhase(s);
    hide Sound, EdgeDue, Freed, Next, Enabled;
    ProcessorMends(s, v);
    ProcessorFrees(s, v);
    MoveKeeps(Mend(s), v);
  }

  // ----- Every run

  /** Somewhere in the run an edge is driven while the device holds the clock. */
  predicate HeldEdge(s: State, moves: seq<Move>)
    requires Allowed(s, moves)
    decreases |moves|
  {
    moves != [] && ((moves[0].Tick? && EdgeHeld(s.m)) || HeldEdge(Next(s, moves[0]), moves[1..]))
  }

  lemma MissedKeeps(s: State, v: Move)
    requires Missed(s) && Enabled(s, v)
    ensures Missed(Next(s, v))
  {
    hide Missed, Next, Enabled;
    match v
    case Tick(dev) => MissedTick(s, dev);
    case Grab => MissedStretch(s, v);
    case Release => MissedStretch(s, v);
    case _ => MissedProcessor(s, v);
  }

  lemma {:induction false} RunMissed(s: State, moves: seq<Move>)
    requires Missed(s) && Allowed(s, moves)
    ensures Missed(After(s, moves))
    decreases |moves|
  {
    hide Missed, Next, Enabled;
    if moves != [] {
      MissedKeeps(s, moves[0]);
      RunMissed(Next(s, moves[0]), moves[1..]);
    }
  }

  /** Whatever the device does, and however the two sides interleave, the invariant holds, or else an edge was
      driven under a held clock, and only the STOP on the wires is missing. */
  lemma {:induction false} RunSound(s: State, moves: seq<Move>)
    requires Sound(s) && Allowed(s, moves)
    ensures if HeldEdge(s, moves) then Missed(After(s, moves)) else Sound(After(s, moves))
    decreases |moves|
  {
    hide Sound, Missed, Enabled, Next, EdgeDue;
    if moves != [] {
      var v := moves[0];
      if v.Tick? && EdgeHeld(s.m) {
        HeldMisses(s, v.dev);
        RunMissed(Next(s, v), moves[1..]);
      } else {
        MoveKeeps(s, v);
        RunSound(Next(s, v), moves[1..]);
      }
    }
  }
}
