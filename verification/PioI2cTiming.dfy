/** How long the I2C program of pio/i2c/i2c.pio takes over a bit when nobody holds it up. */
module PioI2cTiming {
  import opened Wrappers
  import opened Pio
  import opened I2cBus
  import opened PioI2cWords
  import opened PioI2c

  /** `n` cycles, the device driving `dev` in any bit cell that begins. */
  function Cycles(m: Machine, dev: bool, n: nat): Machine {
    if n == 0 then m else SmCycle(Cycles(m, dev, n - 1), dev)
  }

  lemma OneMore(m: Machine, dev: bool, n: nat)
    ensures Cycles(m, dev, n + 1) == SmCycle(Cycles(m, dev, n), dev)
  {
  }

  lemma {:induction false} Delayed(m: Machine, dev: bool, n: nat, k: nat)
    requires Tied(Cycles(m, dev, n)) && k <= Cycles(m, dev, n).core.delay
    ensures var now := Cycles(m, dev, n);
            Cycles(m, dev, n + k) == now.(core := now.core.(delay := now.core.delay - k))
  {
    hide SmCycle;
    if k > 0 {
      Delayed(m, dev, n, k - 1);
      DelayEffect(Cycles(m, dev, n + k - 1), dev);
    }
  }

  /** About to begin a data bit, or the acknowledge bit: SCL low, nobody holding it, room for a byte received. */
  predicate AtBit(m: Machine, pc: nat) {
    Tied(m) && !m.hold && !m.core.side && m.core.pc == pc && m.core.delay == 0 && m.core.osr != [] && |m.rx| < 4
  }

  lemma Wires(b: Bus, scl: bool, sda: bool)
    ensures Observe(b, scl, sda).scl == scl && Observe(b, scl, sda).sda == sda
  {
  }

  /** Within a bit: the program has reached `pc` with `delay` cycles to wait, SCL being as told. */
  predicate Within(m: Machine, pc: nat, delay: nat, scl: bool, x: nat, room: bool) {
    && Tied(m) && !m.hold && m.core.side == scl && m.core.pc == pc && m.core.delay == delay
    && m.core.x == x && (room ==> |m.rx| < 4)
  }

  lemma WaitsOut(m: Machine, dev: bool, n: nat, k: nat,
                 pc: nat, delay: nat, scl: bool, x: nat, room: bool)
    requires Within(Cycles(m, dev, n), pc, delay, scl, x, room) && k <= delay
    ensures Within(Cycles(m, dev, n + k), pc, delay - k, scl, x, room)
  {
    hide Cycles;
    Delayed(m, dev, n, k);
  }

  lemma BitBegins(m: Machine, dev: bool)
    requires AtBit(m, 3)
    ensures Within(Cycles(m, dev, 1), 4, 7, false, m.core.x, true)
  {
    assert Cycles(m, dev, 0) == m;
    hide Cycles, SmCycle, Observe;
    OneMore(m, dev, 0);
    CellEffect(m, dev);
    Wires(m.bus, m.bus.scl, m.core.osr[0] && dev);
  }

  lemma BitRises(m: Machine, dev: bool)
    requires AtBit(m, 3)
    ensures Within(Cycles(m, dev, 9), 5, 2, true, m.core.x, true)
  {
    hide Cycles, SmCycle, Observe;
    BitBegins(m, dev);
    WaitsOut(m, dev, 1, 7, 4, 7, false, m.core.x, true);
    var before := Cycles(m, dev, 8);
    OneMore(m, dev, 8);
    ClockEffect(before, dev);
    Wires(before.bus, true, before.bus.sda);
  }

  lemma BitWaits(m: Machine, dev: bool)
    requires AtBit(m, 3)
    ensures Within(Cycles(m, dev, 12), 6, 4, true, m.core.x, true)
  {
    hide Cycles, SmCycle;
    BitRises(m, dev);
    WaitsOut(m, dev, 9, 2, 5, 2, true, m.core.x, true);
    OneMore(m, dev, 11);
    StretchEffect(Cycles(m, dev, 11), dev);
  }

  lemma BitSampled(m: Machine, dev: bool)
    requires AtBit(m, 3)
    ensures Within(Cycles(m, dev, 17), 7, 7, true, m.core.x, false)
  {
    hide Cycles, SmCycle;
    BitWaits(m, dev);
    WaitsOut(m, dev, 12, 4, 6, 4, true, m.core.x, true);
    OneMore(m, dev, 16);
    SampleEffect(Cycles(m, dev, 16), dev);
  }

  lemma BitFalls(m: Machine, dev: bool)
    requires AtBit(m, 3)
    ensures Within(Cycles(m, dev, 25), if m.core.x != 0 then 3 else 8, 7, false, Decrement(m.core.x), false)
  {
    hide Cycles, SmCycle, Observe;
    BitSampled(m, dev);
    WaitsOut(m, dev, 17, 7, 7, 7, true, m.core.x, false);
    var before := Cycles(m, dev, 24);
    OneMore(m, dev, 24);
    FallEffect(before, dev);
    Wires(before.bus, false, before.bus.sda);
  }

  /** A data bit takes 32 cycles, a 100,000th of a second at the clock the program is given, of which the middle 16
      are the clock's high half: it rises 9 cycles after the bit has begun and falls 16 later. */
  lemma BitTiming(m: Machine, dev: bool, k: nat)
    requires AtBit(m, 3) && 1 <= k <= 32
    ensures Cycles(m, dev, k).bus.scl <==> 9 <= k < 25
    ensures k == 32 ==> Within(Cycles(m, dev, k), if m.core.x != 0 then 3 else 8, 0, false, Decrement(m.core.x), false)
  {
    hide Cycles, SmCycle;
    var x, end := m.core.x, if m.core.x != 0 then 3 else 8;
    if k < 9 {
      BitBegins(m, dev);
      WaitsOut(m, dev, 1, k - 1, 4, 7, false, x, true);
    } else if k < 12 {
      BitRises(m, dev);
      WaitsOut(m, dev, 9, k - 9, 5, 2, true, x, true);
    } else if k < 17 {
      BitWaits(m, dev);
      WaitsOut(m, dev, 12, k - 12, 6, 4, true, x, true);
    } else if k < 25 {
      BitSampled(m, dev);
      WaitsOut(m, dev, 17, k - 17, 7, 7, true, x, false);
    } else {
      BitFalls(m, dev);
      WaitsOut(m, dev, 25, k - 25, end, 7, false, Decrement(x), false);
    }
  }

  // ----- The acknowledge bit

  lemma AckBegins(m: Machine, dev: bool)
    requires AtBit(m, 8)
    ensures Within(Cycles(m, dev, 1), 9, 7, false, m.core.x, true) && Cycles(m, dev, 1).cur == m.cur
  {
    assert Cycles(m, dev, 0) == m;
    hide Cycles, SmCycle, Observe;
    OneMore(m, dev, 0);
    CellEffect(m, dev);
    Wires(m.bus, m.bus.scl, m.core.osr[0] && dev);
  }

  lemma AckRises(m: Machine, dev: bool)
    requires AtBit(m, 8)
    ensures Within(Cycles(m, dev, 9), 10, 7, true, m.core.x, true) && Cycles(m, dev, 9).cur == m.cur
  {
    hide Cycles, SmCycle, Observe;
    AckBegins(m, dev);
    Delayed(m, dev, 1, 7);
    WaitsOut(m, dev, 1, 7, 9, 7, false, m.core.x, true);
    var before := Cycles(m, dev, 8);
    OneMore(m, dev, 8);
    ClockEffect(before, dev);
    Wires(before.bus, true, before.bus.sda);
  }

  lemma AckWaits(m: Machine, dev: bool)
    requires AtBit(m, 8)
    ensures Within(Cycles(m, dev, 17), 11, 7, true, m.core.x, true) && Cycles(m, dev, 17).cur == m.cur
  {
    hide Cycles, SmCycle;
    AckRises(m, dev);
    Delayed(m, dev, 9, 7);
    WaitsOut(m, dev, 9, 7, 10, 7, true, m.core.x, true);
    OneMore(m, dev, 16);
    StretchEffect(Cycles(m, dev, 16), dev);
  }

  lemma AckFalls(m: Machine, dev: bool)
    requires AtBit(m, 8) && m.cur.Some?
    ensures var after := Cycles(m, dev, 25); Within(after, after.core.pc, 2, false, m.core.x, true)
  {
    hide Cycles, SmCycle, Observe;
    AckWaits(m, dev);
    Delayed(m, dev, 17, 7);
    WaitsOut(m, dev, 17, 7, 11, 7, true, m.core.x, true);
    var before := Cycles(m, dev, 24);
    OneMore(m, dev, 24);
    AckEffect(before, dev);
    Wires(before.bus, false, before.bus.sda);
  }

  lemma AckBranches(m: Machine, dev: bool)
    requires AtBit(m, 8) && m.cur.Some?
    ensures Cycles(m, dev, 25).core.pc == if Cycles(m, dev, 24).bus.sda then 0 else 12
  {
    hide Cycles, SmCycle, Observe;
    AckWaits(m, dev);
    Delayed(m, dev, 17, 7);
    WaitsOut(m, dev, 17, 7, 11, 7, true, m.core.x, true);
    OneMore(m, dev, 24);
    AckEffect(Cycles(m, dev, 24), dev);
  }

  /** In the acknowledge bit the clock rises and falls at the same times, and 27 cycles after it began the program is
      past it: at the test of the Final flag where the wire was high, at the next word where it was low. */
  lemma AckTiming(m: Machine, dev: bool, k: nat)
    requires AtBit(m, 8) && m.cur.Some? && 1 <= k <= 27
    ensures Cycles(m, dev, k).bus.scl <==> 9 <= k < 25
    ensures k == 27 ==> Cycles(m, dev, k).core.delay == 0
    ensures k == 27 ==> Cycles(m, dev, k).core.pc == if Cycles(m, dev, 24).bus.sda then 0 else 12
  {
    hide Cycles, SmCycle;
    var x := m.core.x;
    if k < 9 {
      AckBegins(m, dev);
      WaitsOut(m, dev, 1, k - 1, 9, 7, false, x, true);
    } else if k < 17 {
      AckRises(m, dev);
      WaitsOut(m, dev, 9, k - 9, 10, 7, true, x, true);
    } else if k < 25 {
      AckWaits(m, dev);
      WaitsOut(m, dev, 17, k - 17, 11, 7, true, x, true);
    } else {
      AckBranches(m, dev);
      AckFalls(m, dev);
      WaitsOut(m, dev, 25, k - 25, Cycles(m, dev, 25).core.pc, 2, false, x, true);
    }
  }
}
