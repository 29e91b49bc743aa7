/** What the state machine of pio/i2c/i2c.pio hands back through the RX FIFO while autopush is on. */
module PioI2cReceive {
  import opened Wrappers
  import opened Pio
  import opened I2cBus
  import opened PioI2cWords
  import opened PioI2c

  /** The byte on the wire in a carried-out record. */
  function OnWire(s: Sent): seq<bool> {
    if s.item.Record? && Complete(s) then Wire(s.item.Driven(), s.cells)[..8] else []
  }

  function BytesOf(s: Sent): seq<seq<bool>> {
    if s.item.Record? && Complete(s) then [OnWire(s)] else []
  }

  function Bytes(done: seq<Sent>): seq<seq<bool>> {
    if done == [] then [] else Bytes(done[..|done| - 1]) + BytesOf(done[|done| - 1])
  }

  /** Whether the record under way has had its eighth bit sampled. */
  predicate Past(c: Core) {
    (c.pc == 7 && c.x == 0) || 8 <= c.pc <= 11
  }

  /** Every byte sampled so far, in order. */
  function Heard(m: Machine): seq<seq<bool>> {
    Bytes(m.done) +
    if m.cur.Some? && m.cur.value.Record? && Past(m.core) && 8 <= |m.cells| <= 9
    then [Wire(m.cur.value.Driven(), m.cells)[..8]] else []
  }

  /** The bits of the byte being received. */
  function Partial(m: Machine): seq<bool> {
    if m.cur.Some? && m.cur.value.Record? && |m.cells| <= 9 then
      if 4 <= m.core.pc <= 6 && m.cells != [] then Wire(m.cur.value.Driven(), m.cells[..|m.cells| - 1])
      else if m.core.pc == 3 || (m.core.pc == 7 && m.core.x > 0) then Wire(m.cur.value.Driven(), m.cells)
      else []
    else []
  }

  /** Bytes already taken from the FIFO, then those in it, are what was heard; the rest is in
      the input shift register. */
  predicate Received(m: Machine, taken: seq<seq<bool>>) {
    m.rxOn && taken + m.rx == Heard(m) && m.core.isr == Partial(m)
  }

  lemma BytesNext(done: seq<Sent>, s: Sent)
    ensures Bytes(done + [s]) == Bytes(done) + BytesOf(s)
  {
    assert (done + [s])[..|done|] == done;
  }

  /** A step outside the bit cells leaves the receiver alone. */
  lemma OutsideHears(m: Machine, m': Machine, taken: seq<seq<bool>>)
    requires Received(m, taken) && m'.rxOn == m.rxOn && m'.rx == m.rx && m'.core.isr == m.core.isr && m'.done == m.done
    requires m.cur.None? || m.core.pc == 2 || m.core.pc >= 12
    requires m'.cur.None? || (m'.core.pc == 3 && m'.cells == []) || m'.core.pc == 2 || m'.core.pc >= 12
    ensures Received(m', taken)
  {
    hide Bytes;
  }

  /** Nor does a step within a bit cell, but for the sampling. */
  lemma WithinHears(m: Machine, m': Machine, taken: seq<seq<bool>>)
    requires Received(m, taken)
    requires m' == m.(core := m.core.(pc := m'.core.pc, delay := m'.core.delay, side := m'.core.side), bus := m'.bus)
    requires m'.core.pc == m.core.pc || (m.core.pc == 4 && m'.core.pc == 5) || (m.core.pc == 5 && m'.core.pc == 6)
          || (m.core.pc == 9 && m'.core.pc == 10) || (m.core.pc == 10 && m'.core.pc == 11)
    ensures Received(m', taken)
  {
    hide Bytes;
  }

  lemma BeginHears(m: Machine, item: Item, dev: bool, taken: seq<seq<bool>>)
    requires Received(m, taken) && m.cur == Some(item) && item.Record? && InRecord(m, item)
    requires m.core.delay == 0 && (m.core.pc == 3 || m.core.pc == 8)
    ensures Received(SmCycle(m, dev), taken)
  {
    hide SmCycle, InRecord, Bytes, Observe;
    OpenBefore(m, item);
    CellEffect(m, dev);
    var driven, cells' := item.Driven(), m.cells + [dev];
    if m.core.pc == 3 {
      assert cells'[..|cells'| - 1] == m.cells;
    } else {
      assert Wire(driven, cells')[..8] == Wire(driven, m.cells)[..8];
    }
  }

  lemma SampleHears(m: Machine, item: Item, dev: bool, taken: seq<seq<bool>>)
    requires Received(m, taken) && m.cur == Some(item) && item.Record? && InRecord(m, item)
    requires m.core.delay == 0 && m.core.pc == 6
    ensures Received(SmCycle(m, dev), taken)
  {
    hide SmCycle, InRecord, Bytes, InCell;
    var i := CellIndex(m.core);
    OpenCell(m, item);
    CellTied(m, item, i, true);
    SampledLevel(m, item, i);
    SampleEffect(m, dev);
    var m', now := SmCycle(m, dev), Wire(item.Driven(), m.cells);
    assert m.core.isr + [m.bus.sda] == now;
    if m.core.x == 0 && |m.rx| < 4 {
      assert now[..8] == now;
      assert taken + (m.rx + [now]) == Heard(m) + [now];
      assert Heard(m) == Bytes(m.done);
    }
  }

  lemma SampledLevel(m: Machine, item: Item, i: nat)
    requires item.Record? && i < 9 && InCell(m, item, i, true)
    ensures m.bus.sda == (item.Driven()[i] && m.cells[i])
  {
  }

  lemma FallHears(m: Machine, item: Item, dev: bool, taken: seq<seq<bool>>)
    requires Received(m, taken) && m.cur == Some(item) && item.Record? && InRecord(m, item)
    requires m.core.delay == 0 && m.core.pc == 7
    ensures Received(SmCycle(m, dev), taken)
  {
    hide SmCycle, InRecord, Bytes, InCell, Observe;
    OpenCell(m, item);
    CellTied(m, item, CellIndex(m.core), true);
    FallEffect(m, dev);
  }

  lemma AckHears(m: Machine, item: Item, dev: bool, taken: seq<seq<bool>>)
    requires Received(m, taken) && m.cur == Some(item) && item.Record? && InRecord(m, item)
    requires m.core.delay == 0 && m.core.pc == 11
    ensures Received(SmCycle(m, dev), taken)
  {
    hide SmCycle, InRecord, Bytes, InCell, Observe;
    OpenCell(m, item);
    CellTied(m, item, 8, true);
    AckEffect(m, dev);
    BytesNext(m.done, Sent(item, m.cells));
    assert Bytes(m.done + [Sent(item, m.cells)]) + [] == Bytes(m.done + [Sent(item, m.cells)]);
  }

  lemma RestHears(m: Machine, dev: bool, pend: seq<seq<bool>>, taken: seq<seq<bool>>)
    requires Steady(m, pend) && m.cur.None? && m.core.delay == 0 && Received(m, taken)
    ensures Received(SmCycle(m, dev), taken)
  {
    hide SmCycle, Received, Log, Balanced;
    assert Settled(m) == m;
    var m' := SmCycle(m, dev);
    match m.core.pc
    case 0 => NackEffect(m, dev); OutsideHears(m, m', taken);
    case 1 => ParkEffect(m, dev); OutsideHears(m, m', taken);
    case 17 => RepeatEffect(m, dev); OutsideHears(m, m', taken);
    case _ =>
      if m.tx == [] {
        StarveEffect(m, dev);
      } else {
        FetchBalanced(m.done, m.k, m.rest, m.tx, pend);
        FetchEffect(m, dev);
      }
      OutsideHears(m, m', taken);
  }

  lemma EscapeHears(m: Machine, item: Item, dev: bool, pend: seq<seq<bool>>, taken: seq<seq<bool>>)
    requires Steady(m, pend) && m.cur == Some(item) && m.core.pc == 16 && m.core.delay == 0 && Received(m, taken)
    ensures Received(SmCycle(m, dev), taken)
  {
    hide SmCycle, Received, Log, Balanced, InEscape, Between, Observe, SetSclSda;
    assert Settled(m) == m;
    var m' := SmCycle(m, dev);
    if m.tx == [] {
      StarveEffect(m, dev);
      OutsideHears(m, m', taken);
    } else {
      ExecBalanced(m.done, item, m.k, m.rest, m.tx, pend);
      var (scl, sda) := item.Levels()[m.k];
      ExecEffect(m, dev, scl, sda);
      OutsideHears(m, m'.(done := m.done), taken);
      NothingHeard(m', item, m.done, taken);
    }
  }

  lemma NothingHeard(m: Machine, item: Item, done: seq<Sent>, taken: seq<seq<bool>>)
    requires !item.Record? && (m.done == done || m.done == done + [Sent(item, [])])
    requires Received(m.(done := done), taken)
    ensures Received(m, taken)
  {
    BytesNext(done, Sent(item, []));
    assert Bytes(done) + [] == Bytes(done);
  }

  lemma UnpackHears(m: Machine, dev: bool, taken: seq<seq<bool>>)
    requires Tied(m) && 13 <= m.core.pc <= 14 && m.core.osr != [] && m.core.delay == 0 && Received(m, taken)
    ensures Received(SmCycle(m, dev), taken)
  {
    hide SmCycle, Received, Tied;
    if m.core.pc == 13 { FlagEffect(m, dev); } else { BranchEffect(m, dev); }
    OutsideHears(m, SmCycle(m, dev), taken);
  }

  lemma AroundHears(m: Machine, dev: bool, taken: seq<seq<bool>>)
    requires Tied(m) && m.core.delay == 0 && Received(m, taken)
    requires m.core.pc == 17 || (m.core.pc == 15 && 0 < |m.core.osr| <= 32)
    ensures Received(SmCycle(m, dev), taken)
  {
    hide SmCycle, Received, Tied;
    if m.core.pc == 15 { DiscardEffect(m, dev); } else { RepeatEffect(m, dev); }
    OutsideHears(m, SmCycle(m, dev), taken);
  }

  lemma ItemHears(m: Machine, item: Item, dev: bool, pend: seq<seq<bool>>, taken: seq<seq<bool>>)
    requires Steady(m, pend) && m.cur == Some(item) && m.core.pc >= 13 && m.core.delay == 0 && Received(m, taken)
    ensures Received(SmCycle(m, dev), taken)
  {
    hide SmCycle, Received, Log, Balanced, InEscape, Between, Tied;
    assert Settled(m) == m;
    match m.core.pc
    case 13 => UnpackHears(m, dev, taken);
    case 14 => UnpackHears(m, dev, taken);
    case 16 => EscapeHears(m, item, dev, pend, taken);
    case _ => AroundHears(m, dev, taken);
  }

  lemma ClockHears(m: Machine, dev: bool, taken: seq<seq<bool>>)
    requires Tied(m) && m.core.delay == 0 && Received(m, taken)
    requires m.core.pc == 4 || m.core.pc == 5 || m.core.pc == 9 || m.core.pc == 10
    ensures Received(SmCycle(m, dev), taken)
  {
    hide SmCycle, Received, Tied, Observe;
    if m.core.pc == 4 || m.core.pc == 9 { ClockEffect(m, dev); } else { StretchEffect(m, dev); }
    WithinHears(m, SmCycle(m, dev), taken);
  }

  lemma ByteHears(m: Machine, item: Item, dev: bool, taken: seq<seq<bool>>)
    requires item.Record? && InRecord(m, item) && m.core.pc == 2 && m.core.delay == 0 && Received(m, taken)
    ensures Received(SmCycle(m, dev), taken)
  {
    hide SmCycle, Received, InRecord;
    RecordTied(m, item);
    BeginByte(m, item);
    ByteEffect(m, dev);
    OutsideHears(m, SmCycle(m, dev), taken);
  }

  lemma RecordHears(m: Machine, item: Item, dev: bool, taken: seq<seq<bool>>)
    requires m.cur == Some(item) && item.Record? && InRecord(m, item) && m.core.delay == 0 && Received(m, taken)
    ensures Received(SmCycle(m, dev), taken)
  {
    hide SmCycle, Received, InRecord, Tied;
    RecordTied(m, item);
    match m.core.pc
    case 2 => ByteHears(m, item, dev, taken);
    case 3 => BeginHears(m, item, dev, taken);
    case 8 => BeginHears(m, item, dev, taken);
    case 6 => SampleHears(m, item, dev, taken);
    case 7 => FallHears(m, item, dev, taken);
    case 11 => AckHears(m, item, dev, taken);
    case _ => ClockHears(m, dev, taken);
  }

  lemma BeginByte(m: Machine, item: Item)
    requires item.Record? && InRecord(m, item) && m.core.pc == 2
    ensures m.cells == []
  {
  }

  /** Every cycle keeps the received bytes those on the wire. */
  lemma CycleHears(m: Machine, dev: bool, pend: seq<seq<bool>>, taken: seq<seq<bool>>)
    requires Steady(m, pend) && Received(m, taken)
    ensures Received(SmCycle(m, dev), taken)
  {
    hide SmCycle, Received, Log, Balanced, InRecord, AtRest;
    if m.core.delay > 0 {
      DelayEffect(m, dev);
      WithinHears(m, SmCycle(m, dev), taken);
    } else {
      assert Settled(m) == m;
      if m.cur.None? {
        RestHears(m, dev, pend, taken);
      } else if m.core.pc >= 13 {
        ItemHears(m, m.cur.value, dev, pend, taken);
      } else {
        RecordHears(m, m.cur.value, dev, taken);
      }
    }
  }
}
