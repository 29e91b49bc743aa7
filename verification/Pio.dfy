/** One state machine of the RP2040 programmable I/O block, one clock cycle at a time
    (RP2040 datasheet, sections 3.4 and 3.5), with the instructions the modelled programs use. */
module Pio {
  import opened Wrappers

  datatype Condition = Always | XZero | XPostDecrement | YPostDecrement | PinHigh
  datatype Source = FromPin | FromX | FromY
  datatype Destination = ToX | ToY | ToPin | ToNull | ToExec

  datatype Op =
    | Jmp(condition: Condition, target: nat)
    | Wait(level: bool)                  // on the program's wait pin
    | In(source: Source)                 // one bit
    | Out(destination: Destination, count: nat)
    | SetX(value: nat)
    | IrqWait
    | Nop

  /** An instruction with its optional side-set level and its delay cycles. */
  datatype Instr = Instr(op: Op, side: Option<bool>, delay: nat)

  /** The registers. `osr` holds the bits still to be shifted out, in the order they leave;
      `isr` the bits shifted in, in the order they came. `side` and `pin` are the driven
      side-set and OUT/SET pin. `parked` marks a machine stopped in `irq wait`. */
  datatype Core = Core(
    pc: nat, delay: nat, x: nat, y: nat, osr: seq<bool>, isr: seq<bool>,
    side: bool, pin: bool, irq: bool, parked: bool)

  /** What one cycle sees: the wait pin, the data pin (also the JMP pin), the head of the TX
      FIFO in shift order, and whether the RX FIFO has room. */
  datatype Env = Env(waitPin: bool, dataPin: bool, tx: Option<seq<bool>>, rxRoom: bool)

  /** The registers after a cycle, whether it took the TX word, what it pushed, and whether
      it stalled for want of a TX word. */
  datatype Cycle = Cycle(core: Core, pulled: bool, pushed: Option<seq<bool>>, starved: bool)

  function Quietly(core: Core): Cycle {
    Cycle(core, false, None, false)
  }

  /** The number whose bits are given most significant first, as OUT to a scratch register reads
      a left-shifting OSR. */
  function Value(bits: seq<bool>): nat {
    if bits == [] then 0 else 2 * Value(bits[..|bits| - 1]) + (if bits[|bits| - 1] then 1 else 0)
  }

  predicate Taken(condition: Condition, c: Core, dataPin: bool) {
    match condition
    case Always => true
    case XZero => c.x == 0
    case XPostDecrement => c.x != 0
    case YPostDecrement => c.y != 0
    case PinHigh => dataPin
  }

  /** A 32-bit register after a decrement. */
  function Decrement(v: nat): nat {
    if v == 0 then 0xFFFF_FFFF else v - 1
  }

  /** An instruction word executed through OUT EXEC. Only `set pindirs` with an optional one-bit
      side-set is interpreted: opcode 111, side enable, side level, 3 delay bits, destination 100,
      5 data bits. Any other word changes nothing. */
  function Executed(word: seq<bool>, c: Core): Core {
    if |word| == 16 && word[0] && word[1] && word[2] && word[8] && !word[9] && !word[10] then
      c.(side := if word[3] then word[4] else c.side, pin := word[15], delay := Value(word[5..8]))
    else
      c
  }

  /** One clock cycle of a machine whose next instruction is `i`, `next` being the address after
      it with wrapping; `push` is the autopush threshold, if autopush is on. */
  function Step(i: Instr, next: nat, push: Option<nat>, c: Core, env: Env): (cycle: Cycle)
    ensures cycle.pulled ==> env.tx.Some?
  {
    if c.delay > 0 then
      Quietly(c.(delay := c.delay - 1))
    else
      // side-set takes effect even while the instruction stalls
      Execute(i, push, c.(side := if i.side.Some? then i.side.value else c.side), next, env)
  }

  function Execute(i: Instr, push: Option<nat>, c: Core, next: nat, env: Env): (cycle: Cycle)
    ensures cycle.pulled ==> env.tx.Some?
  {
    var done := c.(pc := next, delay := i.delay);
    match i.op
    case Jmp(condition, target) =>
      var pc := if Taken(condition, c, env.dataPin) then target else next;
      var x := if condition.XPostDecrement? then Decrement(c.x) else c.x;
      var y := if condition.YPostDecrement? then Decrement(c.y) else c.y;
      Quietly(done.(pc := pc, x := x, y := y))
    case Wait(level) =>
      Quietly(if env.waitPin == level then done else c)
    case In(source) =>
      var bit := if source.FromPin? then env.dataPin else (if source.FromX? then c.x else c.y) % 2 == 1;
      var isr := c.isr + [bit];
      if push.Some? && |isr| >= push.value then
        if env.rxRoom then Cycle(done.(isr := []), false, Some(isr), false) else Quietly(c)
      else
        // with nothing pushed, old bits fall off the far end of the 32-bit register
        Quietly(done.(isr := if |isr| > 32 then isr[1..] else isr))
    case Out(destination, count) =>
      if c.osr == [] && env.tx.None? then
        Cycle(c, false, None, true)
      else
        var osr := if c.osr == [] then env.tx.value else c.osr;
        var n := if count <= |osr| then count else |osr|;
        Cycle(ShiftedOut(destination, osr[..n], done.(osr := osr[n..])), c.osr == [], None, false)
    case SetX(value) =>
      Quietly(done.(x := value))
    case IrqWait =>
      Quietly(if !c.parked then c.(irq := true, parked := true)
              else if !c.irq then done.(parked := false)
              else c)
    case Nop =>
      Quietly(done)
  }

  function ShiftedOut(destination: Destination, out: seq<bool>, c: Core): Core {
    match destination
    case ToX => c.(x := Value(out))
    case ToY => c.(y := Value(out))
    case ToPin => c.(pin := out != [] && out[|out| - 1])
    case ToNull => c
    case ToExec => Executed(out, c)
  }
}
