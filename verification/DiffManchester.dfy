/** The differential Manchester transmitter and receiver of pio/differential_manchester,
    cycle by cycle. Whatever the transmitter is given, and however late each word arrives,
    the receiver recovers it exactly; and it tolerates far more timing slack than the
    transmitter needs. Words travel least significant bit first: both shift registers shift right. */
module DiffManchester {
  import opened Wrappers
  import opened Pio

  function TxInstr(pc: nat): Instr {
    match pc
    case 0 => Instr(Out(ToX, 1), None, 0)               // initial_high
    case 1 => Instr(Jmp(XZero, 4), Some(true), 6)
    case 2 => Instr(Nop, None, 0)                       // high_1
    case 3 => Instr(Jmp(Always, 0), Some(false), 6)
    case 4 => Instr(Jmp(Always, 5), None, 7)            // high_0
    case 5 => Instr(Out(ToX, 1), None, 0)               // initial_low
    case 6 => Instr(Jmp(XZero, 9), Some(false), 6)
    case 7 => Instr(Nop, None, 0)                       // low_1
    case 8 => Instr(Jmp(Always, 5), Some(true), 6)
    case _ => Instr(Jmp(Always, 0), None, 7)            // low_0
  }

  function RxInstr(pc: nat): Instr {
    match pc
    case 0 => Instr(Wait(true), None, 11)               // initial_high
    case 1 => Instr(Jmp(PinHigh, 4), None, 0)
    case 2 => Instr(In(FromX), None, 0)                 // high_1
    case 3 => Instr(Jmp(Always, 0), None, 0)
    case 4 => Instr(In(FromY), None, 1)                 // high_0
    case 5 => Instr(Wait(false), None, 11)              // initial_low
    case 6 => Instr(Jmp(PinHigh, 9), None, 0)
    case 7 => Instr(In(FromY), None, 0)                 // low_0
    case 8 => Instr(Jmp(Always, 0), None, 0)
    case _ => Instr(In(FromX), None, 1)                 // low_1
  }

  // ----- The two machines over a whole run

  datatype Sender = Sender(core: Core, words: seq<Word>)

  /** The line level and the sender after each cycle; `ready[t]` says whether the next word has
      reached the TX FIFO by cycle t. */
  function Transmit(s: Sender, ready: seq<bool>): (r: (Sender, seq<bool>))
    ensures |r.1| == |ready|
    decreases |ready|
  {
    if ready == [] then (s, [])
    else
      var s' := SenderCycle(s, ready[0]);
      var (end, line) := Transmit(s', ready[1..]);
      (end, [s'.core.side] + line)
  }

  function SenderCycle(s: Sender, ready: bool): (s': Sender) {
    var env := Env(false, false, if ready && s.words != [] then Some(s.words[0]) else None, false);
    var cycle := Step(TxInstr(s.core.pc), if s.core.pc == 9 then 0 else s.core.pc + 1, None, s.core, env);
    Sender(cycle.core, if cycle.pulled then s.words[1..] else s.words)
  }

  datatype Receiver = Receiver(core: Core, words: seq<seq<bool>>)

  function ReceiverCycle(r: Receiver, level: bool): (r': Receiver) {
    var next := if r.core.pc == 9 then 5 else r.core.pc + 1;
    var cycle := Step(RxInstr(r.core.pc), next, Some(32), r.core, Env(level, level, None, true));
    Receiver(cycle.core, if cycle.pushed.Some? then r.words + [cycle.pushed.value] else r.words)
  }

  function Receive(r: Receiver, line: seq<bool>): (r': Receiver)
    decreases |line|
  {
    if line == [] then r else Receive(ReceiverCycle(r, line[0]), line[1..])
  }

  lemma {:induction false} TransmitConcat(s: Sender, a: seq<bool>, b: seq<bool>)
    ensures var (mid, first) := Transmit(s, a);
            var (end, rest) := Transmit(mid, b);
            Transmit(s, a + b) == (end, first + rest)
    decreases |a|
  {
    hide Step;
    if a == [] {
      assert a + b == b;
      assert [] + Transmit(s, b).1 == Transmit(s, b).1;
    } else {
      assert (a + b)[1..] == a[1..] + b;
      var s' := SenderCycle(s, a[0]);
      TransmitConcat(s', a[1..], b);
      var (mid, first) := Transmit(s', a[1..]);
      var (end, rest) := Transmit(mid, b);
      assert [s'.core.side] + (first + rest) == ([s'.core.side] + first) + rest;
    }
  }

  lemma {:induction false} ReceiveConcat(r: Receiver, a: seq<bool>, b: seq<bool>)
    ensures Receive(r, a + b) == Receive(Receive(r, a), b)
    decreases |a|
  {
    hide Step;
    if a == [] {
      assert a + b == b;
    } else {
      assert (a + b)[1..] == a[1..] + b;
      ReceiveConcat(ReceiverCycle(r, a[0]), a[1..], b);
    }
  }

  // ----- The wave of one bit

  function Hold(level: bool, n: nat): (line: seq<bool>)
    ensures |line| == n && forall i :: 0 <= i < n ==> line[i] == level
  {
    seq(n, _ => level)
  }

  /** The 15 cycles from a start-of-bit edge to `level`: a 1 has a second transition after
      `mid` cycles. */
  function Body(level: bool, bit: bool, mid: nat): (line: seq<bool>)
    ensures |line| == 15 && forall i :: 0 <= i < 15 ==> line[i] == (if bit && i >= mid then !level else level)
  {
    seq(15, i => if bit && i >= mid then !level else level)
  }

  /** The level the next start-of-bit edge goes to. */
  function NextLevel(level: bool, bit: bool): bool {
    if bit then level else !level
  }

  // ----- The receiver on one bit

  /** The receiver waiting for an edge to `level`. */
  function Listening(level: bool, isr: seq<bool>, words: seq<seq<bool>>): Receiver {
    Receiver(Core(if level then 0 else 5, 0, 1, 0, [], isr, false, false, false, false), words)
  }

  function Heard(level: bool, isr: seq<bool>, words: seq<seq<bool>>, bit: bool): Receiver {
    if |isr| >= 31 then Listening(level, [], words + [isr + [bit]]) else Listening(level, isr + [bit], words)
  }

  lemma {:induction false} ReceiverIdles(level: bool, isr: seq<bool>, words: seq<seq<bool>>, n: nat)
    ensures Receive(Listening(level, isr, words), Hold(!level, n)) == Listening(level, isr, words)
  {
    if n > 0 {
      assert Hold(!level, n)[1..] == Hold(!level, n - 1);
      ReceiverIdles(level, isr, words, n - 1);
    }
  }

  lemma {:induction false} ReceiverDelays(r: Receiver, line: seq<bool>)
    requires |line| <= r.core.delay
    ensures Receive(r, line) == r.(core := r.core.(delay := r.core.delay - |line|))
    decreases |line|
  {
    if line != [] {
      ReceiverDelays(ReceiverCycle(r, line[0]), line[1..]);
    }
  }

  function RxAt(pc: nat, delay: nat, isr: seq<bool>, words: seq<seq<bool>>): Receiver {
    Receiver(Core(pc, delay, 1, 0, [], isr, false, false, false, false), words)
  }

  /** Where a decoded bit is shifted in. */
  function StorePc(level: bool, bit: bool): nat {
    if level then (if bit then 2 else 4) else (if bit then 9 else 7)
  }

  lemma ReceiverEdge(level: bool, isr: seq<bool>, words: seq<seq<bool>>)
    ensures ReceiverCycle(Listening(level, isr, words), level) == RxAt(if level then 1 else 6, 11, isr, words)
  {
  }

  lemma ReceiverBranch(level: bool, isr: seq<bool>, words: seq<seq<bool>>, sample: bool)
    ensures ReceiverCycle(RxAt(if level then 1 else 6, 0, isr, words), sample)
         == RxAt(StorePc(level, sample != level), 0, isr, words)
  {
  }

  lemma ReceiverStores(level: bool, isr: seq<bool>, words: seq<seq<bool>>, bit: bool, line: seq<bool>)
    requires |isr| < 32 && |line| == 2
    ensures Receive(RxAt(StorePc(level, bit), 0, isr, words), line) == Heard(NextLevel(level, bit), isr, words, bit)
  {
    var isr', words' := if |isr| == 31 then [] else isr + [bit], if |isr| == 31 then words + [isr + [bit]] else words;
    var r := if level == bit then RxAt(if bit then 3 else 8, 0, isr', words') else RxAt(5, 1, isr', words');
    ReceiverShifts(level, isr, words, bit, line[0]);
    assert ReceiverCycle(r, line[1]) == Heard(NextLevel(level, bit), isr, words, bit);
    hide Step;
    assert line == [line[0], line[1]];
    assert line[1..] == [line[1]] && line[1..][1..] == [];
    assert Receive(r, line[1..]) == Heard(NextLevel(level, bit), isr, words, bit);
  }

  lemma ReceiverShifts(level: bool, isr: seq<bool>, words: seq<seq<bool>>, bit: bool, any: bool)
    requires |isr| < 32
    ensures var isr' := if |isr| == 31 then [] else isr + [bit];
            var words' := if |isr| == 31 then words + [isr + [bit]] else words;
            ReceiverCycle(RxAt(StorePc(level, bit), 0, isr, words), any)
            == if level == bit then RxAt(if bit then 3 else 8, 0, isr', words') else RxAt(5, 1, isr', words')
  {
  }

  lemma ReceiverWaits(level: bool, isr: seq<bool>, words: seq<seq<bool>>, line: seq<bool>)
    requires |line| == 11
    ensures Receive(RxAt(if level then 1 else 6, 11, isr, words), line) == RxAt(if level then 1 else 6, 0, isr, words)
  {
    ReceiverDelays(RxAt(if level then 1 else 6, 11, isr, words), line);
  }

  /** From a start-of-bit edge the receiver is back at its wait after exactly 15 cycles, having
      sampled the line once, 12 cycles after the edge. */
  lemma ReceiverSamples(level: bool, isr: seq<bool>, words: seq<seq<bool>>, line: seq<bool>)
    requires |isr| < 32 && |line| == 15 && line[0] == level
    ensures var bit := line[12] != level;
            Receive(Listening(level, isr, words), line) == Heard(NextLevel(level, bit), isr, words, bit)
  {
    hide Step, ReceiverCycle, RxAt, Heard, NextLevel, Listening, StorePc;
    var bit := line[12] != level;
    var waited := RxAt(if level then 1 else 6, 11, isr, words);
    var branch := RxAt(if level then 1 else 6, 0, isr, words);
    var store := RxAt(StorePc(level, bit), 0, isr, words);
    ReceiverEdge(level, isr, words);
    ReceiverWaits(level, isr, words, line[1..12]);
    ReceiverBranch(level, isr, words, line[12]);
    ReceiverStores(level, isr, words, bit, line[13..]);
    ReceiveConcat(waited, line[1..12], line[12..]);
    assert line[1..] == line[1..12] + line[12..];
    assert line[12..][1..] == line[13..];
  }

  /** Any mid-bit transition from 1 to 12 cycles after the edge is decoded correctly, however
      long the line idled before the edge. */
  lemma ReceiverDecodes(level: bool, isr: seq<bool>, words: seq<seq<bool>>, idle: nat, bit: bool, mid: nat)
    requires |isr| < 32 && (bit ==> 1 <= mid <= 12)
    ensures Receive(Listening(level, isr, words), Hold(!level, idle) + Body(level, bit, mid))
         == Heard(NextLevel(level, bit), isr, words, bit)
  {
    ReceiverIdles(level, isr, words, idle);
    ReceiveConcat(Listening(level, isr, words), Hold(!level, idle), Body(level, bit, mid));
    ReceiverSamples(level, isr, words, Body(level, bit, mid));
  }

  /** One bit as it comes off any line: the cycles of idling before its start edge, and the place
      of its second transition if it is a 1. */
  datatype Pulse = Pulse(idle: nat, bit: bool, mid: nat)

  function Wave(level: bool, pulses: seq<Pulse>): seq<bool>
    decreases |pulses|
  {
    if pulses == [] then []
    else
      var p := pulses[0];
      Hold(!level, p.idle) + Body(level, p.bit, p.mid) + Wave(NextLevel(level, p.bit), pulses[1..])
  }

  function BitsOf(pulses: seq<Pulse>): seq<bool> {
    if pulses == [] then [] else [pulses[0].bit] + BitsOf(pulses[1..])
  }

  function Joined(words: seq<seq<bool>>): seq<bool> {
    if words == [] then [] else Joined(words[..|words| - 1]) + words[|words| - 1]
  }

  /** Everything a receiver has shifted in, pushed or not. */
  function Recovered(r: Receiver): seq<bool> {
    Joined(r.words) + r.core.isr
  }

  /** Only whole words are pushed. */
  predicate Full(words: seq<seq<bool>>) {
    forall i :: 0 <= i < |words| ==> |words[i]| == 32
  }

  lemma HeardOneMore(level: bool, isr: seq<bool>, words: seq<seq<bool>>, bit: bool)
    requires |isr| < 32
    ensures var h := Heard(level, isr, words, bit);
            && Recovered(h) == Recovered(Listening(level, isr, words)) + [bit]
            && |h.core.isr| < 32 && h == Listening(level, h.core.isr, h.words)
            && (Full(words) ==> Full(h.words))
  {
    if |isr| >= 31 {
      assert (words + [isr + [bit]])[..|words|] == words;
    }
  }

  lemma ConcatAssociative(a: seq<bool>, b: seq<bool>, c: seq<bool>)
    ensures a + b + c == a + (b + c)
  {
  }

  lemma FirstPulse(level: bool, isr: seq<bool>, words: seq<seq<bool>>, pulses: seq<Pulse>)
    requires |isr| < 32 && pulses != [] && (pulses[0].bit ==> 1 <= pulses[0].mid <= 12)
    ensures var p := pulses[0];
            var next := NextLevel(level, p.bit);
            Receive(Listening(level, isr, words), Wave(level, pulses))
            == Receive(Heard(next, isr, words, p.bit), Wave(next, pulses[1..]))
  {
    hide Step, Body, Hold, Heard, NextLevel, Receive;
    var p := pulses[0];
    ReceiverDecodes(level, isr, words, p.idle, p.bit, p.mid);
    ReceiveConcat(Listening(level, isr, words), Hold(!level, p.idle) + Body(level, p.bit, p.mid),
                  Wave(NextLevel(level, p.bit), pulses[1..]));
  }

  /** However irregular the line, as long as each second transition comes 1 to 12 cycles after its
      start edge and the next start edge at least 15 cycles after the last, every bit is recovered
      in order, and words of 32 bits are pushed as they complete. */
  lemma {:induction false} ReceiverRecovers(level: bool, isr: seq<bool>, words: seq<seq<bool>>, pulses: seq<Pulse>)
    requires |isr| < 32 && Full(words)
    requires forall p <- pulses :: p.bit ==> 1 <= p.mid <= 12
    ensures var r := Receive(Listening(level, isr, words), Wave(level, pulses));
            && Recovered(r) == Recovered(Listening(level, isr, words)) + BitsOf(pulses)
            && |r.core.isr| < 32 && Full(r.words)
    decreases |pulses|
  {
    hide Step, Joined, Heard, NextLevel;
    var before := Recovered(Listening(level, isr, words));
    if pulses == [] {
      assert before + [] == before;
    } else {
      hide Receive, Recovered, Wave;
      var bit := pulses[0].bit;
      var next := NextLevel(level, bit);
      var h := Heard(next, isr, words, bit);
      HeardOneMore(next, isr, words, bit);
      FirstPulse(level, isr, words, pulses);
      ReceiverRecovers(next, h.core.isr, h.words, pulses[1..]);
      ConcatAssociative(before, [bit], BitsOf(pulses[1..]));
    }
  }

  /** One cycle later and a 1 reads as a 0. */
  lemma LateTransitionMisread(level: bool, isr: seq<bool>, words: seq<seq<bool>>, mid: nat)
    requires |isr| < 32 && mid >= 13
    ensures Receive(Listening(level, isr, words), Body(level, true, mid)) == Heard(!level, isr, words, false)
  {
    ReceiverSamples(level, isr, words, Body(level, true, mid));
  }

  /** A cycle shifts in at most one bit, pushing the register once it is full. */
  lemma CycleShifts(r: Receiver, level: bool)
    ensures var r', n := ReceiverCycle(r, level), |r.words|;
            if |r'.words| == n then r'.words == r.words && r.core.isr <= r'.core.isr
            else |r'.words| == n + 1 && r'.words[..n] == r.words && r.core.isr <= r'.words[n] && r'.core.isr == []
  {
    hide Value, Executed;
  }

  /** Whatever the line does, what has been recovered stays. */
  lemma {:induction false} RecoveredStays(r: Receiver, line: seq<bool>)
    ensures Recovered(r) <= Recovered(Receive(r, line))
    decreases |line|
  {
    hide ReceiverCycle;
    if line != [] {
      CycleShifts(r, line[0]);
      RecoveredStays(ReceiverCycle(r, line[0]), line[1..]);
    }
  }

  lemma LatePulse(level: bool, isr: seq<bool>, words: seq<seq<bool>>, pulses: seq<Pulse>)
    requires |isr| < 32 && pulses != [] && pulses[0].bit && pulses[0].mid >= 13
    ensures Receive(Listening(level, isr, words), Wave(level, pulses))
         == Receive(Heard(!level, isr, words, false), Wave(level, pulses[1..]))
  {
    hide Step, Body, Hold, Heard, Receive, Listening;
    var p := pulses[0];
    var here, idle, body := Listening(level, isr, words), Hold(!level, p.idle), Body(level, true, p.mid);
    ReceiverIdles(level, isr, words, p.idle);
    LateTransitionMisread(level, isr, words, p.mid);
    ReceiveConcat(here, idle, body);
    ReceiveConcat(here, idle + body, Wave(level, pulses[1..]));
  }

  lemma RecoveredOf(level: bool, isr: seq<bool>, words: seq<seq<bool>>)
    ensures Recovered(Listening(level, isr, words)) == Joined(words) + isr
  {
  }

  /** One late transition anywhere in a line, and what is recovered is not what was sent. */
  lemma {:induction false} LateLineMisread(level: bool, isr: seq<bool>, words: seq<seq<bool>>, pulses: seq<Pulse>)
    requires |isr| < 32
    requires forall p <- pulses :: p.bit ==> 1 <= p.mid
    requires exists k :: 0 <= k < |pulses| && pulses[k].bit && pulses[k].mid >= 13
    ensures !(Recovered(Listening(level, isr, words)) + BitsOf(pulses)
              <= Recovered(Receive(Listening(level, isr, words), Wave(level, pulses))))
    decreases |pulses|
  {
    hide Step, Joined, Heard, NextLevel, Receive, Recovered, Wave, Listening;
    var before, bit := Recovered(Listening(level, isr, words)), pulses[0].bit;
    RecoveredOf(level, isr, words);
    RecoveredOf(!level, isr, words);
    if bit && pulses[0].mid >= 13 {
      var h := Heard(!level, isr, words, false);
      HeardOneMore(!level, isr, words, false);
      LatePulse(level, isr, words, pulses);
      RecoveredStays(h, Wave(level, pulses[1..]));
      assert (before + [false])[|before|] != (before + BitsOf(pulses))[|before|];
    } else {
      var next := NextLevel(level, bit);
      var h := Heard(next, isr, words, bit);
      HeardOneMore(next, isr, words, bit);
      FirstPulse(level, isr, words, pulses);
      var k :| 0 <= k < |pulses| && pulses[k].bit && pulses[k].mid >= 13;
      assert pulses[1..][k - 1] == pulses[k];
      LateLineMisread(next, h.core.isr, h.words, pulses[1..]);
      ConcatAssociative(before, [bit], BitsOf(pulses[1..]));
    }
  }

  /** The window is exact for whole lines: exactly the bits sent are recovered if and only if every second
      transition comes within 12 cycles of its start edge. */
  lemma WindowExact(level: bool, isr: seq<bool>, words: seq<seq<bool>>, pulses: seq<Pulse>)
    requires |isr| < 32 && Full(words)
    requires forall p <- pulses :: p.bit ==> 1 <= p.mid
    ensures Recovered(Receive(Listening(level, isr, words), Wave(level, pulses)))
            == Recovered(Listening(level, isr, words)) + BitsOf(pulses)
       <==> forall p <- pulses :: p.bit ==> p.mid <= 12
  {
    hide Receive, Listening, Recovered, Wave, BitsOf;
    if forall p <- pulses :: p.bit ==> p.mid <= 12 {
      ReceiverRecovers(level, isr, words, pulses);
    } else {
      var p :| p in pulses && p.bit && p.mid >= 13;
      var k :| 0 <= k < |pulses| && pulses[k] == p;
      LateLineMisread(level, isr, words, pulses);
    }
  }

  // ----- The transmitter on one bit

  /** The transmitter about to fetch a bit whose start edge goes to `level`. */
  function Poised(level: bool, x: nat, osr: seq<bool>, words: seq<Word>): Sender {
    Sender(Core(if level then 0 else 5, 0, x, 0, osr, [], !level, false, false, false), words)
  }

  lemma {:induction false} SenderStalls(level: bool, x: nat, words: seq<Word>, n: nat)
    ensures Transmit(Poised(level, x, [], words), Hold(false, n)) == (Poised(level, x, [], words), Hold(!level, n))
  {
    if n > 0 {
      assert Hold(false, n)[1..] == Hold(false, n - 1);
      assert Hold(!level, n) == [!level] + Hold(!level, n - 1);
      SenderStalls(level, x, words, n - 1);
    }
  }

  lemma {:induction false} SenderDelays(s: Sender, ready: seq<bool>)
    requires |ready| <= s.core.delay
    ensures Transmit(s, ready) == (s.(core := s.core.(delay := s.core.delay - |ready|)), Hold(s.core.side, |ready|))
    decreases |ready|
  {
    if ready != [] {
      SenderDelays(SenderCycle(s, ready[0]), ready[1..]);
      assert Hold(s.core.side, |ready|) == [s.core.side] + Hold(s.core.side, |ready| - 1);
    }
  }

  function TxAt(pc: nat, delay: nat, x: nat, osr: seq<bool>, side: bool, words: seq<Word>): Sender {
    Sender(Core(pc, delay, x, 0, osr, [], side, false, false, false), words)
  }

  lemma SenderFetches(level: bool, x: nat, osr: seq<bool>, words: seq<Word>, ready: bool)
    requires osr == [] ==> ready && words != []
    ensures var source := if osr == [] then words[0] else osr;
            SenderCycle(Poised(level, x, osr, words), ready)
            == TxAt(if level then 1 else 6, 0, if source[0] then 1 else 0, source[1..], !level,
                    if osr == [] then words[1..] else words)
  {
    var source := if osr == [] then words[0] else osr;
    assert source[..1] == [source[0]];
    assert Value([source[0]]) == if source[0] then 1 else 0;
  }

  /** The seven cycles of the first half wave. */
  lemma SenderEdge(level: bool, bit: bool, osr: seq<bool>, words: seq<Word>, ready: seq<bool>)
    requires |ready| == 7
    ensures Transmit(TxAt(if level then 1 else 6, 0, if bit then 1 else 0, osr, !level, words), ready)
         == (TxAt(HalfPc(level, bit), 0, if bit then 1 else 0, osr, level, words), Hold(level, 7))
  {
    var s := TxAt(HalfPc(level, bit), 6, if bit then 1 else 0, osr, level, words);
    assert SenderCycle(TxAt(if level then 1 else 6, 0, if bit then 1 else 0, osr, !level, words), ready[0]) == s;
    SenderDelays(s, ready[1..]);
    assert Hold(level, 7) == [level] + Hold(level, 6);
  }

  /** Where the second half of a bit starts. */
  function HalfPc(level: bool, bit: bool): nat {
    if level then (if bit then 2 else 4) else (if bit then 7 else 9)
  }

  /** The eight cycles after them. */
  lemma SenderHalf(level: bool, bit: bool, osr: seq<bool>, words: seq<Word>, ready: seq<bool>)
    requires |ready| == 8
    ensures Transmit(TxAt(HalfPc(level, bit), 0, if bit then 1 else 0, osr, level, words), ready)
         == (Poised(NextLevel(level, bit), if bit then 1 else 0, osr, words),
             if bit then [level] + Hold(!level, 7) else Hold(level, 8))
  {
    var x, s := if bit then 1 else 0, TxAt(HalfPc(level, bit), 0, if bit then 1 else 0, osr, level, words);
    if bit {
      var s1 := TxAt(if level then 3 else 8, 0, x, osr, level, words);
      assert SenderCycle(s, ready[0]) == s1;
      var s2 := TxAt(if level then 0 else 5, 6, x, osr, !level, words);
      assert SenderCycle(s1, ready[1..][0]) == s2;
      SenderDelays(s2, ready[1..][1..]);
      assert Hold(!level, 7) == [!level] + Hold(!level, 6);
    } else {
      var s1 := TxAt(if level then 5 else 0, 7, x, osr, level, words);
      assert SenderCycle(s, ready[0]) == s1;
      SenderDelays(s1, ready[1..]);
      assert Hold(level, 8) == [level] + Hold(level, 7);
    }
  }

  /** The 16 cycles of one bit: one at the old level, then the wave with its second transition,
      if any, 8 cycles after the first. */
  lemma SenderBit(level: bool, x: nat, osr: seq<bool>, words: seq<Word>, ready: seq<bool>)
    requires |ready| == 16
    requires osr == [] ==> ready[0] && words != []
    ensures var source := if osr == [] then words[0] else osr;
            var rest := if osr == [] then words[1..] else words;
            var bit := source[0];
            Transmit(Poised(level, x, osr, words), ready)
            == (Poised(NextLevel(level, bit), if bit then 1 else 0, source[1..], rest), [!level] + Body(level, bit, 8))
  {
    var source := if osr == [] then words[0] else osr;
    var rest := if osr == [] then words[1..] else words;
    var bit := source[0];
    hide Step, Body, Hold, NextLevel;
    SenderFetches(level, x, osr, words, ready[0]);
    var s := TxAt(if level then 1 else 6, 0, if bit then 1 else 0, source[1..], !level, rest);
    SenderEdge(level, bit, source[1..], rest, ready[1..8]);
    SenderHalf(level, bit, source[1..], rest, ready[8..]);
    TransmitConcat(s, ready[1..8], ready[8..]);
    assert ready[1..] == ready[1..8] + ready[8..];
    BodyHalves(level, bit);
    assert Transmit(s, ready[1..]).1 == Body(level, bit, 8);
  }

  lemma BodyHalves(level: bool, bit: bool)
    ensures Body(level, bit, 8) == Hold(level, 7) + (if bit then [level] + Hold(!level, 7) else Hold(level, 8))
  {
  }

  /** The same after any number of cycles spent waiting for a word. */
  lemma SenderLateBit(level: bool, x: nat, osr: seq<bool>, words: seq<Word>, slot: Slot)
    requires |slot.ready| == 16
    requires if osr == [] then slot.ready[0] && words != [] else slot.stall == 0
    ensures var source := if osr == [] then words[0] else osr;
            var rest := if osr == [] then words[1..] else words;
            var bit := source[0];
            Transmit(Poised(level, x, osr, words), Hold(false, slot.stall) + slot.ready)
            == (Poised(NextLevel(level, bit), if bit then 1 else 0, source[1..], rest),
                Hold(!level, slot.stall + 1) + Body(level, bit, 8))
  {
    hide Step;
    var bit := (if osr == [] then words[0] else osr)[0];
    var here, body := Poised(level, x, osr, words), Body(level, bit, 8);
    SenderBit(level, x, osr, words, slot.ready);
    assert Hold(!level, slot.stall + 1) + body == Hold(!level, slot.stall) + ([!level] + body);
    if osr == [] {
      SenderStalls(level, x, words, slot.stall);
      TransmitConcat(here, Hold(false, slot.stall), slot.ready);
    } else {
      assert Hold(false, slot.stall) + slot.ready == slot.ready;
      assert Hold(!level, slot.stall) + ([!level] + body) == [!level] + body;
    }
  }

  // ----- The link

  /** How one bit of a run is timed: the cycles the transmitter waits for a word before it, and
      what the FIFO looks like during its 16 cycles. */
  datatype Slot = Slot(stall: nat, ready: seq<bool>)

  /** A stall can only come where the shift register is empty, that is every 32 bits, and ends
      with the word arriving. */
  predicate Timed(slots: seq<Slot>) {
    forall j :: 0 <= j < |slots| ==>
      |slots[j].ready| == 16 &&
      if (|slots| - j) % 32 == 0 then slots[j].ready[0] else slots[j].stall == 0
  }

  function Schedule(slots: seq<Slot>): seq<bool> {
    if slots == [] then [] else Hold(false, slots[0].stall) + slots[0].ready + Schedule(slots[1..])
  }

  /** What a whole run should come to: everything sent, `words` received, nothing left over. */
  predicate Delivered(sent: (Sender, seq<bool>), listener: Receiver, words: seq<seq<bool>>) {
    var heard := Receive(listener, sent.1);
    sent.0.words == [] && sent.0.core.osr == [] && heard.words == words && heard.core.isr == []
  }

  /** One bit across the link: both machines end between bits, the receiver one bit richer. */
  lemma LinkBit(level: bool, x: nat, osr: seq<bool>, words: seq<Word>, isr: seq<bool>, got: seq<seq<bool>>,
                slot: Slot, more: seq<bool>, expected: seq<seq<bool>>)
    requires |isr| < 32 && |slot.ready| == 16
    requires if osr == [] then slot.ready[0] && words != [] else slot.stall == 0
    ensures var source := if osr == [] then words[0] else osr;
            var rest := if osr == [] then words[1..] else words;
            var bit := source[0];
            var sent := Transmit(Poised(level, x, osr, words), Hold(false, slot.stall) + slot.ready + more);
            var after := Transmit(Poised(NextLevel(level, bit), if bit then 1 else 0, source[1..], rest), more);
            Delivered(after, Heard(NextLevel(level, bit), isr, got, bit), expected)
            ==> Delivered(sent, Listening(level, isr, got), expected)
  {
    hide Step, Body, Hold, NextLevel, Poised, Listening, Heard;
    var source := if osr == [] then words[0] else osr;
    var rest := if osr == [] then words[1..] else words;
    var bit := source[0];
    var next := Poised(NextLevel(level, bit), if bit then 1 else 0, source[1..], rest);
    SenderLateBit(level, x, osr, words, slot);
    TransmitConcat(Poised(level, x, osr, words), Hold(false, slot.stall) + slot.ready, more);
    ReceiverDecodes(level, isr, got, slot.stall + 1, bit, 8);
    ReceiveConcat(Listening(level, isr, got), Hold(!level, slot.stall + 1) + Body(level, bit, 8),
                  Transmit(next, more).1);
  }

  /** What the transmitter still holds of a word after `i` of its bits, 0 meaning none fetched. */
  function Unsent(cur: Word, i: nat): seq<bool>
    requires i < 32
  {
    if i == 0 then [] else cur[i..]
  }

  function Due(got: seq<seq<bool>>, cur: Word, i: nat, words: seq<Word>): seq<seq<bool>> {
    got + (if i == 0 then [] else [cur]) + words
  }

  /** Between bits `i` and `i + 1` of the word `cur` (or, at 0, between words), the rest of the
      run delivers the rest of that word and all later ones. */
  lemma {:induction false} LinkFrom(level: bool, x: nat, cur: Word, i: nat, words: seq<Word>,
                                    got: seq<seq<bool>>, slots: seq<Slot>)
    requires i < 32 && Timed(slots)
    requires |slots| == 32 * |words| + (if i == 0 then 0 else 32 - i)
    ensures Delivered(Transmit(Poised(level, x, Unsent(cur, i), words), Schedule(slots)),
                      Listening(level, cur[..i], got), Due(got, cur, i, words))
    decreases |slots|
  {
    hide Step, Body, Hold, Timed;
    if slots == [] {
      assert got + [] + words == got;
    } else {
      hide Transmit, Receive, Poised, Listening, NextLevel, Delivered;
      var word, rest := CurrentWord(cur, i, words), if i == 0 then words[1..] else words;
      var bit := word[i];
      var i', got' := (i + 1) % 32, if i == 31 then got + [word] else got;
      TimedRest(slots, i);
      BookKeeping(NextLevel(level, bit), cur, i, words, got);
      hide Due, Unsent, Heard;
      LinkBit(level, x, Unsent(cur, i), words, cur[..i], got, slots[0], Schedule(slots[1..]), Due(got, cur, i, words));
      LinkFrom(NextLevel(level, bit), if bit then 1 else 0, word, i', rest, got', slots[1..]);
    }
  }

  function CurrentWord(cur: Word, i: nat, words: seq<Word>): Word
    requires i == 0 ==> words != []
  {
    if i == 0 then words[0] else cur
  }

  lemma BookKeeping(next: bool, cur: Word, i: nat, words: seq<Word>, got: seq<seq<bool>>)
    requires i < 32 && (i == 0 ==> words != [])
    ensures var word, rest := CurrentWord(cur, i, words), if i == 0 then words[1..] else words;
            var i', got' := (i + 1) % 32, if i == 31 then got + [word] else got;
            && Unsent(cur, i) == (if i == 0 then [] else word[i..])
            && word[i..][1..] == Unsent(word, i')
            && Heard(next, cur[..i], got, word[i]) == Listening(next, word[..i'], got')
            && Due(got', word, i', rest) == Due(got, cur, i, words)
  {
    hide Heard, Listening;
    var word := CurrentWord(cur, i, words);
    assert cur[..i] == word[..i];
    HeardOf(next, word, i, got);
  }

  lemma HeardOf(next: bool, word: Word, i: nat, got: seq<seq<bool>>)
    requires i < 32
    ensures Heard(next, word[..i], got, word[i])
         == Listening(next, word[..(i + 1) % 32], if i == 31 then got + [word] else got)
  {
    assert word[..i] + [word[i]] == word[..i + 1];
    assert word[..32] == word;
  }

  lemma TimedRest(slots: seq<Slot>, i: nat)
    requires slots != [] && Timed(slots) && i < 32 && (|slots| + i) % 32 == 0
    ensures |slots[0].ready| == 16
    ensures if i == 0 then slots[0].ready[0] else slots[0].stall == 0
    ensures Timed(slots[1..])
  {
    assert forall j :: 0 <= j < |slots| - 1 ==> slots[1..][j] == slots[j + 1];
  }

  /** From reset, whatever the words and however late each reaches the transmitter, the receiver
      pushes exactly those words in order, and both machines end between bits. */
  lemma LinkDelivers(words: seq<Word>, slots: seq<Slot>)
    requires Timed(slots) && |slots| == 32 * |words|
    ensures var (end, line) := Transmit(Poised(true, 0, [], words), Schedule(slots));
            var r := Receive(Listening(true, [], []), line);
            end.words == [] && end.core.osr == [] && r.words == words && r.core.isr == []
  {
    LinkFrom(true, 0, Hold(false, 32), 0, words, [], slots);
    assert Hold(false, 32)[..0] == [];
    assert [] + [] + words == words;
  }
}
