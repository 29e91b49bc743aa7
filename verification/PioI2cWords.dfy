/** The 16-bit FIFO words of the PIO I2C driver, as bits most significant first: data records and
    escape sequences, and what the state machine reads back out of them (pio/i2c/i2c.pio,
    pio/i2c/pio_i2c.c). */
module PioI2cWords {
  import opened Wrappers
  import opened Pio

  function Zeros(n: nat): (z: seq<bool>)
    ensures |z| == n
  {
    if n == 0 then [] else Zeros(n - 1) + [false]
  }

  /** The units the driver queues: the three escape sequences, and a data record. */
  datatype Item = Start | Restart | Stop | Record(data: Octet, final: bool, nak: bool)
  {
    /** The levels of (SCL, SDA), true being released, that an escape's instructions drive in turn. */
    function Levels(): seq<(bool, bool)> {
      match this
      case Start => [(true, false), (false, false)]
      case Restart => [(false, true), (true, true), (true, false), (false, false)]
      case Stop => [(false, false), (true, false), (true, true)]
      case Record(_, _, _) => []
    }

    /** The nine bits a record drives: the data byte and the acknowledge bit. */
    function Driven(): (bits: seq<bool>)
      requires Record?
      ensures |bits| == 9
    {
      data + [nak]
    }

    /** The first FIFO word: 6 bits of instruction count less one, Final, 8 bits of data, NAK. */
    function Header(): (word: seq<bool>)
      ensures |word| == 16
    {
      match this
      case Record(data, final, nak) => Zeros(6) + [final] + data + [nak]
      case Start => [false, false, false, false, false, true] + Zeros(10)
      case Stop => [false, false, false, false, true, false] + Zeros(10)
      case Restart => [false, false, false, false, true, true] + Zeros(10)
    }

    function Words(): seq<seq<bool>> {
      [Header()] + Instructions(Levels())
    }
  }

  /** The set_scl_sda table: `set pindirs, sda side scl [7]` as an instruction word. */
  function SetSclSda(scl: bool, sda: bool): (word: seq<bool>)
    ensures |word| == 16
  {
    [true, true, true, true, scl, true, true, true, true, false, false, false, false, false, false, sda]
  }

  function Instructions(levels: seq<(bool, bool)>): (words: seq<seq<bool>>)
    ensures |words| == |levels|
  {
    if levels == [] then [] else [SetSclSda(levels[0].0, levels[0].1)] + Instructions(levels[1..])
  }

  function AllWords(items: seq<Item>): seq<seq<bool>> {
    if items == [] then [] else items[0].Words() + AllWords(items[1..])
  }

  // ----- The words as the numbers the driver computes

  function Pow2(n: nat): nat {
    if n == 0 then 1 else 2 * Pow2(n - 1)
  }

  lemma Doubled(x: nat, y: nat)
    ensures x * (2 * y) == 2 * (x * y)
  {
  }

  lemma {:induction false} ValueConcat(a: seq<bool>, b: seq<bool>)
    ensures Value(a + b) == Value(a) * Pow2(|b|) + Value(b)
    decreases |b|
  {
    if b == [] {
      assert a + b == a;
    } else {
      var b' := b[..|b| - 1];
      assert (a + b)[..|a + b| - 1] == a + b';
      ValueConcat(a, b');
      Doubled(Value(a), Pow2(|b'|));
    }
  }

  lemma {:induction false} ValueOfZeros(n: nat)
    ensures Value(Zeros(n)) == 0
  {
    if n > 0 {
      assert Zeros(n)[..n - 1] == Zeros(n - 1);
      ValueOfZeros(n - 1);
    }
  }

  /** `(final << 9) | (data << 1) | nak` */
  lemma RecordNumber(item: Item)
    requires item.Record?
    ensures Value(item.Header()) == (if item.final then 512 else 0) + 2 * Value(item.data) + (if item.nak then 1 else 0)
  {
    var front := Zeros(6) + [item.final];
    ValueOfZeros(6);
    assert front[..6] == Zeros(6);
    ValueConcat(front, item.data);
    assert Pow2(8) == 256;
    assert item.Header()[..15] == front + item.data;
  }

  /** An address byte is the 7-bit address and the read bit: `(addr << 2) | (read << 1) | 1`. */
  lemma AddressNumber(addr: seq<bool>, read: bool)
    requires |addr| == 7
    ensures Value(Record(addr + [read], false, true).Header()) == 4 * Value(addr) + (if read then 3 else 1)
  {
    var item := Record(addr + [read], false, true);
    RecordNumber(item);
    assert (addr + [read])[..7] == addr;
  }

  /** `n << 10`, the number of instructions less one. */
  lemma EscapeNumber(item: Item)
    requires !item.Record?
    ensures Value(item.Header()) == 1024 * (|item.Levels()| - 1)
  {
    var bits := item.Header();
    assert bits == bits[..6] + Zeros(10);
    ValueConcat(bits[..6], Zeros(10));
    ValueOfZeros(10);
    assert Pow2(10) == 1024;
    EscapeFields(item);
  }

  // ----- Reading the fields back

  lemma SmallValue(b: seq<bool>)
    requires |b| == 6 && !b[0] && !b[1] && !b[2] && !b[3]
    ensures Value(b) == (if b[4] then 2 else 0) + (if b[5] then 1 else 0)
  {
    ValueOfZeros(4);
    assert b[..4] == Zeros(4);
    assert b[..5][..4] == b[..4];
  }

  /** `out x, 6` finds instruction count 0, `out y, 1` the Final flag, and the nine bits after
      them are the byte and its acknowledge. */
  lemma RecordFields(item: Item)
    requires item.Record?
    ensures var bits := item.Header();
            Value(bits[..6]) == 0 && Value(bits[6..7]) == (if item.final then 1 else 0) && bits[7..] == item.Driven()
  {
    var bits := item.Header();
    assert bits[..6] == Zeros(6);
    ValueOfZeros(6);
    assert bits[6..7] == [item.final] && [item.final][..0] == [];
    assert bits[7..] == item.Driven();
  }

  lemma EscapeFields(item: Item)
    requires !item.Record?
    ensures Value(item.Header()[..6]) == |item.Levels()| - 1
  {
    SmallValue(item.Header()[..6]);
  }

  /** An escape word, executed, drives the two levels it was made for. */
  lemma EscapeExecutes(scl: bool, sda: bool, c: Core)
    ensures Executed(SetSclSda(scl, sda), c) == c.(side := scl, pin := sda, delay := 7)
  {
    var w := SetSclSda(scl, sda);
    assert w[5..8] == [true, true, true];
    assert [true, true, true][..2] == [true, true] && [true, true][..1] == [true] && [true][..0] == [];
    assert Value([true]) == 1;
    assert Value([true, true]) == 3;
  }
}
