/** Packing samples into words and reading them back (pio/logic_analyser/logic_analyser.c). A word is its
    32 bits, least significant first. */
module LogicAnalyser {
  import opened Wrappers

  const WIDTH := 32    // the shift register

  /** The samples of one clock, one bit for each pin. */
  predicate Samples(samples: seq<seq<bool>>, pins: nat) {
    forall s <- samples :: |s| == pins
  }

  /** bits_packed_per_word: the autopush threshold. */
  function BitsPacked(pins: nat): nat
    requires 1 <= pins <= WIDTH
  {
    WIDTH - WIDTH % pins
  }

  /** Whole samples in each word. */
  function PerWord(pins: nat): (k: nat)
    requires 1 <= pins <= WIDTH
    ensures k >= 1 && k * pins == BitsPacked(pins) <= WIDTH
  {
    assert WIDTH == WIDTH / pins * pins + WIDTH % pins;
    WIDTH / pins
  }

  /** Where the bit of one pin in one sample is looked for: word, and bit of the word. */
  function WordIndex(pins: nat, pin: nat, sample: nat): nat
    requires 1 <= pins <= WIDTH
  {
    (pin + sample * pins) / BitsPacked(pins)
  }

  function BitIndex(pins: nat, pin: nat, sample: nat): (b: nat)
    requires 1 <= pins <= WIDTH
    ensures b < WIDTH
  {
    (pin + sample * pins) % BitsPacked(pins) + WIDTH - BitsPacked(pins)
  }

  lemma Divided(a: nat, b: nat, q: nat, r: nat)
    requires a == q * b + r && r < b
    ensures a / b == q && a % b == r
  {
    var q', r' := a / b, a % b;
    assert a == q' * b + r';
    if q < q' { Grows(b, q, q'); } else if q' < q { Grows(b, q', q); }
  }

  lemma Grows(b: nat, low: nat, high: nat)
    requires low < high
    ensures high * b >= low * b + b
  {
    Times(b, high - low);
    assert high * b == low * b + (high - low) * b;
  }

  lemma Rounds(k: nat, low: nat, high: nat)
    requires low <= high
    ensures low * k <= high * k
  {
    if low < high { Grows(k, low, high); }
  }

  lemma Times(b: nat, k: nat)
    requires k >= 1
    ensures k * b >= b
  {
    assert (k - 1) * b >= 0;
  }

  lemma InRow(pins: nat, k: nat, r: nat, pin: nat)
    requires r < k && pin < pins
    ensures r * pins + pin < k * pins
  {
    Grows(pins, r, k);
  }

  /** Sample `q * k + r` is the `r`-th of word `q`, left-justified. */
  lemma Placed(pins: nat, q: nat, r: nat, pin: nat)
    requires 1 <= pins <= WIDTH && pin < pins && r < PerWord(pins)
    ensures var k := PerWord(pins);
            && WordIndex(pins, pin, q * k + r) == q
            && BitIndex(pins, pin, q * k + r) == WIDTH - k * pins + r * pins + pin
  {
    var k := PerWord(pins);
    InRow(pins, k, r, pin);
    assert pin + (q * k + r) * pins == q * (k * pins) + (r * pins + pin);
    Divided(pin + (q * k + r) * pins, k * pins, q, r * pins + pin);
  }

  // ----- Capturing

  /** Where sample `j` of the last `r` stands in the shift register. */
  function Top(pins: nat, r: nat, j: nat, pin: nat): (b: nat)
    requires 1 <= pins <= WIDTH && r <= PerWord(pins) && j < r && pin < pins
    ensures b < WIDTH
  {
    InRow(pins, r, j, pin);
    Fits(pins, r);
    WIDTH - r * pins + j * pins + pin
  }

  lemma Fits(pins: nat, r: nat)
    requires 1 <= pins <= WIDTH && r <= PerWord(pins)
    ensures r * pins <= WIDTH
  {
    if r < PerWord(pins) { Grows(pins, r, PerWord(pins)); }
  }

  /** The `r` samples from `first` on stand at the top of the shift register, in order. */
  predicate Shifted(isr: Word, samples: seq<seq<bool>>, pins: nat, first: nat, r: nat)
    requires 1 <= pins <= WIDTH && r <= PerWord(pins) && Samples(samples, pins)
  {
    && first + r <= |samples|
    && forall j, pin :: 0 <= j < r && 0 <= pin < pins ==>
         isr[Top(pins, r, j, pin)] == Bit(samples, pins, first + j, pin)
  }

  function Bit(samples: seq<seq<bool>>, pins: nat, s: nat, pin: nat): bool
    requires Samples(samples, pins) && s < |samples| && pin < pins
  {
    assert samples[s] in samples;
    samples[s][pin]
  }

  lemma ShiftIn(isr: Word, samples: seq<seq<bool>>, pins: nat, first: nat, r: nat)
    requires 1 <= pins <= WIDTH && Samples(samples, pins) && r < PerWord(pins) && first + r < |samples|
    requires Shifted(isr, samples, pins, first, r)
    ensures |samples[first + r]| == pins
    ensures Shifted(isr[pins..] + samples[first + r], samples, pins, first, r + 1)
  {
    assert samples[first + r] in samples;
    var next: Word, n := isr[pins..] + samples[first + r], r + 1;
    assert n * pins == r * pins + pins;
    forall j, pin | 0 <= j < n && 0 <= pin < pins
      ensures next[Top(pins, n, j, pin)] == Bit(samples, pins, first + j, pin)
    {
      if j < r {
        assert Top(pins, n, j, pin) + pins == Top(pins, r, j, pin);
        assert next[Top(pins, n, j, pin)] == isr[Top(pins, r, j, pin)];
      } else {
        assert Top(pins, n, j, pin) == WIDTH - pins + pin;
      }
    }
  }

  /** Word `q` holds whole samples, the first being number `q` times the samples in a word. */
  predicate Recorded(words: seq<Word>, samples: seq<seq<bool>>, pins: nat)
    requires 1 <= pins <= WIDTH && Samples(samples, pins)
  {
    forall q :: 0 <= q < |words| ==> Shifted(words[q], samples, pins, q * PerWord(pins), PerWord(pins))
  }

  /** The state machine: one `in pins` a clock, shifting right, pushing at the threshold. */
  method Capture(samples: seq<seq<bool>>, pins: nat) returns (words: seq<Word>)
    requires 1 <= pins <= WIDTH && Samples(samples, pins)
    ensures Recorded(words, samples, pins)
    ensures |words| * PerWord(pins) <= |samples| < (|words| + 1) * PerWord(pins)
  {
    var isr: Word := seq(WIDTH, _ => false);
    var count := 0;
    words := [];
    ghost var k, r := PerWord(pins), 0;
    for i := 0 to |samples|
      invariant i == |words| * k + r && r < k && count == r * pins
      invariant Shifted(isr, samples, pins, |words| * k, r) && Recorded(words, samples, pins)
    {
      ShiftIn(isr, samples, pins, |words| * k, r);
      isr := isr[pins..] + samples[i];
      count := count + pins;
      r := r + 1;
      AtThreshold(pins, r);
      if count >= BitsPacked(pins) {
        words := words + [isr];
        isr := seq(WIDTH, _ => false);
        count := 0;
        r := 0;
        assert |words| * k == (|words| - 1) * k + k;
      }
    }
    assert (|words| + 1) * k == |words| * k + k;
  }

  lemma AtThreshold(pins: nat, r: nat)
    requires 1 <= pins <= WIDTH && 0 < r <= PerWord(pins)
    ensures r * pins >= BitsPacked(pins) <==> r == PerWord(pins)
    ensures r * pins == (r - 1) * pins + pins
  {
    if r < PerWord(pins) { Grows(pins, r, PerWord(pins)); }
  }

  // ----- Reading back

  /** The buffer size main computes. */
  function BufferWords(pins: nat, samples: nat): nat
    requires 1 <= pins <= WIDTH
  {
    (samples * pins + BitsPacked(pins) - 1) / BitsPacked(pins)
  }

  lemma RoundedUp(x: nat, b: nat)
    requires b > 0
    ensures var size := (x + b - 1) / b; x <= size * b < x + b
  {
    var size := (x + b - 1) / b;
    assert x + b - 1 == size * b + (x + b - 1) % b;
  }

  lemma Cancelled(a: nat, b: nat, k: nat)
    requires a * k < b * k
    ensures a < b
  {
    if b <= a { Rounds(k, b, a); }
  }

  /** As many whole samples go into a word as fit. */
  lemma PackedFull(pins: nat)
    requires 1 <= pins <= 32
    ensures PerWord(pins) * pins <= 32 < (PerWord(pins) + 1) * pins
  {
    var k := PerWord(pins);
    assert (k + 1) * pins == k * pins + pins;
  }

  lemma Associated(a: nat, b: nat, c: nat)
    ensures a * (b * c) == (a * b) * c
  {
  }

  lemma Distributed(a: nat, b: nat, c: nat)
    ensures (a + b) * c == a * c + b * c
  {
  }

  lemma Unscaled(size: nat, k: nat, pins: nat, count: nat)
    requires pins > 0 && count * pins <= size * (k * pins) < count * pins + k * pins
    ensures count <= size * k < count + k
  {
    Associated(size, k, pins);
    Distributed(count, k, pins);
    Cancelled(size * k, count + k, pins);
    Distributed(size * k, 1, pins);
    Cancelled(count, size * k + 1, pins);
  }

  lemma BufferBits(pins: nat, count: nat)
    requires 1 <= pins <= 32
    ensures count * pins <= BufferWords(pins, count) * BitsPacked(pins) < count * pins + BitsPacked(pins)
  {
    RoundedUp(count * pins, BitsPacked(pins));
  }

  /** The buffer has exactly the words it takes. */
  lemma BufferExact(pins: nat, count: nat)
    requires 1 <= pins <= 32
    ensures var size := BufferWords(pins, count);
            count <= size * PerWord(pins) < count + PerWord(pins)
  {
    BufferBits(pins, count);
    hide PerWord, BitsPacked, BufferWords;
    Unscaled(BufferWords(pins, count), PerWord(pins), pins, count);
  }

  lemma Split(pins: nat, sample: nat)
    requires 1 <= pins <= WIDTH
    ensures var k := PerWord(pins); sample == sample / k * k + sample % k && sample % k < k
  {
  }

  /** Every word looked at lies in the buffer. */
  lemma WordInBuffer(pins: nat, count: nat, pin: nat, sample: nat)
    requires 1 <= pins <= WIDTH && pin < pins && sample < count
    ensures WordIndex(pins, pin, sample) < BufferWords(pins, count)
  {
    var b := BitsPacked(pins);
    InRow(pins, count, sample, pin);
    var bit, end := pin + sample * pins, count * pins + b - 1;
    var q, size := bit / b, end / b;
    assert bit == b * q + bit % b && end == b * size + end % b;
    if size < q { Grows(b, size, q); }
  }

  lemma FoundAt(words: seq<Word>, samples: seq<seq<bool>>, pins: nat, q: nat, r: nat, pin: nat)
    requires 1 <= pins <= WIDTH && Samples(samples, pins) && Recorded(words, samples, pins) && pin < pins
    requires r < PerWord(pins) && WordIndex(pins, pin, q * PerWord(pins) + r) < |words|
    ensures var s := q * PerWord(pins) + r;
            s < |samples| && words[WordIndex(pins, pin, s)][BitIndex(pins, pin, s)] == Bit(samples, pins, s, pin)
  {
    hide WordIndex, BitIndex, PerWord;
    var k := PerWord(pins);
    Placed(pins, q, r, pin);
    assert Shifted(words[q], samples, pins, q * k, k);
    assert words[q][Top(pins, k, r, pin)] == Bit(samples, pins, q * k + r, pin);
  }

  /** The bit looked at for a pin and a sample is that bit of that sample. */
  lemma FoundBit(words: seq<Word>, samples: seq<seq<bool>>, pins: nat, s: nat, pin: nat)
    requires 1 <= pins <= WIDTH && Samples(samples, pins) && Recorded(words, samples, pins) && pin < pins
    requires WordIndex(pins, pin, s) < |words|
    ensures s < |samples| && words[WordIndex(pins, pin, s)][BitIndex(pins, pin, s)] == Bit(samples, pins, s, pin)
  {
    hide WordIndex, BitIndex, Shifted, Recorded, PerWord;
    Split(pins, s);
    FoundAt(words, samples, pins, s / PerWord(pins), s % PerWord(pins), pin);
  }

  /** What print_capture_buf shows, a row for each pin, is what was sampled: for every pin count, every number
      of samples, and any capture long enough to fill the buffer. */
  method PrintCapture(buffer: seq<Word>, pins: nat, count: nat, ghost samples: seq<seq<bool>>)
    returns (text: seq<seq<bool>>)
    requires 1 <= pins <= WIDTH && Samples(samples, pins) && Recorded(buffer, samples, pins)
    requires |buffer| == BufferWords(pins, count)
    ensures |text| == pins && forall pin :: 0 <= pin < pins ==> |text[pin]| == count
    ensures count <= |samples|
    ensures forall pin, s :: 0 <= pin < pins && 0 <= s < count ==> text[pin][s] == Bit(samples, pins, s, pin)
  {
    text := [];
    for pin := 0 to pins
      invariant |text| == pin && forall p :: 0 <= p < pin ==> |text[p]| == count
      invariant pin > 0 ==> count <= |samples|
      invariant forall p, s :: 0 <= p < pin && 0 <= s < count ==> text[p][s] == Bit(samples, pins, s, p)
    {
      var row: seq<bool> := [];
      for s := 0 to count
        invariant |row| == s && s <= |samples|
        invariant forall t :: 0 <= t < s ==> row[t] == Bit(samples, pins, t, pin)
      {
        WordInBuffer(pins, count, pin, s);
        FoundBit(buffer, samples, pins, s, pin);
        var bitIndex := pin + s * pins;
        var wordIndex := bitIndex / BitsPacked(pins);
        var position := bitIndex % BitsPacked(pins) + WIDTH - BitsPacked(pins);
        row := row + [buffer[wordIndex][position]];
      }
      text := text + [row];
    }
  }

  /** From the pins to the screen: a capture long enough for the buffer main allocates is displayed as it
      was sampled. */
  method CaptureAndPrint(samples: seq<seq<bool>>, pins: nat, count: nat) returns (text: seq<seq<bool>>)
    requires 1 <= pins <= WIDTH && Samples(samples, pins)
    requires BufferWords(pins, count) * PerWord(pins) <= |samples|
    ensures count <= |samples| && |text| == pins && forall pin :: 0 <= pin < pins ==> |text[pin]| == count
    ensures forall pin, s :: 0 <= pin < pins && 0 <= s < count ==> text[pin][s] == Bit(samples, pins, s, pin)
  {
    var words := Capture(samples, pins);
    var size := BufferWords(pins, count);
    if |words| < size { Rounds(PerWord(pins), |words| + 1, size); }
    text := PrintCapture(words[..size], pins, count, samples);
  }
}
