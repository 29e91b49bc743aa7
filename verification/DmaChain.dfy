/** Two DMA channels, one reprogramming the other (dma/control_blocks/control_blocks.c, and the fragment
    chain of pio/ws2812/ws2812_parallel.c; RP2040 datasheet section 2.5). */
module DmaChain {
  /** Memory as the channels see it: an address is a number, zero the null pointer. */
  type Ram = nat -> int

  /** What one trigger of the control channel writes to the data channel: transfer count and read address, or
      the read address alone, the count being reloaded. */
  datatype Kind = Blocks | Fragments(count: nat)

  /** The control channel (next entry of the control list to read, transfers left in this trigger, position of
      its ring-wrapped write address), the data channel (count to reload, read address, transfers
      left), what has been sent, and how often the completion flag was raised. */
  datatype Channels = Channels(
    next: nat, loading: nat, ring: nat, count: nat, address: nat, left: nat, sent: seq<int>, flags: nat)

  /** How many words the control channel transfers each time. */
  function Burst(kind: Kind): nat {
    if kind.Blocks? then 2 else 1
  }

  /** As configured, the control channel just started. */
  function Started(kind: Kind): Channels {
    Channels(0, Burst(kind), 0, if kind.Blocks? then 0 else kind.count, 0, 0, [], 0)
  }

  /** A word reaching the data channel's registers. The last one is the trigger: a null one stops the chain
      and raises the flag, any other starts the channel. */
  function Written(c: Channels, kind: Kind, word: nat): Channels {
    if kind.Blocks? && c.ring == 0 then c.(count := word, ring := 1)
    else if word == 0 then c.(ring := 0, flags := c.flags + 1)
    else c.(ring := 0, address := word, left := c.count)
  }

  predicate Halted(c: Channels, list: seq<nat>) {
    c.left == 0 && (c.loading == 0 || c.next >= |list|)
  }

  /** One transfer by whichever channel is active; the data channel's last transfer triggers the control
      channel. */
  function Transfer(c: Channels, kind: Kind, list: seq<nat>, ram: Ram): Channels
    requires !Halted(c, list)
  {
    if c.left > 0 then
      c.(sent := c.sent + [ram(c.address)], address := c.address + 1, left := c.left - 1,
         loading := if c.left == 1 then Burst(kind) else c.loading)
    else
      Written(c.(next := c.next + 1, loading := c.loading - 1), kind, list[c.next])
  }

  function Run(c: Channels, kind: Kind, list: seq<nat>, ram: Ram, n: nat): Channels
    decreases n
  {
    if n == 0 || Halted(c, list) then c else Run(Transfer(c, kind, list, ram), kind, list, ram, n - 1)
  }

  /** The channels as registers that change on each transfer. */
  class Dma {
    const kind: Kind
    var next: nat
    var loading: nat
    var ring: nat
    var count: nat
    var address: nat
    var left: nat
    var sent: seq<int>
    var flags: nat

    ghost function View(): Channels
      reads this
    {
      Channels(next, loading, ring, count, address, left, sent, flags)
    }

    constructor (kind: Kind)
      ensures this.kind == kind && View() == Started(kind)
    {
      this.kind := kind;
      next, loading, ring := 0, Burst(kind), 0;
      count := if kind.Blocks? then 0 else kind.count;
      address, left, sent, flags := 0, 0, [], 0;
    }

    method Step(list: seq<nat>, ram: Ram)
      requires !Halted(View(), list)
      modifies this
      ensures View() == Transfer(old(View()), kind, list, ram)
    {
      if left > 0 {
        sent := sent + [ram(address)];
        address := address + 1;
        if left == 1 { loading := Burst(kind); }
        left := left - 1;
      } else {
        var word := list[next];
        next := next + 1;
        loading := loading - 1;
        if kind.Blocks? && ring == 0 {
          count := word;
          ring := 1;
        } else if word == 0 {
          ring := 0;
          flags := flags + 1;
        } else {
          ring := 0;
          address := word;
          left := count;
        }
      }
    }

    /** Transfers until the chain stops. */
    method Drive(list: seq<nat>, ram: Ram, ghost n: nat)
      requires Halted(Run(View(), kind, list, ram, n), list)
      modifies this
      ensures View() == Run(old(View()), kind, list, ram, n)
    {
      ghost var fuel := n;
      while left != 0 || (loading != 0 && next < |list|)
        invariant Run(View(), kind, list, ram, fuel) == Run(old(View()), kind, list, ram, n)
        decreases fuel
      {
        Step(list, ram);
        fuel := fuel - 1;
      }
    }
  }

  // ----- What the chain sends

  /** A stretch of memory to send. */
  datatype Block = Block(address: nat, len: nat)

  /** Non-empty and not at the null address; fragments all have the fixed length. */
  predicate Sendable(kind: Kind, blocks: seq<Block>) {
    forall b <- blocks :: b.address > 0 && b.len > 0 && (kind.Fragments? ==> b.len == kind.count)
  }

  function Entry(kind: Kind, b: Block): seq<nat> {
    if kind.Blocks? then [b.len, b.address] else [b.address]
  }

  /** The control list: an entry for each block and a null one. */
  function List(kind: Kind, blocks: seq<Block>): seq<nat> {
    if blocks == [] then (if kind.Blocks? then [0, 0] else [0]) else Entry(kind, blocks[0]) + List(kind, blocks[1..])
  }

  function Contents(b: Block, ram: Ram): (bytes: seq<int>)
    ensures |bytes| == b.len && forall i :: 0 <= i < b.len ==> bytes[i] == ram(b.address + i)
  {
    seq(b.len, i requires 0 <= i => ram(b.address + i))
  }

  function Gathered(blocks: seq<Block>, ram: Ram): seq<int> {
    if blocks == [] then [] else Contents(blocks[0], ram) + Gathered(blocks[1..], ram)
  }

  function Transfers(kind: Kind, blocks: seq<Block>): nat {
    if blocks == [] then Burst(kind) else Burst(kind) + blocks[0].len + Transfers(kind, blocks[1..])
  }

  lemma {:induction false} RunSplit(c: Channels, kind: Kind, list: seq<nat>, ram: Ram, a: nat, b: nat)
    ensures Run(c, kind, list, ram, a + b) == Run(Run(c, kind, list, ram, a), kind, list, ram, b)
    decreases a
  {
    if a > 0 && !Halted(c, list) { RunSplit(Transfer(c, kind, list, ram), kind, list, ram, a - 1, b); }
  }

  /** The data channel sends its block and hands over to the control channel. */
  lemma {:induction false} BlockSent(c: Channels, kind: Kind, list: seq<nat>, ram: Ram)
    requires c.left > 0 && c.loading == 0
    ensures Run(c, kind, list, ram, c.left)
         == c.(sent := c.sent + Contents(Block(c.address, c.left), ram), address := c.address + c.left,
               left := 0, loading := Burst(kind))
    decreases c.left
  {
    var next := Transfer(c, kind, list, ram);
    if c.left > 1 {
      BlockSent(next, kind, list, ram);
      assert c.sent + [ram(c.address)] + Contents(Block(next.address, next.left), ram)
          == c.sent + Contents(Block(c.address, c.left), ram);
    } else {
      assert Contents(Block(c.address, 1), ram) == [ram(c.address)];
    }
  }

  /** Between blocks, `i` being where the control channel stands in the list. */
  predicate Ready(c: Channels, kind: Kind, i: nat) {
    c.next == i && c.loading == Burst(kind) && c.ring == 0 && c.left == 0 && (kind.Fragments? ==> c.count == kind.count)
  }

  lemma EntryLoaded(c: Channels, kind: Kind, list: seq<nat>, ram: Ram, b: Block)
    requires Ready(c, kind, c.next) && c.next + Burst(kind) <= |list|
    requires list[c.next..c.next + Burst(kind)] == Entry(kind, b) && b.address > 0
    requires kind.Fragments? ==> b.len == kind.count
    ensures Run(c, kind, list, ram, Burst(kind))
         == c.(next := c.next + Burst(kind), loading := 0, count := b.len, address := b.address, left := b.len)
  {
    assert list[c.next] == list[c.next..c.next + Burst(kind)][0];
    if kind.Blocks? {
      assert list[c.next + 1] == list[c.next..c.next + Burst(kind)][1];
      var half := Transfer(c, kind, list, ram);
      assert Run(c, kind, list, ram, 2) == Run(half, kind, list, ram, 1);
      assert Run(half, kind, list, ram, 1) == Transfer(half, kind, list, ram);
    } else {
      assert Run(c, kind, list, ram, 1) == Transfer(c, kind, list, ram);
    }
  }

  lemma NullLoaded(c: Channels, kind: Kind, list: seq<nat>, ram: Ram)
    requires Ready(c, kind, c.next) && c.next + Burst(kind) <= |list|
    requires list[c.next..c.next + Burst(kind)] == List(kind, [])
    ensures var end := Run(c, kind, list, ram, Burst(kind));
            Halted(end, list) && end.sent == c.sent && end.flags == c.flags + 1
  {
    assert list[c.next] == list[c.next..c.next + Burst(kind)][0];
    if kind.Blocks? {
      assert list[c.next + 1] == list[c.next..c.next + Burst(kind)][1];
      var half := Transfer(c, kind, list, ram);
      assert Run(c, kind, list, ram, 2) == Run(half, kind, list, ram, 1);
      assert Run(half, kind, list, ram, 1) == Transfer(half, kind, list, ram);
    } else {
      assert Run(c, kind, list, ram, 1) == Transfer(c, kind, list, ram);
    }
  }

  lemma ListLength(kind: Kind, blocks: seq<Block>)
    ensures |List(kind, blocks)| >= Burst(kind)
  {
  }

  /** A point in the list where these blocks stand. */
  predicate Before(c: Channels, kind: Kind, list: seq<nat>, blocks: seq<Block>) {
    Sendable(kind, blocks) && Ready(c, kind, c.next) && c.next <= |list| && list[c.next..] == List(kind, blocks)
  }

  /** The first of them is loaded and sent. */
  lemma FirstSent(c: Channels, kind: Kind, list: seq<nat>, ram: Ram, blocks: seq<Block>)
    requires Before(c, kind, list, blocks) && blocks != []
    ensures var sent := Run(c, kind, list, ram, Burst(kind) + blocks[0].len);
            && Before(sent, kind, list, blocks[1..]) && sent.flags == c.flags
            && sent.sent == c.sent + Contents(blocks[0], ram)
  {
    var i, burst, b := c.next, Burst(kind), blocks[0];
    ListLength(kind, blocks[1..]);
    assert b in blocks && list[i..i + burst] == list[i..][..burst] == Entry(kind, b);
    EntryLoaded(c, kind, list, ram, b);
    var loaded := Run(c, kind, list, ram, burst);
    BlockSent(loaded, kind, list, ram);
    assert list[i + burst..] == list[i..][burst..] == List(kind, blocks[1..]);
    RunSplit(c, kind, list, ram, burst, b.len);
  }

  lemma NoneLeft(c: Channels, kind: Kind, list: seq<nat>, ram: Ram)
    requires Before(c, kind, list, [])
    ensures var end := Run(c, kind, list, ram, Burst(kind));
            Halted(end, list) && end.sent == c.sent && end.flags == c.flags + 1
    ensures Run(c, kind, list, ram, Burst(kind) - 1).flags == c.flags
  {
    assert list[c.next..c.next + Burst(kind)] == List(kind, []);
    NullLoaded(c, kind, list, ram);
    if kind.Blocks? {
      assert Run(c, kind, list, ram, 1) == Run(Transfer(c, kind, list, ram), kind, list, ram, 0);
    }
  }

  /** All of them are sent, and the flag is raised by the very last transfer. */
  lemma {:induction false} ChainFrom(c: Channels, kind: Kind, list: seq<nat>, ram: Ram, blocks: seq<Block>)
    requires Before(c, kind, list, blocks)
    ensures var end := Run(c, kind, list, ram, Transfers(kind, blocks));
            Halted(end, list) && end.sent == c.sent + Gathered(blocks, ram) && end.flags == c.flags + 1
    ensures Run(c, kind, list, ram, Transfers(kind, blocks) - 1).flags == c.flags
    decreases |blocks|
  {
    hide Run, List, Contents, Before;
    if blocks == [] {
      NoneLeft(c, kind, list, ram);
      assert c.sent + Gathered([], ram) == c.sent;
    } else {
      var n, rest := Burst(kind) + blocks[0].len, blocks[1..];
      FirstSent(c, kind, list, ram, blocks);
      ChainFrom(Run(c, kind, list, ram, n), kind, list, ram, rest);
      RunSplit(c, kind, list, ram, n, Transfers(kind, rest));
      RunSplit(c, kind, list, ram, n, Transfers(kind, rest) - 1);
      GatheredNext(c.sent, blocks, ram);
    }
  }

  lemma GatheredNext(before: seq<int>, blocks: seq<Block>, ram: Ram)
    requires blocks != []
    ensures before + Contents(blocks[0], ram) + Gathered(blocks[1..], ram) == before + Gathered(blocks, ram)
  {
  }

  /** The chain sends the blocks one after another, whole and in order, stops, and has then raised its flag
      exactly once. */
  lemma ChainSends(kind: Kind, ram: Ram, blocks: seq<Block>)
    requires Sendable(kind, blocks)
    ensures var end := Run(Started(kind), kind, List(kind, blocks), ram, Transfers(kind, blocks));
            Halted(end, List(kind, blocks)) && end.sent == Gathered(blocks, ram) && end.flags == 1
    ensures Run(Started(kind), kind, List(kind, blocks), ram, Transfers(kind, blocks) - 1).flags == 0
  {
    assert List(kind, blocks)[0..] == List(kind, blocks);
    ChainFrom(Started(kind), kind, List(kind, blocks), ram, blocks);
    assert [] + Gathered(blocks, ram) == Gathered(blocks, ram);
  }

  lemma {:induction false} FlagsGrow(c: Channels, kind: Kind, list: seq<nat>, ram: Ram, n: nat)
    ensures var end := Run(c, kind, list, ram, n); end.flags >= c.flags && c.sent <= end.sent
    decreases n
  {
    if n > 0 && !Halted(c, list) { FlagsGrow(Transfer(c, kind, list, ram), kind, list, ram, n - 1); }
  }

  /** At every moment before, what has been sent is a first part of the blocks, and the flag is raised by the very
      last transfer and no other. */
  lemma ChainAlways(kind: Kind, ram: Ram, blocks: seq<Block>, n: nat)
    requires Sendable(kind, blocks) && n <= Transfers(kind, blocks)
    ensures var now := Run(Started(kind), kind, List(kind, blocks), ram, n);
            now.sent <= Gathered(blocks, ram) && now.flags == if n == Transfers(kind, blocks) then 1 else 0
  {
    hide Run, List, Before, Gathered;
    ChainSends(kind, ram, blocks);
    var list, all := List(kind, blocks), Transfers(kind, blocks);
    Later(kind, list, ram, n, all);
    if n < all { Later(kind, list, ram, n, all - 1); }
  }

  lemma Later(kind: Kind, list: seq<nat>, ram: Ram, n: nat, m: nat)
    requires n <= m
    ensures var now, later := Run(Started(kind), kind, list, ram, n), Run(Started(kind), kind, list, ram, m);
            now.sent <= later.sent && now.flags <= later.flags
  {
    RunSplit(Started(kind), kind, list, ram, n, m - n);
    FlagsGrow(Run(Started(kind), kind, list, ram, n), kind, list, ram, m - n);
  }

  // ----- The parallel LED strips

  /** Where structure `k` of an array of 12-word structures begins. */
  function FragmentAt(base: nat, k: nat): nat {
    base + 12 * k
  }

  /** fragment_start: the first eight words of every structure. */
  function FragmentBlocks(base: nat, length: nat): (blocks: seq<Block>)
    ensures |blocks| == length && forall k :: 0 <= k < length ==> blocks[k] == Block(FragmentAt(base, k), 8)
  {
    seq(length, k requires 0 <= k => Block(FragmentAt(base, k), 8))
  }

  /** Each value's eight whole-number planes, most significant first, and none of the fraction. */
  lemma {:induction false} FragmentsSent(base: nat, ram: Ram, length: nat, from: nat)
    requires from <= length
    ensures var sent := Gathered(FragmentBlocks(base, length)[from..], ram);
            && |sent| == 8 * (length - from)
            && forall i :: 0 <= i < |sent| ==> sent[i] == ram(FragmentAt(base, from + i / 8) + i % 8)
    decreases length - from
  {
    var blocks := FragmentBlocks(base, length);
    if from < length {
      FragmentsSent(base, ram, length, from + 1);
      assert blocks[from..][1..] == blocks[from + 1..];
      var first, rest := Contents(blocks[from], ram), Gathered(blocks[from + 1..], ram);
      forall i | 0 <= i < 8 * (length - from)
        ensures (first + rest)[i] == ram(FragmentAt(base, from + i / 8) + i % 8)
      {
        if i >= 8 { assert (first + rest)[i] == rest[i - 8]; }
      }
    }
  }

  lemma StripsSent(base: nat, ram: Ram, length: nat)
    requires base > 0
    ensures var blocks := FragmentBlocks(base, length);
            var end := Run(Started(Fragments(8)), Fragments(8), List(Fragments(8), blocks), ram,
                           Transfers(Fragments(8), blocks));
            && end.flags == 1 && |end.sent| == 8 * length
            && forall i :: 0 <= i < 8 * length ==> end.sent[i] == ram(FragmentAt(base, i / 8) + i % 8)
  {
    var blocks := FragmentBlocks(base, length);
    forall b | b in blocks ensures b.address > 0 && b.len == 8 {}
    ChainSends(Fragments(8), ram, blocks);
    FragmentsSent(base, ram, length, 0);
    assert blocks[0..] == blocks;
  }
}
