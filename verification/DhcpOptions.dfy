/** The option list of a DHCP message: written and searched in place
    (pico_w/wifi/access_point/dhcpserver/dhcpserver.c; section 2 of RFC 2132). */
module DhcpOptions {
  import opened Wrappers
  import opened DhcpLease

  const OPTIONS_SIZE := 308    // the options array of a message without its magic cookie

  const SUBNET_MASK := 1
  const ROUTER := 3
  const DNS := 6
  const LEASE_TIME := 51
  const MSG_TYPE := 53
  const SERVER_ID := 54
  const END := 255

  datatype Opt = Opt(code: Byte, data: seq<Byte>)

  /** Neither Pad nor End, and short enough for its length byte. */
  predicate WellFormed(opts: seq<Opt>) {
    forall o <- opts :: o.code != 0 && o.code != END && |o.data| < 256
  }

  function Tagged(o: Opt): (bytes: seq<Byte>)
    ensures |bytes| == 2 + |o.data|
  {
    [o.code, |o.data| % 256] + o.data
  }

  function Encoded(opts: seq<Opt>): seq<Byte> {
    if opts == [] then [] else Tagged(opts[0]) + Encoded(opts[1..])
  }

  /** The list as it stands at the start of a buffer, closed with END. */
  predicate Holds(buffer: seq<Byte>, opts: seq<Opt>) {
    Encoded(opts) + [END] <= buffer
  }

  /** Where the first option with this code starts. */
  function Lookup(opts: seq<Opt>, code: Byte): Option<nat> {
    if opts == [] then None
    else if opts[0].code == code then Some(0)
    else
      match Lookup(opts[1..], code)
      case None => None
      case Some(at) => Some(|Tagged(opts[0])| + at)
  }

  // ----- Writing

  /** The buffer with `bytes` written at `at`. */
  function Overwritten(buffer: seq<Byte>, at: nat, bytes: seq<Byte>): seq<Byte>
    requires at + |bytes| <= |buffer|
  {
    buffer[..at] + bytes + buffer[at + |bytes|..]
  }

  method WriteN(buffer: array<Byte>, at: nat, code: Byte, data: seq<Byte>) returns (next: nat)
    requires at + 2 + |data| <= buffer.Length
    modifies buffer
    ensures next == at + 2 + |data|
    ensures buffer[..] == Overwritten(old(buffer[..]), at, Tagged(Opt(code, data)))
  {
    buffer[at] := code;
    buffer[at + 1] := |data| % 256;
    for i := 0 to |data|
      invariant buffer[at] == code && buffer[at + 1] == |data| % 256
      invariant forall k :: 0 <= k < i ==> buffer[at + 2 + k] == data[k]
      invariant forall k :: 0 <= k < at || at + 2 + i <= k < buffer.Length ==> buffer[k] == old(buffer[k])
    {
      buffer[at + 2 + i] := data[i];
    }
    next := at + 2 + |data|;
  }

  method WriteU8(buffer: array<Byte>, at: nat, code: Byte, value: Byte) returns (next: nat)
    requires at + 3 <= buffer.Length
    modifies buffer
    ensures next == at + 3
    ensures buffer[..] == Overwritten(old(buffer[..]), at, Tagged(Opt(code, [value])))
  {
    buffer[at], buffer[at + 1], buffer[at + 2] := code, 1, value;
    next := at + 3;
  }

  /** A 32-bit value, most significant byte first. */
  function BigEndian(value: nat): seq<Byte> {
    [value / 0x100_0000 % 256, value / 0x1_0000 % 256, value / 0x100 % 256, value % 256]
  }

  method WriteU32(buffer: array<Byte>, at: nat, code: Byte, value: nat) returns (next: nat)
    requires at + 6 <= buffer.Length
    modifies buffer
    ensures next == at + 6
    ensures buffer[..] == Overwritten(old(buffer[..]), at, Tagged(Opt(code, BigEndian(value))))
  {
    buffer[at], buffer[at + 1] := code, 4;
    buffer[at + 2] := value / 0x100_0000 % 256;
    buffer[at + 3] := value / 0x1_0000 % 256;
    buffer[at + 4] := value / 0x100 % 256;
    buffer[at + 5] := value % 256;
    next := at + 6;
  }

  lemma {:induction false} EncodedAppend(opts: seq<Opt>, o: Opt)
    ensures Encoded(opts + [o]) == Encoded(opts) + Tagged(o)
  {
    if opts == [] {
      assert opts + [o] == [o] && [o][1..] == [];
    } else {
      assert (opts + [o])[1..] == opts[1..] + [o];
      EncodedAppend(opts[1..], o);
      assert Tagged(opts[0]) + (Encoded(opts[1..]) + Tagged(o)) == Tagged(opts[0]) + Encoded(opts[1..]) + Tagged(o);
    }
  }

  /** Writing one more option after a list extends the list. */
  lemma WriteExtends(buffer: seq<Byte>, opts: seq<Opt>, o: Opt)
    requires Encoded(opts) <= buffer && |Encoded(opts)| + |Tagged(o)| <= |buffer|
    ensures Encoded(opts + [o]) <= Overwritten(buffer, |Encoded(opts)|, Tagged(o))
    ensures |Encoded(opts + [o])| == |Encoded(opts)| + |Tagged(o)|
  {
    EncodedAppend(opts, o);
  }

  /** The options of an offer or an acknowledgement. */
  function ReplyOptions(kind: Byte, ip: Address, mask: Address): seq<Opt> {
    [Opt(MSG_TYPE, [kind]), Opt(SERVER_ID, ip), Opt(SUBNET_MASK, mask), Opt(ROUTER, ip), Opt(DNS, ip),
     Opt(LEASE_TIME, BigEndian(LEASE_MS / 1000))]
  }

  method Reply(buffer: array<Byte>, kind: Byte, ip: Address, mask: Address) returns (length: nat)
    requires buffer.Length == OPTIONS_SIZE
    modifies buffer
    ensures Holds(buffer[..], ReplyOptions(kind, ip, mask))
    ensures length == |Encoded(ReplyOptions(kind, ip, mask))| + 1
  {
    hide Tagged, Overwritten;
    ghost var opts := ReplyOptions(kind, ip, mask);
    ghost var was := buffer[..];
    assert opts[..0] == [] && Encoded(opts[..0]) == [];
    length := WriteU8(buffer, 0, MSG_TYPE, kind);
    WriteExtends(was, opts[..0], opts[0]); was := buffer[..]; assert opts[..0] + [opts[0]] == opts[..1];
    length := WriteN(buffer, length, SERVER_ID, ip);
    WriteExtends(was, opts[..1], opts[1]); was := buffer[..]; assert opts[..1] + [opts[1]] == opts[..2];
    length := WriteN(buffer, length, SUBNET_MASK, mask);
    WriteExtends(was, opts[..2], opts[2]); was := buffer[..]; assert opts[..2] + [opts[2]] == opts[..3];
    length := WriteN(buffer, length, ROUTER, ip);
    WriteExtends(was, opts[..3], opts[3]); was := buffer[..]; assert opts[..3] + [opts[3]] == opts[..4];
    length := WriteN(buffer, length, DNS, ip);
    WriteExtends(was, opts[..4], opts[4]); was := buffer[..]; assert opts[..4] + [opts[4]] == opts[..5];
    length := WriteU32(buffer, length, LEASE_TIME, LEASE_MS / 1000);
    WriteExtends(was, opts[..5], opts[5]); was := buffer[..]; assert opts[..5] + [opts[5]] == opts;
    buffer[length] := END;
    length := length + 1;
    assert buffer[..length - 1] == was[..length - 1];
  }

  // ----- Searching

  /** `opts` are the options from `i` on. */
  predicate From(buffer: seq<Byte>, i: nat, opts: seq<Opt>) {
    i <= |buffer| && WellFormed(opts) && Holds(buffer[i..], opts)
  }

  lemma AtOption(buffer: seq<Byte>, i: nat, opts: seq<Opt>)
    requires From(buffer, i, opts)
    ensures i < |buffer|
    ensures if opts == [] then buffer[i] == END
            else && i + 1 < |buffer| && buffer[i] == opts[0].code != END && buffer[i + 1] == |opts[0].data|
                 && From(buffer, i + 2 + buffer[i + 1], opts[1..])
  {
    if opts != [] { assert opts[0] in opts; }
    var rest := buffer[i..];
    assert rest[..|Encoded(opts)| + 1] == Encoded(opts) + [END];
    if opts == [] {
      assert rest[0] == END;
    } else {
      var o, tail := Tagged(opts[0]), Encoded(opts[1..]) + [END];
      assert Encoded(opts) + [END] == o + tail;
      assert rest[..|o|] == o && rest[0] == o[0] && rest[1] == o[1];
      assert rest[|o|..][..|tail|] == tail;
      assert buffer[i + |o|..] == rest[|o|..];
    }
  }

  /** opt_find: the first option with the code, where it stands, or nothing. */
  method Find(buffer: array<Byte>, code: Byte, ghost opts: seq<Opt>) returns (found: Option<nat>)
    requires buffer.Length == OPTIONS_SIZE && WellFormed(opts) && Holds(buffer[..], opts)
    ensures found == Lookup(opts, code)
  {
    hide From;
    var i: nat := 0;
    ghost var bytes, rest := buffer[..], opts;
    AtStart(bytes, opts);
    AtOption(bytes, i, rest);
    while i < OPTIONS_SIZE && buffer[i] != END
      invariant From(bytes, i, rest)
      invariant i < OPTIONS_SIZE && (buffer[i] == END <==> rest == [])
      invariant Lookup(opts, code) == match Lookup(rest, code) { case None => None case Some(at) => Some(i + at) }
      decreases |rest|
    {
      AtOption(bytes, i, rest);
      if buffer[i] == code {
        return Some(i);
      }
      i := i + 2 + buffer[i + 1];
      rest := rest[1..];
      AtOption(bytes, i, rest);
    }
    found := None;
  }

  lemma AtStart(buffer: seq<Byte>, opts: seq<Opt>)
    requires WellFormed(opts) && Holds(buffer, opts)
    ensures From(buffer, 0, opts)
  {
    assert buffer[0..] == buffer;
  }

  /** The index of the first option with this code, or the number of options. */
  function First(opts: seq<Opt>, code: Byte): (k: nat)
    ensures k <= |opts| && (forall j :: 0 <= j < k ==> opts[j].code != code) && (k < |opts| ==> opts[k].code == code)
  {
    if opts == [] || opts[0].code == code then 0 else 1 + First(opts[1..], code)
  }

  lemma {:induction false} EncodedSplit(opts: seq<Opt>, k: nat)
    requires k <= |opts|
    ensures Encoded(opts) == Encoded(opts[..k]) + Encoded(opts[k..])
  {
    if k == 0 {
      assert opts[0..] == opts && opts[..0] == [];
    } else {
      var o, rest := opts[0], opts[1..];
      EncodedSplit(rest, k - 1);
      assert opts[..k][1..] == rest[..k - 1] && opts[k..] == rest[k - 1..];
      assert Tagged(o) + (Encoded(rest[..k - 1]) + Encoded(rest[k - 1..]))
          == Tagged(o) + Encoded(rest[..k - 1]) + Encoded(rest[k - 1..]);
    }
  }

  lemma {:induction false} LookupAt(opts: seq<Opt>, code: Byte)
    ensures var k := First(opts, code);
            Lookup(opts, code) == if k == |opts| then None else Some(|Encoded(opts[..k])|)
  {
    if opts != [] && opts[0].code != code {
      LookupAt(opts[1..], code);
      var k := First(opts[1..], code);
      assert opts[..k + 1][1..] == opts[1..][..k];
      assert Encoded(opts[..k + 1]) == Tagged(opts[0]) + Encoded(opts[1..][..k]);
    }
  }

  /** What stands in the buffer where an option is found is the first option with that code, its
      length and its payload; nothing is found exactly when there is none. */
  lemma FoundOption(buffer: seq<Byte>, opts: seq<Opt>, code: Byte)
    requires Holds(buffer, opts)
    ensures var k := First(opts, code);
            match Lookup(opts, code)
            case None => k == |opts|
            case Some(at) =>
              k < |opts| && at + |Tagged(opts[k])| <= |buffer| && buffer[at..at + |Tagged(opts[k])|] == Tagged(opts[k])
  {
    LookupAt(opts, code);
    var k := First(opts, code);
    if k < |opts| {
      EncodedSplit(opts, k);
      var at, o := |Encoded(opts[..k])|, Tagged(opts[k]);
      assert Encoded(opts) == Encoded(opts[..k]) + (o + Encoded(opts[k + 1..])) by {
        assert opts[k..][1..] == opts[k + 1..];
      }
      assert Encoded(opts)[at..at + |o|] == o;
      assert buffer[..|Encoded(opts)|] == Encoded(opts);
      assert buffer[at..at + |o|] == buffer[..|Encoded(opts)|][at..at + |o|];
    }
  }

  // ----- Any list of calls, and back

  /** A call of one of the three writers. */
  datatype Call = N(code: Byte, data: seq<Byte>) | U8(code: Byte, value: Byte) | U32(code: Byte, number: nat)

  function OptOf(call: Call): Opt {
    match call
    case N(code, data) => Opt(code, data)
    case U8(code, value) => Opt(code, [value])
    case U32(code, number) => Opt(code, BigEndian(number))
  }

  function OptsOf(calls: seq<Call>): (opts: seq<Opt>)
    ensures |opts| == |calls| && forall i :: 0 <= i < |calls| ==> opts[i] == OptOf(calls[i])
  {
    seq(|calls|, i requires 0 <= i < |calls| => OptOf(calls[i]))
  }

  method Write(buffer: array<Byte>, at: nat, call: Call) returns (next: nat)
    requires at + |Tagged(OptOf(call))| <= buffer.Length
    modifies buffer
    ensures next == at + |Tagged(OptOf(call))|
    ensures buffer[..] == Overwritten(old(buffer[..]), at, Tagged(OptOf(call)))
  {
    match call
    case N(code, data) => next := WriteN(buffer, at, code, data);
    case U8(code, value) => next := WriteU8(buffer, at, code, value);
    case U32(code, number) => next := WriteU32(buffer, at, code, number);
  }

  /** Any sequence of calls that fits, closed with END, leaves exactly those options in the buffer. */
  method WriteAll(buffer: array<Byte>, calls: seq<Call>) returns (length: nat)
    requires |Encoded(OptsOf(calls))| + 1 <= buffer.Length
    modifies buffer
    ensures Holds(buffer[..], OptsOf(calls)) && length == |Encoded(OptsOf(calls))| + 1
  {
    hide Tagged, Overwritten, Encoded, OptOf;
    ghost var opts := OptsOf(calls);
    length := 0;
    NothingEncoded();
    for i := 0 to |calls|
      invariant length == |Encoded(opts[..i])| && Encoded(opts[..i]) <= buffer[..]
    {
      ghost var before := buffer[..];
      PrefixFits(opts, i);
      length := Write(buffer, length, calls[i]);
      WriteExtends(before, opts[..i], opts[i]);
      assert opts[..i] + [opts[i]] == opts[..i + 1];
    }
    assert opts[..|calls|] == opts;
    ghost var written := buffer[..];
    buffer[length] := END;
    assert buffer[..length] == written[..length];
    length := length + 1;
  }

  lemma NothingEncoded()
    ensures Encoded([]) == []
  {
  }

  lemma PrefixFits(opts: seq<Opt>, i: nat)
    requires i < |opts|
    ensures |Encoded(opts[..i])| + |Tagged(opts[i])| <= |Encoded(opts)|
  {
    EncodedSplit(opts, i);
  }

  /** Written by any calls with proper codes and lengths, then searched: the place found is that of the first
      option with the code, its length and its payload, and nothing is found exactly when there is none. */
  method RoundTrip(buffer: array<Byte>, calls: seq<Call>, code: Byte) returns (found: Option<nat>)
    requires buffer.Length == OPTIONS_SIZE && WellFormed(OptsOf(calls)) && |Encoded(OptsOf(calls))| + 1 <= OPTIONS_SIZE
    modifies buffer
    ensures var opts := OptsOf(calls);
            var k := First(opts, code);
            match found
            case None => k == |calls|
            case Some(at) =>
              && k < |calls| && at + 2 + |opts[k].data| <= OPTIONS_SIZE
              && buffer[at] == code && buffer[at + 1] == |opts[k].data|
              && buffer[at + 2..at + 2 + |opts[k].data|] == opts[k].data
  {
    hide Encoded, Lookup;
    var _ := WriteAll(buffer, calls);
    found := Find(buffer, code, OptsOf(calls));
    FoundOption(buffer[..], OptsOf(calls), code);
    if found.Some? { TaggedAt(buffer[..], OptsOf(calls), First(OptsOf(calls), code), found); }
  }

  lemma TaggedAt(buffer: seq<Byte>, opts: seq<Opt>, k: nat, found: Option<nat>)
    requires WellFormed(opts) && found.Some? && k < |opts|
    requires found.value + |Tagged(opts[k])| <= |buffer|
    requires buffer[found.value..found.value + |Tagged(opts[k])|] == Tagged(opts[k])
    ensures var at, o := found.value, opts[k];
            && at + 2 + |o.data| <= |buffer| && buffer[at] == o.code && buffer[at + 1] == |o.data|
            && buffer[at + 2..at + 2 + |o.data|] == o.data
  {
    var at, o := found.value, opts[k];
    assert o in opts;
    var slice := buffer[at..at + |Tagged(o)|];
    assert slice[0] == o.code && slice[1] == |o.data| && slice[2..] == o.data;
  }

  /** A search for this option finds this payload. */
  predicate Reads(opts: seq<Opt>, code: Byte, data: seq<Byte>) {
    First(opts, code) < |opts| && opts[First(opts, code)].data == data
  }

  /** What a client finds in the reply, by the codes of RFC 2132: the message type, first of all (section 9.6),
      the server as identifier, router and name server (9.7, 3.5, 3.8), the subnet mask (3.3), and a lease time
      of 86,400 seconds (9.2). */
  lemma ReplyReads(kind: Byte, ip: Address, mask: Address)
    ensures var opts := ReplyOptions(kind, ip, mask);
            && WellFormed(opts) && |opts| == 6 && First(opts, 53) == 0 && First(opts, LEASE_TIME) == 5
            && Reads(opts, 53, [kind]) && Reads(opts, 54, ip) && Reads(opts, 1, mask)
            && Reads(opts, 3, ip) && Reads(opts, 6, ip) && Reads(opts, 51, [0, 1, 0x51, 0x80])
    ensures BigEndian(LEASE_MS / 1000) == [0, 1, 0x51, 0x80]
  {
    var opts := ReplyOptions(kind, ip, mask);
    assert opts[0].code == 53 && opts[1].code == 54 && opts[2].code == 1 && opts[3].code == 3 && opts[4].code == 6;
    assert opts[5].code == 51;
    FirstIs(opts, 53, 0);
    FirstIs(opts, 54, 1);
    FirstIs(opts, 1, 2);
    FirstIs(opts, 3, 3);
    FirstIs(opts, 6, 4);
    FirstIs(opts, 51, 5);
  }

  lemma FirstIs(opts: seq<Opt>, code: Byte, k: nat)
    requires k < |opts| && opts[k].code == code && forall j :: 0 <= j < k ==> opts[j].code != code
    ensures First(opts, code) == k
  {
  }
}
