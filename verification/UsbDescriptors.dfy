/** The descriptors of the USB device, byte by byte, and what is sent of them
    (usb/device/dev_lowlevel/dev_lowlevel.h; chapter 9 of the USB 2.0 specification). */
module UsbDescriptors {
  import opened Wrappers

  type Packet = p: seq<Byte> | |p| <= 64

  // dev_config.endpoints
  const EP0_OUT := 0
  const EP0_IN := 1
  const EP1_OUT := 2
  const EP2_IN := 3
  const ENDPOINTS := 4

  const DIR_OUT := 0x00
  const DIR_IN := 0x80
  const GET_DESCRIPTOR := 6
  const SET_ADDRESS := 5
  const SET_CONFIGURATION := 9
  const DT_DEVICE := 1
  const DT_CONFIG := 2
  const DT_STRING := 3
  const DT_INTERFACE := 4
  const DT_ENDPOINT := 5

  datatype Setup = Setup(requestType: Byte, request: Byte, value: nat, length: nat)

  // ----- The bytes

  function LowHigh(v: nat): (bytes: seq<Byte>)
    ensures |bytes| == 2
  {
    [v % 256, v / 256 % 256]
  }

  /** USB 1.1, class in the interface, packets of 64 bytes, vendor 0 and product 1, strings 1 and 2, one
      configuration. */
  function DeviceBytes(): (bytes: Packet)
    ensures |bytes| == 18
  {
    [18, DT_DEVICE] + LowHigh(0x0110) + [0, 0, 0, 64] + LowHigh(0) + LowHigh(1) + LowHigh(0) + [1, 2, 0, 1]
  }

  /** Vendor specific, two endpoints. */
  function InterfaceBytes(): (bytes: Packet)
    ensures |bytes| == 9
  {
    [9, DT_INTERFACE, 0, 0, 2, 0xff, 0, 0, 0]
  }

  function EndpointBytes(ep: nat): (bytes: Packet)
    requires ep < ENDPOINTS
    ensures |bytes| == 7
  {
    var address := match ep case 0 => DIR_OUT case 1 => DIR_IN case 2 => DIR_OUT + 1 case _ => DIR_IN + 2;
    [7, DT_ENDPOINT, address, if ep == EP0_OUT || ep == EP0_IN then 0 else 2] + LowHigh(64) + [0]
  }

  function TotalLength(): nat {
    9 + 9 + 7 + 7
  }

  /** One interface, configuration 1, self powered. */
  function ConfigBytes(): (bytes: Packet)
    ensures |bytes| == 9
  {
    [9, DT_CONFIG] + LowHigh(TotalLength()) + [1, 1, 0, 0xc0, 0x32]
  }

  /** The configuration alone, or with all that belongs to it if the host takes as much. */
  function Configuration(length: nat): Packet {
    if length >= TotalLength() then ConfigBytes() + InterfaceBytes() + EndpointBytes(EP1_OUT) + EndpointBytes(EP2_IN)
    else ConfigBytes()
  }

  function LanguageBytes(): (bytes: Packet)
    ensures |bytes| == 4
  {
    [4, DT_STRING] + LowHigh(0x0409)
  }

  function Ascii(s: string): (bytes: seq<Byte>)
    requires forall i :: 0 <= i < |s| ==> 0 < s[i] as int < 128
    ensures |bytes| == |s| && 0 !in bytes && forall i :: 0 <= i < |s| ==> bytes[i] == s[i] as int
  {
    seq(|s|, i requires 0 <= i < |s| => s[i] as int)
  }

  /** descriptor_strings */
  function Text(i: nat): (text: seq<Byte>)
    ensures |text| == (if i == 0 then 12 else 16) && 0 !in text
  {
    if i == 0 then Ascii("Raspberry Pi") else Ascii("Pico Test Device")
  }

  /** A string in two bytes a character. */
  function Wide(text: seq<Byte>): seq<Byte> {
    if text == [] then [] else Wide(text[..|text| - 1]) + [text[|text| - 1], 0]
  }

  function StringBytes(text: seq<Byte>): seq<Byte>
    requires |text| <= 30
  {
    [2 + 2 * |text|, DT_STRING] + Wide(text)
  }

  /** There are two strings. */
  predicate KnownString(p: Setup) {
    p.requestType == DIR_IN && p.request == GET_DESCRIPTOR && p.value / 256 == DT_STRING ==> p.value % 256 <= 2
  }

  lemma {:induction false} WideLength(text: seq<Byte>)
    ensures |Wide(text)| == 2 * |text|
  {
    if text != [] { WideLength(text[..|text| - 1]); }
  }

  /** The descriptor asked for, if there is such a kind. */
  function Described(p: Setup): Option<Packet> {
    var kind := p.value / 256;
    if kind == DT_DEVICE then Some(DeviceBytes())
    else if kind == DT_CONFIG then Some(Configuration(p.length))
    else if kind == DT_STRING then
      if p.value % 256 == 0 then Some(LanguageBytes())
      else
        var text := Text(p.value % 256 - 1);
        WideLength(text);
        Some(StringBytes(text))
    else None
  }

  /** As much of it as the host takes. */
  function Answer(p: Setup): Option<Packet> {
    match Described(p)
    case None => None
    case Some(bytes) => Some(bytes[..Min(|bytes|, p.length)])
  }

  // ----- Put together in the EP0 buffer

  /** usb_prepare_string_descriptor: the terminating zero is written as well, but not counted. */
  method PrepareString(buffer: array<Byte>, text: seq<Byte>) returns (length: nat)
    requires buffer.Length == 64 && |text| <= 30 && 0 !in text
    modifies buffer
    ensures length == 2 + 2 * |text| && buffer[..length] == StringBytes(text)
  {
    length := 2 + 2 * |text|;
    buffer[0] := length;
    buffer[1] := DT_STRING;
    var at, i, more := 2, 0, true;
    ghost var head := [length, DT_STRING];
    assert buffer[..2] == head + Wide(text[..0]);
    while more
      invariant i <= |text| + 1 && at == 2 + 2 * i && (more <==> i <= |text|)
      invariant i <= |text| ==> buffer[..at] == head + Wide(text[..i])
      invariant !more ==> buffer[..length] == head + Wide(text)
      decreases |text| + 1 - i
    {
      ghost var before := buffer[..at];
      var c := if i < |text| then text[i] else 0;
      buffer[at] := c;
      buffer[at + 1] := 0;
      assert buffer[..at] == before && buffer[..at + 2] == before + [c, 0];
      if i < |text| {
        assert text[..i + 1][..i] == text[..i];
        assert head + Wide(text[..i]) + [c, 0] == head + Wide(text[..i + 1]);
      } else {
        assert text[..i] == text;
      }
      at, i, more := at + 2, i + 1, c != 0;
    }
  }

  method Put(buffer: array<Byte>, at: nat, bytes: seq<Byte>) returns (next: nat)
    requires at + |bytes| <= buffer.Length
    modifies buffer
    ensures next == at + |bytes| && buffer[..next] == old(buffer[..at]) + bytes
  {
    forall k | 0 <= k < |bytes| { buffer[at + k] := bytes[k]; }
    next := at + |bytes|;
  }

  /** The body of usb_handle_config_descriptor. */
  method PrepareConfiguration(buffer: array<Byte>, wanted: nat) returns (length: nat)
    requires buffer.Length == 64
    modifies buffer
    ensures length == |Configuration(wanted)| && buffer[..length] == Configuration(wanted)
  {
    hide ConfigBytes, InterfaceBytes, EndpointBytes;
    length := Put(buffer, 0, ConfigBytes());
    if wanted >= TotalLength() {
      length := Put(buffer, length, InterfaceBytes());
      ghost var front := ConfigBytes() + InterfaceBytes();
      for i := 2 to ENDPOINTS
        invariant length == 18 + 7 * (i - 2)
        invariant i == 2 ==> buffer[..length] == front
        invariant i == 3 ==> buffer[..length] == front + EndpointBytes(2)
        invariant i == 4 ==> buffer[..length] == front + EndpointBytes(2) + EndpointBytes(3)
      {
        length := Put(buffer, length, EndpointBytes(i));
      }
    }
  }

  // ----- What the host reads

  /** A list of descriptors, each beginning with its length. */
  predicate Linked(bytes: seq<Byte>)
    decreases |bytes|
  {
    bytes == [] || (2 <= bytes[0] <= |bytes| && Linked(bytes[bytes[0]..]))
  }

  /** How many descriptors of a kind there are in the list. */
  function Count(bytes: seq<Byte>, kind: Byte): nat
    decreases |bytes|
  {
    if bytes == [] || !(2 <= bytes[0] <= |bytes|) then 0
    else (if bytes[1] == kind then 1 else 0) + Count(bytes[bytes[0]..], kind)
  }

  lemma LinkedStep(head: seq<Byte>, tail: seq<Byte>)
    requires 2 <= |head| && head[0] == |head|
    ensures Linked(head + tail) <==> Linked(tail)
    ensures forall kind: Byte :: Count(head + tail, kind) == (if head[1] == kind then 1 else 0) + Count(tail, kind)
  {
    assert (head + tail)[|head|..] == tail && (head + tail)[0] == head[0] && (head + tail)[1] == head[1];
  }

  lemma LinkedEnd()
    ensures Linked([]) && forall kind: Byte :: Count([], kind) == 0
  {
  }

  /** The device descriptor says its length, its kind, packets of 64 bytes and one configuration. */
  lemma DeviceReads()
    ensures var bytes := DeviceBytes();
            |bytes| == bytes[0] == 18 && bytes[1] == 1 && bytes[7] == 64 && bytes[14..] == [1, 2, 0, 1]
  {
  }

  /** What a host that takes it all reads: a list of descriptors as long as the first one says, with as many
      interfaces as that says and as many endpoints as the interface says; and the pair of bulk endpoints. */
  lemma ConfigurationWhole(length: nat)
    requires length >= 32
    ensures var bytes := Configuration(length);
            && |bytes| == 32 == bytes[2] + 256 * bytes[3] && Linked(bytes)
            && Count(bytes, DT_CONFIG) == 1 && Count(bytes, DT_INTERFACE) == bytes[4] == 1
            && Count(bytes, DT_ENDPOINT) == bytes[13] == 2
            && bytes[20] == 0x01 && bytes[27] == 0x82 && bytes[21] == bytes[28] == 2 && bytes[22] == bytes[29] == 64
  {
    hide Linked, Count;
    var last := EndpointBytes(EP2_IN);
    LinkedEnd();
    LinkedStep(last, []);
    LinkedStep(EndpointBytes(EP1_OUT), last);
    LinkedStep(InterfaceBytes(), EndpointBytes(EP1_OUT) + last);
    LinkedStep(ConfigBytes(), InterfaceBytes() + (EndpointBytes(EP1_OUT) + last));
    assert last + [] == last;
    assert Configuration(length) == ConfigBytes() + (InterfaceBytes() + (EndpointBytes(EP1_OUT) + last));
  }

  /** One that takes less gets the configuration alone, from which it learns how much there is. */
  lemma ConfigurationAlone(length: nat)
    requires length < 32
    ensures |Configuration(length)| == 9 && Configuration(length) == Configuration(32)[..9]
  {
  }

  lemma {:induction false} WideAt(text: seq<Byte>, k: nat)
    requires k < |text|
    ensures |Wide(text)| == 2 * |text| && Wide(text)[2 * k] == text[k] && Wide(text)[2 * k + 1] == 0
  {
    WideLength(text);
    WideLength(text[..|text| - 1]);
    if k < |text| - 1 { WideAt(text[..|text| - 1], k); }
  }

  /** A string descriptor says its length, its kind and its characters. */
  lemma StringReads(text: seq<Byte>)
    requires |text| <= 30
    ensures var bytes := StringBytes(text);
            && |bytes| == bytes[0] == 2 + 2 * |text| && bytes[1] == 3
            && forall k :: 0 <= k < |text| ==> bytes[2 + 2 * k] == text[k] && bytes[3 + 2 * k] == 0
  {
    WideLength(text);
    var bytes := StringBytes(text);
    forall k | 0 <= k < |text| ensures bytes[2 + 2 * k] == text[k] && bytes[3 + 2 * k] == 0 { WideAt(text, k); }
  }

  /** How much of each descriptor is sent. */
  lemma AnswerLengths(p: Setup)
    requires p.value / 256 == 3 ==> p.value % 256 <= 2
    ensures match p.value / 256
            case 1 => Answer(p).Some? && |Answer(p).value| == Min(18, p.length) && Answer(p).value <= DeviceBytes()
            case 2 =>
              && Answer(p).Some? && |Answer(p).value| == (if p.length >= 32 then 32 else Min(9, p.length))
              && Answer(p).value <= Configuration(32)
            case 3 =>
              && Answer(p).Some?
              && var whole := match p.value % 256 case 0 => 4 case 1 => 26 case _ => 34;
              && |Answer(p).value| == Min(whole, p.length)
              && (p.value % 256 == 0 ==> Answer(p).value <= [4, 3, 0x09, 0x04])
              && (p.value % 256 > 0 ==> Answer(p).value <= StringBytes(Text(p.value % 256 - 1)))
            case _ => Answer(p) == None
  {
    hide DeviceBytes, ConfigBytes, InterfaceBytes, EndpointBytes, Text, Wide;
    if p.value / 256 == 3 && p.value % 256 > 0 { WideLength(Text(p.value % 256 - 1)); }
  }
}
