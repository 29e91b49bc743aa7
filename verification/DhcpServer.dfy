/** One DHCP message handled from its option bytes to the reply's
    (pico_w/wifi/access_point/dhcpserver/dhcpserver.c). */
module DhcpServer {
  import opened Wrappers
  import opened DhcpLease
  import opened DhcpOptions

  const DISCOVER := 1
  const OFFER := 2
  const REQUEST := 3
  const ACK := 5
  const REQUESTED_IP := 50

  /** What is sent back: the address given, and how many option bytes follow the fixed part. */
  datatype Reply = Reply(kind: Byte, address: Address, length: nat)

  /** The payload of the first option with this code. */
  function Payload(opts: seq<Opt>, code: Byte): Option<seq<Byte>> {
    var k := First(opts, code);
    if k < |opts| then Some(opts[k].data) else None
  }

  /** The options a message carries have the lengths their codes ask for. */
  predicate Readable(opts: seq<Opt>) {
    && WellFormed(opts)
    && (Payload(opts, MSG_TYPE).Some? ==> |Payload(opts, MSG_TYPE).value| >= 1)
    && (Payload(opts, REQUESTED_IP).Some? ==> |Payload(opts, REQUESTED_IP).value| >= 4)
  }

  function Kind(opts: seq<Opt>): int
    requires Readable(opts)
  {
    if Payload(opts, MSG_TYPE).Some? then Payload(opts, MSG_TYPE).value[0] else -1
  }

  function Requested(opts: seq<Opt>): Option<Address>
    requires Readable(opts)
  {
    if Payload(opts, REQUESTED_IP).Some? then Some(Payload(opts, REQUESTED_IP).value[..4]) else None
  }

  /** The lease table after a message, and the slot and kind of the reply. */
  function Answer(table: Table, ip: Address, opts: seq<Opt>, mac: Mac, ticks: seq<nat>, at: nat)
    : (Table, Option<(Byte, nat)>)
    requires Readable(opts) && |ticks| == MAX_IP
  {
    if Kind(opts) == DISCOVER then
      var (after, yi) := Scan(table, mac, ticks, 0, MAX_IP);
      (after, if yi == MAX_IP then Option.None else Some((OFFER, yi)))
    else if Kind(opts) == REQUEST then
      var (after, granted) := Granted(table, ip, mac, Requested(opts), at);
      (after, if granted.None? then Option.None else Some((ACK, granted.value)))
    else (table, Option.None)
  }

  /** A DISCOVER is answered with an OFFER (2) of the client's own slot, or else the first free or expired one;
      there is no answer only if there is neither. Of the table at most one expired entry is cleared. */
  lemma DiscoverExact(table: Table, ip: Address, opts: seq<Opt>, mac: Mac, ticks: seq<nat>, at: nat)
    requires Readable(opts) && |ticks| == MAX_IP && Kind(opts) == 1
    ensures var own, free := FirstOwn(table, mac, 0), FirstReusable(table, ticks, 0);
            Answer(table, ip, opts, mac, ticks, at) ==
            (ClearedAt(table, own, free, ticks),
             if own < MAX_IP then Some((2, own)) else if free < MAX_IP then Some((2, free)) else Option.None)
  {
    hide Scan, Expired, Kind, Readable;
    ScanExact(table, mac, ticks, 0);
  }

  /** A REQUEST is answered with an ACK (5) for the very address asked for if it is one the server can grant, and
      otherwise not at all, the table being left alone. */
  lemma RequestExact(table: Table, ip: Address, opts: seq<Opt>, mac: Mac, ticks: seq<nat>, at: nat)
    requires Readable(opts) && |ticks| == MAX_IP && Kind(opts) == 3
    ensures var (after, answer) := Answer(table, ip, opts, mac, ticks, at);
            if Acceptable(table, ip, mac, Requested(opts)) then
              && answer.Some? && answer.value.0 == 5
              && Requested(opts) == Some(ip[..3] + [BASE_IP + answer.value.1])
              && after == table[answer.value.1 := Lease(mac, ExpiryOf(at))]
            else answer == Option.None && after == table
  {
    hide Granted, ExpiryOf, Kind, Requested, Readable;
    GrantedExact(table, ip, mac, Requested(opts), at);
    if Acceptable(table, ip, mac, Requested(opts)) {
      var r := Requested(opts).value;
      assert r == ip[..3] + [r[3]];
    }
  }

  /** Any other message is ignored. */
  lemma OtherExact(table: Table, ip: Address, opts: seq<Opt>, mac: Mac, ticks: seq<nat>, at: nat)
    requires Readable(opts) && |ticks| == MAX_IP && Kind(opts) != 1 && Kind(opts) != 3
    ensures Answer(table, ip, opts, mac, ticks, at) == (table, Option.None)
  {
    hide Scan, Granted, Kind, Requested, Readable;
  }

  /** Whatever is acknowledged is what was asked for. */
  lemma AckedAsAsked(table: Table, ip: Address, opts: seq<Opt>, mac: Mac, ticks: seq<nat>, at: nat)
    requires Readable(opts) && |ticks| == MAX_IP
    ensures var answer := Answer(table, ip, opts, mac, ticks, at).1;
            answer.Some? && answer.value.0 == ACK ==> Requested(opts) == Some(ip[..3] + [BASE_IP + answer.value.1])
  {
    if Kind(opts) == 1 {
      DiscoverExact(table, ip, opts, mac, ticks, at);
    } else if Kind(opts) == 3 {
      RequestExact(table, ip, opts, mac, ticks, at);
    } else {
      OtherExact(table, ip, opts, mac, ticks, at);
    }
    hide Answer, Kind, Requested, Readable, Acceptable;
  }

  lemma PayloadFound(buffer: seq<Byte>, opts: seq<Opt>, code: Byte)
    requires WellFormed(opts) && Holds(buffer, opts)
    ensures match Lookup(opts, code)
            case None => Payload(opts, code).None?
            case Some(at) =>
              && Payload(opts, code).Some? && at + 2 + |Payload(opts, code).value| <= |buffer|
              && buffer[at + 2..at + 2 + |Payload(opts, code).value|] == Payload(opts, code).value
  {
    FoundOption(buffer, opts, code);
    var k := First(opts, code);
    if k < |opts| {
      var at, n := Lookup(opts, code).value, |opts[k].data|;
      assert buffer[at..at + 2 + n][2..] == opts[k].data;
    }
  }

  /** dhcp_server_process, from the options on. The reply is written over the options it answers. */
  method Process(server: Server, mask: Address, options: array<Byte>, ghost opts: seq<Opt>,
                 mac: Mac, ticks: seq<nat>, at: nat)
    returns (reply: Option<Reply>)
    requires server.Valid() && options.Length == OPTIONS_SIZE && |ticks| == MAX_IP
    requires Readable(opts) && Holds(options[..], opts)
    modifies server.lease, options
    ensures server.Valid()
    ensures var (table, answer) := Answer(old(server.View()), server.ip, opts, mac, ticks, at);
            && server.View() == table
            && (answer.None? ==> reply.None? && options[..] == old(options[..]))
            && (answer.Some? ==>
                && reply.Some? && reply.value.kind == answer.value.0
                && reply.value.address == server.ip[..3] + [BASE_IP + answer.value.1]
                && Holds(options[..], ReplyOptions(answer.value.0, server.ip, mask))
                && reply.value.length == |Encoded(ReplyOptions(answer.value.0, server.ip, mask))| + 1)
    ensures reply.Some? && reply.value.kind == ACK ==> Requested(opts) == Some(reply.value.address)
  {
    hide Holds, Lookup, First, Scan, Granted, ReplyOptions, Encoded, Acceptable;
    AckedAsAsked(server.View(), server.ip, opts, mac, ticks, at);
    PayloadFound(options[..], opts, MSG_TYPE);
    PayloadFound(options[..], opts, REQUESTED_IP);
    var kindAt := Find(options, MSG_TYPE, opts);
    if kindAt.None? {
      return Option.None;
    }
    var kind := options[kindAt.value + 2];
    assert kind == options[..][kindAt.value + 2..kindAt.value + 2 + |Payload(opts, MSG_TYPE).value|][0];
    var answer: Byte;
    var slot: Option<nat>;
    if kind == DISCOVER {
      answer := OFFER;
      slot := server.Offer(mac, ticks);
    } else if kind == REQUEST {
      answer := ACK;
      var ipAt := Find(options, REQUESTED_IP, opts);
      var requested: Option<Address> := Option.None;
      if ipAt.Some? {
        requested := Some(options[ipAt.value + 2..ipAt.value + 6]);
        assert requested.value
            == options[..][ipAt.value + 2..ipAt.value + 2 + |Payload(opts, REQUESTED_IP).value|][..4];
      }
      slot := server.Acknowledge(mac, requested, at);
    } else {
      return Option.None;
    }
    if slot.None? {
      return Option.None;
    }
    var length := DhcpOptions.Reply(options, answer, server.ip, mask);
    reply := Some(Reply(answer, server.ip[..3] + [BASE_IP + slot.value], length));
  }
}
