/** Histories of DHCP messages, option lists and all
    (pico_w/wifi/access_point/dhcpserver/dhcpserver.c). */
module DhcpHistory {
  import opened Wrappers
  import opened DhcpLease
  import opened DhcpOptions
  import opened DhcpServer

  /** A message as it comes in: its options, the sender, and the clock as it is handled. */
  datatype Packet = Packet(opts: seq<Opt>, mac: Mac, ticks: seq<nat>, at: nat)

  predicate Legible(packets: seq<Packet>) {
    forall p <- packets :: Readable(p.opts) && |p.ticks| == MAX_IP
  }

  /** What the lease table makes of it, if anything. */
  function MessageOf(p: Packet): Option<Message>
    requires Readable(p.opts)
  {
    if Kind(p.opts) == DISCOVER then Some(Discover(p.mac, p.ticks))
    else if Kind(p.opts) == REQUEST then Some(Message.Request(p.mac, Requested(p.opts), p.at))
    else Option.None
  }

  /** The table after a history and the acknowledgements sent, message by message as Process answers them. */
  function Serve(table: Table, ip: Address, packets: seq<Packet>): (Table, seq<Ack>)
    requires Legible(packets)
    decreases |packets|
  {
    if packets == [] then (table, [])
    else
      var p := packets[0];
      var (next, answer) := Answer(table, ip, p.opts, p.mac, p.ticks, p.at);
      var (end, acks) := Serve(next, ip, packets[1..]);
      (end, Acked(p, answer) + acks)
  }

  function Acked(p: Packet, answer: Option<(Byte, nat)>): seq<Ack> {
    if answer.Some? && answer.value.0 == ACK then [Ack(p.mac, answer.value.1, p.at)] else []
  }

  /** The clock does not run backwards over the messages it is read for. */
  predicate Clocked(now: nat, packets: seq<Packet>)
    requires Legible(packets)
    decreases |packets|
  {
    packets != [] ==>
      var p := packets[0];
      if Kind(p.opts) == DISCOVER then
        && now <= p.ticks[0] && (forall i, j :: 0 <= i < j < MAX_IP ==> p.ticks[i] <= p.ticks[j])
        && Clocked(p.ticks[MAX_IP - 1], packets[1..])
      else if Kind(p.opts) == REQUEST then now <= p.at && Clocked(p.at, packets[1..])
      else Clocked(now, packets[1..])
  }

  /** What goes to the lease table, in order. */
  function Messages(packets: seq<Packet>): seq<Message>
    requires Legible(packets)
    decreases |packets|
  {
    if packets == [] then []
    else
      (if MessageOf(packets[0]).Some? then [MessageOf(packets[0]).value] else []) + Messages(packets[1..])
  }

  lemma OneAnswer(w: World, ip: Address, p: Packet)
    requires Readable(p.opts) && |p.ticks| == MAX_IP && |w.since| == MAX_IP
    requires MessageOf(p).Some? ==> Timely(w, MessageOf(p).value)
    ensures var (table, answer) := Answer(w.table, ip, p.opts, p.mac, p.ticks, p.at);
            if MessageOf(p).Some? then
              var next := Next(w, ip, MessageOf(p).value);
              next.table == table && next.acks == w.acks + Acked(p, answer)
            else table == w.table && Acked(p, answer) == []
  {
    hide Scan, Kind, Requested, Readable, ExpiryOf;
    assert w.acks + [] == w.acks;
  }

  lemma NextSlots(w: World, ip: Address, m: Message)
    requires |w.since| == MAX_IP && Timely(w, m)
    ensures var next := Next(w, ip, m);
            |next.since| == MAX_IP && next.now == if m.Discover? then m.ticks[MAX_IP - 1] else m.at
  {
    hide Scan;
  }

  lemma FirstMessage(w: World, ip: Address, m: Message, more: seq<Message>)
    requires |w.since| == MAX_IP && Timely(w, m) && |Next(w, ip, m).since| == MAX_IP
    requires InOrder(Next(w, ip, m), ip, more)
    ensures InOrder(w, ip, [m] + more) && After(w, ip, [m] + more) == After(Next(w, ip, m), ip, more)
  {
    hide Next, Timely;
    assert ([m] + more)[1..] == more;
  }

  lemma FirstPacket(w: World, ip: Address, packets: seq<Packet>)
    requires |w.since| == MAX_IP && Legible(packets) && Clocked(w.now, packets) && packets != []
    ensures Legible(packets[1..])
    ensures match MessageOf(packets[0])
            case None => Clocked(w.now, packets[1..]) && Messages(packets) == Messages(packets[1..])
            case Some(m) =>
              && Timely(w, m) && Clocked(Next(w, ip, m).now, packets[1..])
              && Messages(packets) == [m] + Messages(packets[1..])
  {
    hide Next, Kind, Requested, Readable;
    var p := packets[0];
    assert p in packets;
    if MessageOf(p).Some? { NextSlots(w, ip, MessageOf(p).value); }
    assert [] + Messages(packets[1..]) == Messages(packets[1..]);
  }

  lemma FirstServed(table: Table, ip: Address, packets: seq<Packet>)
    requires Legible(packets) && packets != []
    ensures |packets[0].ticks| == MAX_IP && Readable(packets[0].opts) && Legible(packets[1..])
    ensures var p := packets[0];
            var (next, answer) := Answer(table, ip, p.opts, p.mac, p.ticks, p.at);
            && Serve(table, ip, packets).0 == Serve(next, ip, packets[1..]).0
            && Serve(table, ip, packets).1 == Acked(p, answer) + Serve(next, ip, packets[1..]).1
  {
    hide Answer, Acked, Readable;
    assert packets[0] in packets;
  }

  /** A history of messages, option lists and all, is a history of the lease table. */
  lemma {:induction false} ServeRefines(w: World, ip: Address, packets: seq<Packet>)
    requires |w.since| == MAX_IP && Legible(packets) && Clocked(w.now, packets)
    ensures InOrder(w, ip, Messages(packets))
    ensures var end := After(w, ip, Messages(packets));
            Serve(w.table, ip, packets).0 == end.table && w.acks + Serve(w.table, ip, packets).1 == end.acks
    decreases |packets|
  {
    hide Answer, Kind, Requested, Readable, Scan, Granted, Acked, Next, Timely;
    if packets == [] {
      assert w.acks + [] == w.acks;
    } else {
      var p, rest := packets[0], packets[1..];
      FirstServed(w.table, ip, packets);
      FirstPacket(w, ip, packets);
      OneAnswer(w, ip, p);
      hide Serve, Clocked, Messages, InOrder, After, Legible, MessageOf;
      match MessageOf(p)
      case Some(m) =>
        NextSlots(w, ip, m);
        ServeRefines(Next(w, ip, m), ip, rest);
        FirstMessage(w, ip, m, Messages(rest));
        var acked := Acked(p, Answer(w.table, ip, p.opts, p.mac, p.ticks, p.at).1);
        assert w.acks + (acked + Serve(Next(w, ip, m).table, ip, rest).1)
            == (w.acks + acked) + Serve(Next(w, ip, m).table, ip, rest).1;
      case None =>
        ServeRefines(w, ip, rest);
        assert [] + Serve(w.table, ip, rest).1 == Serve(w.table, ip, rest).1;
    }
  }

  /** Over every history of messages, option lists and all: once a client with a MAC address has been sent an
      ACK for an address, no other client is sent one for it before the lease time has passed. */
  lemma ReplyExclusive(ip: Address, start: nat, packets: seq<Packet>, i: nat, j: nat)
    requires Legible(packets) && Clocked(start, packets)
    requires var acks := Serve(Fresh(start).table, ip, packets).1; i < j < |acks|
    ensures var acks := Serve(Fresh(start).table, ip, packets).1;
            acks[i].slot == acks[j].slot && acks[i].mac != NoMac() && acks[j].mac != acks[i].mac ==>
            acks[j].time >= acks[i].time + LEASE_MS
  {
    hide Serve, After, InOrder, Legible, Clocked;
    ServeRefines(Fresh(start), ip, packets);
    LeaseExclusive(ip, start, Messages(packets), i, j);
  }
}
