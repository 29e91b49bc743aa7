/** The lease table of the DHCP server (pico_w/wifi/access_point/dhcpserver/dhcpserver.c). */
module DhcpLease {
  import opened Wrappers

  type Mac = m: seq<Byte> | |m| == 6 witness [0, 0, 0, 0, 0, 0]
  type Address = a: seq<Byte> | |a| == 4 witness [0, 0, 0, 0]
  type Expiry = e: nat | e < 0x1_0000

  const MAX_IP := 8
  const BASE_IP := 16
  const LEASE_MS := 86_400_000    // DEFAULT_LEASE_TIME_S * 1000
  const WRAP := 0x1_0000_0000     // the millisecond clock is 32 bits wide
  const HALF := 0x8000_0000

  datatype Lease = Lease(mac: Mac, expiry: Expiry)

  type Table = t: seq<Lease> | |t| == MAX_IP witness seq(MAX_IP, _ => Lease(NoMac(), 0))

  function NoMac(): Mac {
    [0, 0, 0, 0, 0, 0]
  }

  // ----- Expiry times

  /** The 16 bits kept of the time a lease granted at `t` ends. */
  function ExpiryOf(t: nat): Expiry {
    ((t + LEASE_MS) % WRAP) / 0x1_0000
  }

  /** The signed comparison the offer loop makes. */
  predicate Expired(expiry: Expiry, t: nat) {
    (expiry * 0x1_0000 + 0xFFFF - t) % WRAP >= HALF
  }

  /** How long after `t` the rounded-up end of the lease is. */
  function Term(t: nat): nat {
    LEASE_MS + 0xFFFF - (t + LEASE_MS) % 0x1_0000
  }

  lemma WrapDifference(a: int, b: int)
    ensures (a % WRAP - b) % WRAP == (a - b) % WRAP
  {
    assert a == a / WRAP * WRAP + a % WRAP;
    Multiple(a % WRAP - b, a / WRAP);
  }

  lemma Multiple(x: int, k: int)
    ensures (x + k * WRAP) % WRAP == x % WRAP
  {
    var q, r := x / WRAP, x % WRAP;
    assert x + k * WRAP == (q + k) * WRAP + r;
  }

  lemma Rounded(a: nat)
    ensures (a % WRAP) / 0x1_0000 * 0x1_0000 == a % WRAP - a % 0x1_0000
  {
    var q, r := a / WRAP, a % WRAP;
    var n, u := r / 0x1_0000, r % 0x1_0000;
    assert a == (q * 0x1_0000 + n) * 0x1_0000 + u;
  }

  /** A lease granted at `t` reads as expired exactly from its rounded-up end until half a wrap of the
      clock later, and so again every wrap. */
  lemma ExpiryExact(t: nat, later: nat)
    requires t <= later
    ensures Expired(ExpiryOf(t), later) <==> Term(t) < (later - t) % WRAP <= Term(t) + HALF
  {
    var a, d := t + LEASE_MS, later - t;
    Rounded(a);
    var end := a % WRAP - a % 0x1_0000 + 0xFFFF;
    assert ExpiryOf(t) * 0x1_0000 + 0xFFFF == end;
    WrapDifference(a, a % 0x1_0000 - 0xFFFF + later);
    assert (end - later) % WRAP == (Term(t) - d) % WRAP;
    var k, m := d / WRAP, d % WRAP;
    Multiple(Term(t) - d, k);
    assert Term(t) - d + k * WRAP == Term(t) - m;
  }

  /** So it never reads as expired during the lease. */
  lemma NotExpiredEarly(t: nat, later: nat)
    requires t <= later < t + LEASE_MS
    ensures !Expired(ExpiryOf(t), later)
  {
    ExpiryExact(t, later);
  }

  /** From 65,536 ms after the lease until 2^31 ms after it, it always does. */
  lemma ExpiredAfterwards(t: nat, later: nat)
    requires t + LEASE_MS + 0x1_0000 <= later <= t + LEASE_MS + HALF
    ensures Expired(ExpiryOf(t), later)
  {
    ExpiryExact(t, later);
  }

  /** But not for ever: the comparison wraps and the slot reads as taken again. */
  lemma ExpiryForgotten(t: nat)
    ensures !Expired(ExpiryOf(t), t + LEASE_MS + HALF + 0x1_0000)
  {
    ExpiryExact(t, t + LEASE_MS + HALF + 0x1_0000);
  }

  // ----- Offers

  /** The offer loop from slot `i`, `yi` being the slot found so far; the clock is read anew for every
      slot. */
  function Scan(table: Table, mac: Mac, ticks: seq<nat>, i: nat, yi: nat): (r: (Table, nat))
    requires |ticks| == MAX_IP && i <= MAX_IP && yi <= MAX_IP
    ensures r.1 <= MAX_IP
    decreases MAX_IP - i
  {
    if i == MAX_IP then (table, yi)
    else if table[i].mac == mac then (table, i)
    else if yi == MAX_IP then
      var expired := Expired(table[i].expiry, ticks[i]);
      var table' := if expired then table[i := table[i].(mac := NoMac())] else table;
      Scan(table', mac, ticks, i + 1, if expired || table[i].mac == NoMac() then i else yi)
    else Scan(table, mac, ticks, i + 1, yi)
  }

  predicate Reusable(lease: Lease, t: nat) {
    lease.mac == NoMac() || Expired(lease.expiry, t)
  }

  /** Whether the slot is the client's own, the first such. */
  predicate Own(table: Table, mac: Mac, i: nat) {
    i < MAX_IP && table[i].mac == mac && forall k :: 0 <= k < i ==> table[k].mac != mac
  }

  /** Only an expired entry loses its owner, and nothing else changes. */
  predicate Cleared(before: Table, after: Table, ticks: seq<nat>)
    requires |ticks| == MAX_IP
  {
    forall k :: 0 <= k < MAX_IP ==>
      after[k] == before[k] || (Expired(before[k].expiry, ticks[k]) && after[k] == before[k].(mac := NoMac()))
  }

  lemma {:induction false} ScanFound(table: Table, mac: Mac, ticks: seq<nat>, i: nat, yi: nat)
    requires |ticks| == MAX_IP && i <= MAX_IP && yi < MAX_IP
    requires forall k :: 0 <= k < i ==> table[k].mac != mac || (k == yi && mac == NoMac())
    ensures var (after, offer) := Scan(table, mac, ticks, i, yi);
            && after == table
            && (if exists k :: i <= k < MAX_IP && table[k].mac == mac
                then i <= offer < MAX_IP && table[offer].mac == mac
                     && forall k :: i <= k < offer ==> table[k].mac != mac
                else offer == yi)
    decreases MAX_IP - i
  {
    if i < MAX_IP && table[i].mac != mac { ScanFound(table, mac, ticks, i + 1, yi); }
  }

  /** What the loop settles on from slot `i`, with nothing found before it. */
  predicate Chosen(table: Table, after: Table, mac: Mac, ticks: seq<nat>, offer: nat)
    requires |ticks| == MAX_IP
  {
    if exists k :: 0 <= k < MAX_IP && table[k].mac == mac then Own(table, mac, offer)
    else if exists k :: 0 <= k < MAX_IP && Reusable(table[k], ticks[k]) then
      && offer < MAX_IP && Reusable(table[offer], ticks[offer]) && after[offer].mac == NoMac()
      && forall k :: 0 <= k < offer ==> !Reusable(table[k], ticks[k])
    else offer == MAX_IP
  }

  function Without(table: Table, i: nat, t: nat): Table
    requires i < MAX_IP
  {
    if Expired(table[i].expiry, t) then table[i := table[i].(mac := NoMac())] else table
  }

  lemma ScanTakes(table: Table, mac: Mac, ticks: seq<nat>, i: nat)
    requires |ticks| == MAX_IP && i < MAX_IP && Reusable(table[i], ticks[i]) && table[i].mac != mac
    ensures Scan(table, mac, ticks, i, MAX_IP) == Scan(Without(table, i, ticks[i]), mac, ticks, i + 1, i)
    ensures Cleared(table, Without(table, i, ticks[i]), ticks)
    ensures Without(table, i, ticks[i])[i].mac == NoMac()
    ensures forall k :: 0 <= k < MAX_IP && k != i ==> Without(table, i, ticks[i])[k] == table[k]
  {
  }

  lemma ScanReusable(table: Table, mac: Mac, ticks: seq<nat>, i: nat)
    requires |ticks| == MAX_IP && i < MAX_IP && Reusable(table[i], ticks[i]) && table[i].mac != mac
    requires forall k :: 0 <= k < i ==> table[k].mac != mac && !Reusable(table[k], ticks[k])
    ensures var (after, offer) := Scan(table, mac, ticks, i, MAX_IP);
            && Cleared(table, after, ticks) && Chosen(table, after, mac, ticks, offer)
            && (offer < MAX_IP ==> after[offer].mac == mac || after[offer].mac == NoMac())
  {
    hide Scan, Expired, Without, Cleared;
    ScanTakes(table, mac, ticks, i);
    ScanFound(Without(table, i, ticks[i]), mac, ticks, i + 1, i);
  }

  /** The offer: the client's own slot if it has one, otherwise the first that is free or expired,
      otherwise none; at most expired entries are cleared on the way. */
  lemma {:induction false} ScanFrom(table: Table, mac: Mac, ticks: seq<nat>, i: nat)
    requires |ticks| == MAX_IP && i <= MAX_IP
    requires forall k :: 0 <= k < i ==> table[k].mac != mac && !Reusable(table[k], ticks[k])
    ensures var (after, offer) := Scan(table, mac, ticks, i, MAX_IP);
            && Cleared(table, after, ticks) && Chosen(table, after, mac, ticks, offer)
            && (offer < MAX_IP ==> after[offer].mac == mac || after[offer].mac == NoMac())
    decreases MAX_IP - i
  {
    if i < MAX_IP && table[i].mac != mac {
      if Reusable(table[i], ticks[i]) {
        ScanReusable(table, mac, ticks, i);
      } else {
        ScanFrom(table, mac, ticks, i + 1);
      }
    }
  }

  /** The first slot that is the client's, or none. */
  function FirstOwn(table: Table, mac: Mac, i: nat): (k: nat)
    requires i <= MAX_IP
    ensures i <= k <= MAX_IP && (forall j :: i <= j < k ==> table[j].mac != mac) && (k < MAX_IP ==> table[k].mac == mac)
    decreases MAX_IP - i
  {
    if i == MAX_IP || table[i].mac == mac then i else FirstOwn(table, mac, i + 1)
  }

  /** The first slot that can be given to anyone, or none. */
  function FirstReusable(table: Table, ticks: seq<nat>, i: nat): (k: nat)
    requires |ticks| == MAX_IP && i <= MAX_IP
    ensures i <= k <= MAX_IP && (forall j :: i <= j < k ==> !Reusable(table[j], ticks[j]))
    ensures k < MAX_IP ==> Reusable(table[k], ticks[k])
    decreases MAX_IP - i
  {
    if i == MAX_IP || Reusable(table[i], ticks[i]) then i else FirstReusable(table, ticks, i + 1)
  }

  lemma {:induction false} ScanPast(table: Table, mac: Mac, ticks: seq<nat>, i: nat, yi: nat)
    requires |ticks| == MAX_IP && i <= MAX_IP && yi < MAX_IP
    ensures var own := FirstOwn(table, mac, i);
            Scan(table, mac, ticks, i, yi) == (table, if own < MAX_IP then own else yi)
    decreases MAX_IP - i
  {
    if i < MAX_IP && table[i].mac != mac { ScanPast(table, mac, ticks, i + 1, yi); }
  }

  lemma SameOwn(table: Table, mac: Mac, i: nat, t: nat)
    requires i < MAX_IP && table[i].mac != mac
    ensures FirstOwn(Without(table, i, t), mac, i + 1) == FirstOwn(table, mac, i)
  {
    hide Expired;
    assert forall k :: i < k < MAX_IP ==> Without(table, i, t)[k].mac == table[k].mac;
  }

  lemma ScanHere(table: Table, mac: Mac, ticks: seq<nat>, i: nat)
    requires |ticks| == MAX_IP && i < MAX_IP && Reusable(table[i], ticks[i]) && table[i].mac != mac
    ensures var own := FirstOwn(table, mac, i);
            Scan(table, mac, ticks, i, MAX_IP) == (Without(table, i, ticks[i]), if own < MAX_IP then own else i)
  {
    hide Scan, Expired, Without, FirstOwn;
    ScanTakes(table, mac, ticks, i);
    ScanPast(Without(table, i, ticks[i]), mac, ticks, i + 1, i);
    SameOwn(table, mac, i, ticks[i]);
  }

  lemma ScanEnds(table: Table, mac: Mac, ticks: seq<nat>, i: nat)
    requires |ticks| == MAX_IP && i <= MAX_IP && (i == MAX_IP || table[i].mac == mac)
    ensures Scan(table, mac, ticks, i, MAX_IP) == (table, i) && FirstOwn(table, mac, i) == i
    ensures FirstReusable(table, ticks, i) >= i
  {
  }

  lemma ScanSkips(table: Table, mac: Mac, ticks: seq<nat>, i: nat)
    requires |ticks| == MAX_IP && i < MAX_IP && table[i].mac != mac && !Reusable(table[i], ticks[i])
    ensures Scan(table, mac, ticks, i, MAX_IP) == Scan(table, mac, ticks, i + 1, MAX_IP)
    ensures FirstOwn(table, mac, i) == FirstOwn(table, mac, i + 1)
    ensures FirstReusable(table, ticks, i) == FirstReusable(table, ticks, i + 1)
  {
  }

  /** The table with its first reusable entry cleared, if that is an expired one before the client's own. */
  function ClearedAt(table: Table, own: nat, free: nat, ticks: seq<nat>): Table
    requires |ticks| == MAX_IP && free <= MAX_IP
  {
    if free < own && free < MAX_IP && Expired(table[free].expiry, ticks[free])
    then table[free := Lease(NoMac(), table[free].expiry)] else table
  }

  /** The offer in full: the client's first slot if it has one, else the first that is free or expired, else
      none; and one entry is cleared, if any: the first such slot, when it is an expired one that comes before
      the client's own. */
  lemma {:induction false} ScanExact(table: Table, mac: Mac, ticks: seq<nat>, i: nat)
    requires |ticks| == MAX_IP && i <= MAX_IP
    ensures var own, free := FirstOwn(table, mac, i), FirstReusable(table, ticks, i);
            && Scan(table, mac, ticks, i, MAX_IP).0 == ClearedAt(table, own, free, ticks)
            && Scan(table, mac, ticks, i, MAX_IP).1 == if own < MAX_IP then own else free
    decreases MAX_IP - i
  {
    hide Scan, Expired, FirstOwn, FirstReusable, Reusable;
    if i == MAX_IP || table[i].mac == mac {
      ScanEnds(table, mac, ticks, i);
    } else if Reusable(table[i], ticks[i]) {
      ScanHere(table, mac, ticks, i);
      assert FirstReusable(table, ticks, i) == i;
    } else {
      ScanSkips(table, mac, ticks, i);
      ScanExact(table, mac, ticks, i + 1);
    }
  }

  // ----- The server

  datatype Message =
    | Discover(mac: Mac, ticks: seq<nat>)                     // the clock as each slot is looked at
    | Request(mac: Mac, requested: Option<Address>, at: nat)

  /** The request branch: the table afterwards and the slot acknowledged. */
  function Granted(table: Table, net: Address, mac: Mac, requested: Option<Address>, at: nat): (r: (Table, Option<nat>))
    ensures r.1.Some? ==> r.1.value < MAX_IP && r.0[r.1.value] == Lease(mac, ExpiryOf(at))
  {
    if requested.None? || requested.value[..3] != net[..3] then (table, None)
    else
      var yi := (requested.value[3] - BASE_IP) % 256;
      if yi >= MAX_IP || (table[yi].mac != mac && table[yi].mac != NoMac()) then (table, None)
      else (table[yi := Lease(mac, ExpiryOf(at))], Some(yi))
  }

  /** A request the server grants: for an address of its own network, in the range it gives out, that is free or
      the client's. */
  predicate Acceptable(table: Table, net: Address, mac: Mac, requested: Option<Address>) {
    && requested.Some?
    && (forall i :: 0 <= i < 3 ==> requested.value[i] == net[i])
    && BASE_IP <= requested.value[3] < BASE_IP + MAX_IP
    && var owner := table[requested.value[3] - BASE_IP].mac; owner == mac || owner == NoMac()
  }

  /** It grants exactly those, entering the client and the expiry; any other leaves the table alone. */
  lemma GrantedExact(table: Table, net: Address, mac: Mac, requested: Option<Address>, at: nat)
    ensures var (after, granted) := Granted(table, net, mac, requested, at);
            if Acceptable(table, net, mac, requested) then
              var slot := requested.value[3] - BASE_IP;
              granted == Some(slot) && after == table[slot := Lease(mac, ExpiryOf(at))]
            else granted == None && after == table
  {
    hide ExpiryOf;
    if requested.Some? {
      var r := requested.value;
      assert r[..3] == [r[0], r[1], r[2]] && net[..3] == [net[0], net[1], net[2]];
    }
  }

  class Server {
    const ip: Address
    const lease: array<Lease>

    ghost predicate Valid()
      reads this
    {
      lease.Length == MAX_IP
    }

    ghost function View(): Table
      reads this, lease
      requires Valid()
    {
      lease[..]
    }

    constructor (ip: Address)
      ensures Valid() && fresh(lease) && this.ip == ip && View() == seq(MAX_IP, _ => Lease(NoMac(), 0))
    {
      this.ip := ip;
      lease := new Lease[MAX_IP](_ => Lease(NoMac(), 0));
    }

    /** The slot offered. */
    method Offer(mac: Mac, ticks: seq<nat>) returns (offer: Option<nat>)
      requires Valid() && |ticks| == MAX_IP
      modifies lease
      ensures var (after, yi) := Scan(old(View()), mac, ticks, 0, MAX_IP);
              View() == after && offer == if yi == MAX_IP then None else Some(yi)
    {
      var yi := MAX_IP;
      var i := 0;
      while i < MAX_IP
        invariant 0 <= i <= MAX_IP && 0 <= yi <= MAX_IP
        invariant Scan(View(), mac, ticks, i, yi) == Scan(old(View()), mac, ticks, 0, MAX_IP)
      {
        if lease[i].mac == mac {
          yi := i;
          break;
        }
        if yi == MAX_IP {
          var expired := Expired(lease[i].expiry, ticks[i]);
          if lease[i].mac == NoMac() { yi := i; }
          if expired {
            ghost var before := View();
            lease[i] := lease[i].(mac := NoMac());
            assert View() == before[i := before[i].(mac := NoMac())];
            yi := i;
          }
        }
        i := i + 1;
      }
      offer := if yi == MAX_IP then None else Some(yi);
    }

    /** The slot acknowledged. */
    method Acknowledge(mac: Mac, requested: Option<Address>, at: nat) returns (granted: Option<nat>)
      requires Valid()
      modifies lease
      ensures (View(), granted) == Granted(old(View()), ip, mac, requested, at)
      ensures granted.Some? <==> Acceptable(old(View()), ip, mac, requested)
      ensures match granted
              case None => View() == old(View())
              case Some(slot) =>
                slot == requested.value[3] - BASE_IP && View() == old(View())[slot := Lease(mac, ExpiryOf(at))]
    {
      GrantedExact(View(), ip, mac, requested, at);
      if requested.None? || requested.value[..3] != ip[..3] {
        return None;
      }
      var yi := (requested.value[3] - BASE_IP) % 256;
      if yi >= MAX_IP {
        return None;
      }
      if lease[yi].mac == mac {
      } else if lease[yi].mac == NoMac() {
        lease[yi] := lease[yi].(mac := mac);
      } else {
        return None;
      }
      lease[yi] := lease[yi].(expiry := ExpiryOf(at));
      assert View() == old(View())[yi := Lease(mac, ExpiryOf(at))];
      granted := Some(yi);
    }
  }

  // ----- Histories

  /** An acknowledgement sent. */
  datatype Ack = Ack(mac: Mac, slot: nat, time: nat)

  /** The table, every acknowledgement so far, the latest time seen, and when each slot was last
      acknowledged. */
  datatype World = World(table: Table, acks: seq<Ack>, now: nat, since: seq<nat>)

  /** Time does not run backwards. */
  predicate Timely(w: World, m: Message) {
    match m
    case Discover(_, ticks) =>
      && |ticks| == MAX_IP && w.now <= ticks[0]
      && forall i, j :: 0 <= i < j < MAX_IP ==> ticks[i] <= ticks[j]
    case Request(_, _, at) => w.now <= at
  }

  function Next(w: World, net: Address, m: Message): World
    requires Timely(w, m) && |w.since| == MAX_IP
  {
    match m
    case Discover(mac, ticks) => w.(table := Scan(w.table, mac, ticks, 0, MAX_IP).0, now := ticks[MAX_IP - 1])
    case Request(mac, requested, at) =>
      var (table, granted) := Granted(w.table, net, mac, requested, at);
      if granted.None? then w.(now := at)
      else World(table, w.acks + [Ack(mac, granted.value, at)], at, w.since[granted.value := at])
  }

  /** A client holding a lease is in the table, with the time of its last acknowledgement. */
  predicate Held(w: World, a: Ack)
    requires |w.since| == MAX_IP
  {
    && a.slot < MAX_IP && a.time <= w.since[a.slot] <= w.now
    && (a.mac != NoMac() && w.now < a.time + LEASE_MS ==>
          w.table[a.slot].mac == a.mac && w.table[a.slot].expiry == ExpiryOf(w.since[a.slot]))
  }

  /** `b` does not take the address of `a` away early. */
  predicate Spaced(a: Ack, b: Ack) {
    a.slot == b.slot && a.mac != NoMac() && b.mac != a.mac ==> b.time >= a.time + LEASE_MS
  }

  predicate Sound(w: World) {
    && |w.since| == MAX_IP
    && (forall i :: 0 <= i < |w.acks| ==> Held(w, w.acks[i]))
    && forall i, j :: 0 <= i < j < |w.acks| ==> Spaced(w.acks[i], w.acks[j])
  }

  lemma DiscoverHeld(w: World, net: Address, mac: Mac, ticks: seq<nat>, a: Ack)
    requires |w.since| == MAX_IP && Held(w, a) && Timely(w, Discover(mac, ticks))
    ensures Held(Next(w, net, Discover(mac, ticks)), a)
  {
    ScanFrom(w.table, mac, ticks, 0);
    hide Scan, Expired, ExpiryOf, Chosen;
    if a.mac != NoMac() && ticks[MAX_IP - 1] < a.time + LEASE_MS {
      assert ticks[0] <= ticks[a.slot] <= ticks[MAX_IP - 1];
      NotExpiredEarly(w.since[a.slot], ticks[a.slot]);
    }
  }

  lemma RequestKeeps(w: World, net: Address, mac: Mac, requested: Option<Address>, at: nat)
    requires Sound(w) && Timely(w, Request(mac, requested, at))
    ensures Sound(Next(w, net, Request(mac, requested, at)))
  {
    hide ExpiryOf;
  }

  /** One message keeps every lease that is still running. */
  lemma MessageKeeps(w: World, net: Address, m: Message)
    requires Sound(w) && Timely(w, m)
    ensures Sound(Next(w, net, m))
  {
    match m
    case Discover(mac, ticks) =>
      hide Scan, Held, Spaced;
      forall i | 0 <= i < |w.acks| ensures Held(Next(w, net, m), w.acks[i]) {
        DiscoverHeld(w, net, mac, ticks, w.acks[i]);
      }
    case Request(mac, requested, at) => RequestKeeps(w, net, mac, requested, at);
  }

  predicate InOrder(w: World, net: Address, messages: seq<Message>)
    requires |w.since| == MAX_IP
    decreases |messages|
  {
    messages != [] ==> Timely(w, messages[0]) && InOrder(Next(w, net, messages[0]), net, messages[1..])
  }

  function After(w: World, net: Address, messages: seq<Message>): World
    requires |w.since| == MAX_IP && InOrder(w, net, messages)
    decreases |messages|
  {
    if messages == [] then w else After(Next(w, net, messages[0]), net, messages[1..])
  }

  lemma {:induction false} HistorySound(w: World, net: Address, messages: seq<Message>)
    requires Sound(w) && InOrder(w, net, messages)
    ensures Sound(After(w, net, messages))
    decreases |messages|
  {
    if messages != [] {
      hide Held, Spaced;
      MessageKeeps(w, net, messages[0]);
      hide Next;
      HistorySound(Next(w, net, messages[0]), net, messages[1..]);
    }
  }

  /** A server as it starts up. */
  function Fresh(now: nat): World {
    World(seq(MAX_IP, _ => Lease(NoMac(), 0)), [], now, seq(MAX_IP, _ => 0))
  }

  /** Over every sequence of messages, once a client with a MAC address has been acknowledged an address,
      no other is acknowledged it before the lease time has passed. */
  lemma LeaseExclusive(net: Address, start: nat, messages: seq<Message>, i: nat, j: nat)
    requires InOrder(Fresh(start), net, messages)
    requires var acks := After(Fresh(start), net, messages).acks; i < j < |acks|
    ensures var acks := After(Fresh(start), net, messages).acks;
            acks[i].slot == acks[j].slot && acks[i].mac != NoMac() && acks[j].mac != acks[i].mac ==>
            acks[j].time >= acks[i].time + LEASE_MS
  {
    HistorySound(Fresh(start), net, messages);
  }

  /** An address offered and then asked for is acknowledged. */
  lemma OfferStands(table: Table, net: Address, mac: Mac, ticks: seq<nat>, at: nat)
    requires |ticks| == MAX_IP
    ensures var (after, offer) := Scan(table, mac, ticks, 0, MAX_IP);
            offer < MAX_IP ==>
            Granted(after, net, mac, Some(net[..3] + [BASE_IP + offer]), at)
            == (after[offer := Lease(mac, ExpiryOf(at))], Some(offer))
  {
    hide Scan, Expired, ExpiryOf, Chosen, Cleared, Granted;
    ScanFrom(table, mac, ticks, 0);
    var (after, offer) := Scan(table, mac, ticks, 0, MAX_IP);
    if offer < MAX_IP { GrantedOffer(after, net, mac, offer, at); }
  }

  lemma GrantedOffer(table: Table, net: Address, mac: Mac, slot: nat, at: nat)
    requires slot < MAX_IP && (table[slot].mac == mac || table[slot].mac == NoMac())
    ensures Granted(table, net, mac, Some(net[..3] + [BASE_IP + slot]), at)
         == (table[slot := Lease(mac, ExpiryOf(at))], Some(slot))
  {
    hide ExpiryOf;
    var requested := net[..3] + [BASE_IP + slot];
    assert requested[..3] == net[..3] && requested[3] == BASE_IP + slot;
  }
}
