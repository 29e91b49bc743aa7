/** The USB device with its controller, its host and the main program. */
module UsbRun {
  import opened Wrappers
  import opened UsbDescriptors
  import opened UsbDevice

  /** The device; what is pending (a setup packet, finished buffers by BUFF_STATUS bit, a bus reset); whether
      main has armed EP1; and a record: addresses requested since the last reset was handled,
      packets taken from and given to the host on EP1 and EP2, the data PIDs they used, and a trace of EP0. */
  datatype World = World(
    device: Device, setup: Option<Setup>, finished: seq<bool>, reset: bool, armed: bool,
    requested: set<Byte>, taken: seq<Packet>, given: seq<Packet>, pids1: seq<nat>, pids2: seq<nat>, trace: Trace)

  /** EP0, requests being numbered from 1 as they are handled: how many there have been; which of them armed
      EP0 IN last and which asked last for an address; the requests whose packets have gone out on EP0 IN and
      whose completion has not been handled; and every address loaded so far. */
  datatype Trace = Trace(handled: nat, armedBy: nat, asker: nat, completed: seq<nat>, loads: seq<Load>)

  /** An address loaded: which request asked for it, and whose packets the completion just handled was for;
      BUFF_STATUS has but one bit for them all. */
  datatype Load = Load(asker: nat, completed: seq<nat>)

  const BIT_EP0_IN := 0
  const BIT_EP0_OUT := 1
  const BIT_EP1_OUT := 3
  const BIT_EP2_IN := 4

  datatype Move =
    | HostSetup(p: Setup) | HostReset
    | Ep0InDone | Ep0OutDone | Ep1Data(packet: Packet) | Ep2Data
    | Interrupt(setup: bool, buffers: bool, reset: bool)
    | MainArms

  /** A transaction needs an available buffer. An interrupt handles what it finds as it reads the status: one that
      passes something pending by stands for an interrupt in which that came after the reading. */
  predicate Enabled(w: World, v: Move)
    requires Shaped(w.device)
  {
    match v
    case HostSetup(p) => KnownString(p)
    case HostReset => true
    case Ep0InDone => w.device.endpoints[EP0_IN].control.available
    case Ep0OutDone => w.device.endpoints[EP0_OUT].control.available
    case Ep1Data(_) => w.device.endpoints[EP1_OUT].control.available
    case Ep2Data => w.device.endpoints[EP2_IN].control.available
    case Interrupt(setup, _, reset) => (setup ==> w.setup.Some?) && (reset ==> w.reset)
    case MainArms => w.device.configured && !w.armed
  }

  /** The controller takes the buffer back and flags it. */
  function Completed(w: World, ep: nat, bit: nat): World
    requires Shaped(w.device) && ep < ENDPOINTS && |w.finished| == 32 && bit < 32
  {
    var e := w.device.endpoints[ep];
    w.(device := w.device.(endpoints := w.device.endpoints[ep := e.(control := e.control.(available := false))]),
       finished := w.finished[bit := true])
  }

  /** Data from the host is stored with its length. */
  function Filled(w: World, packet: Packet): World
    requires Shaped(w.device)
  {
    var e := w.device.endpoints[EP1_OUT];
    var e := Endpoint(e.nextPid, e.control.(full := true, len := |packet|), packet + e.data[|packet|..]);
    w.(device := w.device.(endpoints := w.device.endpoints[EP1_OUT := e]))
  }

  function Nothing(): (bits: seq<bool>)
    ensures |bits| == 32 && forall i :: 0 <= i < 32 ==> !bits[i]
  {
    seq(32, _ => false)
  }

  function StatusOf(w: World, setup: bool, buffers: bool, reset: bool): Status {
    Status(if setup then w.setup else None, if buffers then Some(w.finished) else None, reset)
  }

  function Served(w: World, setup: bool, buffers: bool, reset: bool): (next: World)
    requires Shaped(w.device) && |w.finished| == 32 && Enabled(w, Interrupt(setup, buffers, reset))
    ensures Shaped(next.device) && |next.finished| == 32
  {
    var status := StatusOf(w, setup, buffers, reset);
    w.(device := Interrupted(w.device, status),
       setup := if setup then None else w.setup,
       finished := if buffers then Nothing() else w.finished,
       reset := w.reset && !reset,
       requested := if reset then {} else w.requested + Asked(status.setup),
       trace := Traced(w, setup, buffers))
  }

  function Next(w: World, v: Move): (next: World)
    requires Shaped(w.device) && |w.finished| == 32 && Enabled(w, v)
    ensures Shaped(next.device) && |next.finished| == 32
  {
    match v
    case HostSetup(p) => w.(setup := Some(p))
    case HostReset => w.(reset := true)
    case Ep0InDone =>
      Completed(w, EP0_IN, BIT_EP0_IN).(trace := w.trace.(completed := w.trace.completed + [w.trace.armedBy]))
    case Ep0OutDone => Completed(w, EP0_OUT, BIT_EP0_OUT)
    case Ep1Data(packet) =>
      var pid := w.device.endpoints[EP1_OUT].control.pid;
      Completed(Filled(w, packet), EP1_OUT, BIT_EP1_OUT).(taken := w.taken + [packet], pids1 := w.pids1 + [pid])
    case Ep2Data =>
      var e := w.device.endpoints[EP2_IN];
      Completed(w, EP2_IN, BIT_EP2_IN)
        .(given := w.given + [e.data[..e.control.len]], pids2 := w.pids2 + [e.control.pid])
    case Interrupt(setup, buffers, reset) => Served(w, setup, buffers, reset)
    case MainArms => w.(device := Started(w.device, EP1_OUT, [], 64), armed := true)
  }

  function Asked(setup: Option<Setup>): set<Byte> {
    if setup.Some? && setup.value.requestType == DIR_OUT && setup.value.request == SET_ADDRESS then
      {setup.value.value % 256}
    else {}
  }

  predicate AsksDescriptor(p: Setup) {
    p.requestType == DIR_IN && p.request == GET_DESCRIPTOR && DT_DEVICE <= p.value / 256 <= DT_STRING
  }

  predicate Answered(p: Setup) {
    p.requestType == DIR_OUT || AsksDescriptor(p)
  }

  /** The trace after a request has been handled. */
  function Numbered(t: Trace, p: Setup): Trace {
    var n := t.handled + 1;
    t.(handled := n, armedBy := if Answered(p) then n else t.armedBy,
       asker := if Asked(Some(p)) != {} then n else t.asker)
  }

  /** The trace after an interrupt: the request comes before the finished buffers. */
  function Traced(w: World, setup: bool, buffers: bool): Trace
    requires |w.finished| == 32 && (setup ==> w.setup.Some?)
  {
    var t := if setup then Numbered(w.trace, w.setup.value) else w.trace;
    if !buffers then t
    else if Loads(w, setup, buffers) then t.(completed := [], loads := t.loads + [Load(t.asker, t.completed)])
    else t.(completed := [])
  }

  /** A request that asks for an address is pending. */
  predicate Asks(w: World) {
    Asked(w.setup) != {}
  }

  /** An interrupt that handles this loads an address. */
  predicate Loads(w: World, setup: bool, buffers: bool)
    requires |w.finished| == 32
  {
    buffers && w.finished[BIT_EP0_IN] && (w.device.shouldSetAddress || (setup && Asks(w)))
  }

  function Origin(): World {
    World(PowerOn(), None, Nothing(), false, false, {}, [], [], [], [], Trace(0, 0, 0, [], []))
  }

  predicate Begun(w: World) {
    w == Origin()
  }

  // ----- What every run keeps

  predicate Addressed(w: World) {
    && (w.device.addressRegister == 0 || w.device.addressRegister in w.requested)
    && (w.device.shouldSetAddress ==> w.device.devAddr in w.requested)
  }

  /** PIDs go 0, 1, 0, 1, ... */
  predicate Alternating(pids: seq<nat>) {
    forall k :: 0 <= k < |pids| ==> pids[k] == k % 2
  }

  /** Where the one packet in flight is: nowhere yet, expected on EP1, taken from EP1, waiting on EP2, given. */
  datatype Place = Unarmed | Expected | Taken | Waiting | Given

  predicate Only(w: World, ep1: bool, done1: bool, ep2: bool, done2: bool)
    requires Shaped(w.device) && |w.finished| == 32
  {
    && w.device.endpoints[EP1_OUT].control.available == ep1 && w.finished[BIT_EP1_OUT] == done1
    && w.device.endpoints[EP2_IN].control.available == ep2 && w.finished[BIT_EP2_IN] == done2
  }

  predicate At(w: World, place: Place)
    requires Shaped(w.device) && |w.finished| == 32
  {
    var e1, e2 := w.device.endpoints[EP1_OUT], w.device.endpoints[EP2_IN];
    && w.armed == !place.Unarmed?
    && w.pids1 == Pids(|w.taken|) && w.pids2 == Pids(|w.given|)
    && w.given <= w.taken
    && e1.nextPid == (|w.taken| + if place.Expected? then 1 else 0) % 2
    && e2.nextPid == (|w.given| + if place.Waiting? then 1 else 0) % 2
    && match place
       case Unarmed => Only(w, false, false, false, false) && w.taken == []
       case Expected => Only(w, true, false, false, false) && |w.given| == |w.taken| && e1.control.pid == |w.taken| % 2
                         && e1.control.len == 64 && !e1.control.full
       case Taken => Only(w, false, true, false, false) && |w.given| + 1 == |w.taken|
                     && e1.data[..e1.control.len] == w.taken[|w.given|]
       case Waiting => Only(w, false, false, true, false) && |w.given| + 1 == |w.taken|
                       && e2.control.pid == |w.given| % 2 && e2.data[..e2.control.len] == w.taken[|w.given|]
       case Given => Only(w, false, false, false, true) && |w.given| == |w.taken|
  }

  function Pids(n: nat): (pids: seq<nat>)
    ensures |pids| == n && Alternating(pids)
  {
    seq(n, k => k % 2)
  }

  /** Only the four endpoints ever finish a buffer. */
  predicate Known(finished: seq<bool>) {
    |finished| == 32 && forall bit :: 0 <= bit < 32 && finished[bit] ==> bit == 0 || bit == 1 || bit == 3 || bit == 4
  }

  /** The trace goes with the status bits, and numbers only requests that have been handled. */
  predicate Followed(w: World)
    requires |w.finished| == 32
  {
    && (w.finished[BIT_EP0_IN] <==> w.trace.completed != [])
    && w.trace.armedBy <= w.trace.handled && forall r <- w.trace.completed :: r <= w.trace.handled
  }

  ghost predicate Sound(w: World) {
    Shaped(w.device) && Known(w.finished) && Addressed(w) && Followed(w) && exists place :: At(w, place)
  }

  // ----- What a completion arms

  /** After a data packet on EP0 IN the status stage is prepared, an empty packet on EP0 OUT; after a status packet
      nothing, but a new address may be loaded. A packet from EP1 is armed on EP2 as it is; one gone out on EP2 arms
      EP1 for 64 bytes. */
  lemma CompletionArms(d: Device)
    requires Shaped(d)
    ensures var e, d' := d.endpoints[EP0_OUT], BufferDone(d, EP0_IN);
            d' == if d.shouldSetAddress then d.(addressRegister := d.devAddr, shouldSetAddress := false)
                  else d.(endpoints := d.endpoints[EP0_OUT :=
                            Endpoint(1 - e.nextPid, Control(true, false, e.nextPid, 0), e.data)])
    ensures BufferDone(d, EP0_OUT) == d
    ensures var e1, e2 := d.endpoints[EP1_OUT], d.endpoints[EP2_IN];
            var e := BufferDone(d, EP1_OUT).endpoints[EP2_IN];
            && e.nextPid == 1 - e2.nextPid && e.control == Control(true, true, e2.nextPid, e1.control.len)
            && e.data[..e1.control.len] == e1.data[..e1.control.len]
            && BufferDone(d, EP1_OUT) == d.(endpoints := d.endpoints[EP2_IN := e])
    ensures var e := d.endpoints[EP1_OUT];
            BufferDone(d, EP2_IN) == d.(endpoints := d.endpoints[EP1_OUT :=
              Endpoint(1 - e.nextPid, Control(true, false, e.nextPid, 64), e.data)])
  {
  }

  // ----- The order buffers are handled in

  lemma {:induction false} RestQuiet(d: Device, buffers: seq<bool>, bit: nat)
    requires Shaped(d) && Known(buffers) && 5 <= bit <= 32
    ensures BuffersHandled(d, buffers, bit) == d
    decreases 32 - bit
  {
    if bit < 32 { RestQuiet(d, buffers, bit + 1); }
  }

  /** EP0 IN, EP0 OUT, EP1 OUT, EP2 IN. */
  lemma BuffersInOrder(d: Device, buffers: seq<bool>)
    requires Shaped(d) && Known(buffers)
    ensures var d1 := if buffers[0] then BufferDone(d, EP0_IN) else d;
            var d2 := if buffers[3] then BufferDone(d1, EP1_OUT) else d1;
            BuffersHandled(d, buffers, 0) == if buffers[4] then BufferDone(d2, EP2_IN) else d2
  {
    hide Started;
    var d1 := BufferBit(d, buffers, 0);
    var d2 := BufferBit(d1, buffers, 3);
    var d3 := BufferBit(d2, buffers, 4);
    assert BuffersHandled(d, buffers, 0) == BuffersHandled(d1, buffers, 1);
    assert BufferBit(d1, buffers, 1) == d1 && BufferBit(d1, buffers, 2) == d1;
    assert BuffersHandled(d1, buffers, 1) == BuffersHandled(d1, buffers, 2) == BuffersHandled(d1, buffers, 3);
    assert BuffersHandled(d1, buffers, 3) == BuffersHandled(d2, buffers, 4);
    assert BuffersHandled(d2, buffers, 4) == BuffersHandled(d3, buffers, 5);
    RestQuiet(d3, buffers, 5);
  }

  // ----- Each move

  /** EP0 keeps to itself. */
  predicate BulkSame(d: Device, d': Device)
    requires Shaped(d) && Shaped(d')
  {
    d'.endpoints[EP1_OUT] == d.endpoints[EP1_OUT] && d'.endpoints[EP2_IN] == d.endpoints[EP2_IN]
  }

  lemma SetupBulk(d: Device, p: Setup)
    requires Shaped(d)
    ensures BulkSame(d, SetupHandled(d, p))
  {
  }

  lemma AtSame(w: World, w': World, place: Place)
    requires Shaped(w.device) && Shaped(w'.device) && |w.finished| == |w'.finished| == 32 && At(w, place)
    requires BulkSame(w.device, w'.device) && w'.armed == w.armed
    requires w'.taken == w.taken && w'.given == w.given && w'.pids1 == w.pids1 && w'.pids2 == w.pids2
    requires w'.finished[BIT_EP1_OUT] == w.finished[BIT_EP1_OUT] && w'.finished[BIT_EP2_IN] == w.finished[BIT_EP2_IN]
    ensures At(w', place)
  {
    hide Pids;
  }

  /** What handling finished buffers does to the bulk pair and to the address. */
  function Echoed(place: Place): Place {
    match place
    case Taken => Waiting
    case Given => Expected
    case _ => place
  }

  lemma BuffersAddress(d: Device, buffers: seq<bool>)
    requires Shaped(d) && Known(buffers)
    ensures var d' := BuffersHandled(d, buffers, 0);
            && d'.addressRegister ==
               (if buffers[BIT_EP0_IN] && d.shouldSetAddress then d.devAddr else d.addressRegister)
            && d'.devAddr == d.devAddr && d'.shouldSetAddress == (d.shouldSetAddress && !buffers[BIT_EP0_IN])
            && d'.configured == d.configured
  {
    BuffersInOrder(d, buffers);
    hide BuffersHandled;
  }

  lemma Ep0Bulk(d: Device)
    requires Shaped(d)
    ensures BulkSame(d, BufferDone(d, EP0_IN))
  {
  }

  lemma BulkFollows(d: Device, d': Device, ep: nat)
    requires Shaped(d) && Shaped(d') && BulkSame(d, d') && (ep == EP1_OUT || ep == EP2_IN)
    ensures BulkSame(BufferDone(d, ep), BufferDone(d', ep))
  {
  }

  lemma BuffersBulk(d: Device, buffers: seq<bool>)
    requires Shaped(d) && Known(buffers) && !(buffers[BIT_EP1_OUT] && buffers[BIT_EP2_IN])
    ensures BulkSame(BuffersHandled(d, buffers, 0),
                     if buffers[BIT_EP1_OUT] then BufferDone(d, EP1_OUT)
                     else if buffers[BIT_EP2_IN] then BufferDone(d, EP2_IN) else d)
  {
    hide BuffersHandled, BufferDone;
    BuffersInOrder(d, buffers);
    var d1 := if buffers[0] then BufferDone(d, EP0_IN) else d;
    Ep0Bulk(d);
    BulkFollows(d1, d, EP1_OUT);
    BulkFollows(d1, d, EP2_IN);
  }

  /** Handling the finished buffers moves the packet on: what was taken waits on EP2, and once it is given
      EP1 is armed again. */
  lemma BuffersMove(w: World, w': World, place: Place)
    requires Shaped(w.device) && Known(w.finished) && At(w, place)
    requires w' == w.(device := BuffersHandled(w.device, w.finished, 0), finished := Nothing())
    ensures At(w', Echoed(place))
  {
    hide BuffersHandled, Pids;
    BuffersBulk(w.device, w.finished);
    if place.Taken? {
      var e := w.device.endpoints[EP1_OUT];
      var sent := w'.device.endpoints[EP2_IN];
      assert sent.data[..e.control.len] == e.data[..e.control.len];
    }
  }

  lemma InterruptBulk(w: World, setup: bool, buffers: bool, reset: bool, place: Place)
    requires Shaped(w.device) && Known(w.finished) && At(w, place) && Enabled(w, Interrupt(setup, buffers, reset))
    ensures At(Next(w, Interrupt(setup, buffers, reset)), if buffers then Echoed(place) else place)
  {
    hide SetupHandled, BuffersHandled, At;
    var w1 := if setup then w.(device := SetupHandled(w.device, w.setup.value)) else w;
    if setup { SetupBulk(w.device, w.setup.value); AtSame(w, w1, place); }
    var w2 := if buffers then w1.(device := BuffersHandled(w1.device, w1.finished, 0), finished := Nothing()) else w1;
    if buffers { BuffersMove(w1, w2, place); }
    AtSame(w2, Next(w, Interrupt(setup, buffers, reset)), if buffers then Echoed(place) else place);
  }

  lemma SetupAddress(d: Device, p: Setup)
    requires Shaped(d)
    ensures var d' := SetupHandled(d, p);
            var asked := Asked(Some(p)) != {};
            && d'.addressRegister == d.addressRegister
            && d'.devAddr == (if asked then p.value % 256 else d.devAddr)
            && d'.shouldSetAddress == (asked || d.shouldSetAddress)
  {
    assert p.value % 256 in {p.value % 256};
  }

  /** Every request that is answered at all is answered on EP0 IN with a full DATA1 buffer no longer than the
      host allows; a request without data gets a zero-length one; the rest of the device stands still. */
  lemma SetupAnswered(d: Device, p: Setup)
    requires Shaped(d)
    ensures var after := SetupHandled(d, p);
            var control := after.endpoints[EP0_IN].control;
            && (p.requestType == DIR_OUT ==> control == Control(true, true, 1, 0))
            && (AsksDescriptor(p) ==>
                control.available && control.full && control.pid == 1 && control.len <= p.length)
            && (p.requestType != DIR_OUT && !AsksDescriptor(p) ==> control == d.endpoints[EP0_IN].control)
            && BulkSame(d, after) && after.endpoints[EP0_OUT] == d.endpoints[EP0_OUT]
            && after.configured == (d.configured || (p.requestType == DIR_OUT && p.request == SET_CONFIGURATION))
  {
    SetupBulk(d, p);
  }

  /** And the buffer holds the descriptor asked for, as far as the host takes it: 18 bytes of the device's; all 32
      bytes of the configuration or, if the host takes fewer, the first 9; and 4, 26 or 34 of a string's. */
  lemma DescriptorSent(d: Device, p: Setup)
    requires Shaped(d) && AsksDescriptor(p) && KnownString(p)
    ensures var e := SetupHandled(d, p).endpoints[EP0_IN];
            var sent, i := e.data[..e.control.len], p.value % 256;
            && e.control == Control(true, true, 1, |sent|)
            && match p.value / 256
               case 1 => |sent| == Min(18, p.length) && sent <= DeviceBytes()
               case 2 => |sent| == (if p.length >= 32 then 32 else Min(9, p.length)) && sent <= Configuration(32)
               case _ =>
                 && |sent| == Min(match i case 0 => 4 case 1 => 26 case _ => 34, p.length)
                 && sent <= if i == 0 then [4, 3, 0x09, 0x04] else StringBytes(Text(i - 1))
  {
    hide DeviceBytes, Configuration, Text, Wide, LanguageBytes, StringBytes, Answer;
    AnswerLengths(p);
    var data := Answer(p).value;
    var e := SetupHandled(d, p).endpoints[EP0_IN];
    assert e.data[..|data|] == data;
  }

  /** The address registers after an interrupt. */
  lemma InterruptAddress(w: World, setup: bool, buffers: bool, reset: bool)
    requires Shaped(w.device) && Known(w.finished) && Addressed(w) && Enabled(w, Interrupt(setup, buffers, reset))
    ensures Addressed(Next(w, Interrupt(setup, buffers, reset)))
  {
    hide SetupHandled, BuffersHandled;
    var d1 := if setup then SetupHandled(w.device, w.setup.value) else w.device;
    if setup { SetupAddress(w.device, w.setup.value); }
    if buffers { BuffersAddress(d1, w.finished); }
  }

  lemma TakenBulk(w: World, packet: Packet, place: Place)
    requires Shaped(w.device) && Known(w.finished) && At(w, place) && Enabled(w, Ep1Data(packet))
    ensures At(Next(w, Ep1Data(packet)), Taken) && Known(Next(w, Ep1Data(packet)).finished)
  {
    assert Pids(|w.taken|) + [|w.taken| % 2] == Pids(|w.taken| + 1);
    hide Pids;
  }

  lemma GivenBulk(w: World, place: Place)
    requires Shaped(w.device) && Known(w.finished) && At(w, place) && Enabled(w, Ep2Data)
    ensures At(Next(w, Ep2Data), Given) && Known(Next(w, Ep2Data).finished)
  {
    assert Pids(|w.given|) + [|w.given| % 2] == Pids(|w.given| + 1);
    hide Pids;
  }

  lemma ArmsBulk(w: World, place: Place)
    requires Shaped(w.device) && Known(w.finished) && At(w, place) && Enabled(w, MainArms)
    ensures At(Next(w, MainArms), Expected)
  {
    hide Pids;
  }

  lemma QuietKeeps(w: World, v: Move, place: Place)
    requires Shaped(w.device) && Known(w.finished) && At(w, place) && Enabled(w, v)
    requires v.HostSetup? || v.HostReset? || v.Ep0InDone? || v.Ep0OutDone?
    ensures At(Next(w, v), place) && Known(Next(w, v).finished) && Shaped(Next(w, v).device)
  {
    hide Pids;
  }

  lemma FollowedKeeps(w: World, v: Move)
    requires Shaped(w.device) && |w.finished| == 32 && Followed(w) && Enabled(w, v)
    ensures Followed(Next(w, v))
  {
    hide Interrupted;
  }

  lemma MoveKeeps(w: World, v: Move)
    requires Sound(w) && Enabled(w, v)
    ensures Sound(Next(w, v))
  {
    var place :| At(w, place);
    FollowedKeeps(w, v);
    hide At, Interrupted, Followed;
    match v
    case Interrupt(setup, buffers, reset) =>
      InterruptBulk(w, setup, buffers, reset, place);
      InterruptAddress(w, setup, buffers, reset);
    case MainArms => ArmsBulk(w, place);
    case Ep1Data(packet) => TakenBulk(w, packet, place);
    case Ep2Data => GivenBulk(w, place);
    case _ => QuietKeeps(w, v, place);
  }

  predicate Allowed(w: World, moves: seq<Move>)
    requires Shaped(w.device) && |w.finished| == 32
    decreases |moves|
  {
    moves != [] ==> Enabled(w, moves[0]) && Allowed(Next(w, moves[0]), moves[1..])
  }

  function After(w: World, moves: seq<Move>): (end: World)
    requires Shaped(w.device) && |w.finished| == 32 && Allowed(w, moves)
    ensures Shaped(end.device) && |end.finished| == 32
    decreases |moves|
  {
    if moves == [] then w else After(Next(w, moves[0]), moves[1..])
  }

  lemma {:induction false} RunSound(w: World, moves: seq<Move>)
    requires Sound(w) && Allowed(w, moves)
    ensures Sound(After(w, moves))
    decreases |moves|
  {
    hide At, Enabled, Addressed;
    if moves != [] {
      MoveKeeps(w, moves[0]);
      RunSound(Next(w, moves[0]), moves[1..]);
    }
  }

  lemma BegunSound(w: World)
    requires Begun(w)
    ensures Sound(w)
  {
    assert At(w, Unarmed);
  }

  /** The address register is zero or an address asked for since the last bus reset; the PIDs on each bulk
      endpoint alternate from DATA0; every packet is given back in order, at most one behind; and once
      main has armed EP1 and no bulk completion is waiting for its interrupt, exactly one of the two
      endpoints is available, EP1 for a packet of any length. */
  predicate Faithful(w: World)
    requires Shaped(w.device) && |w.finished| == 32
  {
    && (w.device.addressRegister == 0 || w.device.addressRegister in w.requested)
    && Alternating(w.pids1) && |w.pids1| == |w.taken| && Alternating(w.pids2) && |w.pids2| == |w.given|
    && w.given <= w.taken && |w.taken| <= |w.given| + 1
    && var ep1, ep2 := w.device.endpoints[EP1_OUT].control.available, w.device.endpoints[EP2_IN].control.available;
    && !(ep1 && ep2)
    && (ep1 ==> w.device.endpoints[EP1_OUT].control.len == 64)
    && (w.armed && !w.finished[BIT_EP1_OUT] && !w.finished[BIT_EP2_IN] ==> ep1 || ep2)
  }

  /** In every run of host, controller, interrupts and main program. */
  lemma EveryRun(start: World, moves: seq<Move>)
    requires Begun(start) && Allowed(start, moves)
    ensures Faithful(After(start, moves))
  {
    BegunSound(start);
    RunSound(start, moves);
    SoundFaithful(After(start, moves));
  }

  lemma SoundFaithful(w: World)
    requires Sound(w)
    ensures Faithful(w)
  {
    var place :| At(w, place);
    hide Alternating;
  }

  /** Nothing but an interrupt touches the address register: a reset clears it, and a request is loaded when
      an EP0 IN transfer is found complete. */
  lemma AddressExact(w: World, v: Move)
    requires Sound(w) && Enabled(w, v)
    ensures Next(w, v).device.addressRegister ==
            match v
            case Interrupt(setup, buffers, reset) =>
              if reset then 0
              else
                var asked := setup && Asked(w.setup) != {};
                if buffers && w.finished[BIT_EP0_IN] && (asked || w.device.shouldSetAddress) then
                  if asked then w.setup.value.value % 256 else w.device.devAddr
                else w.device.addressRegister
            case _ => w.device.addressRegister
  {
    hide SetupHandled, BuffersHandled, At;
    match v
    case Interrupt(setup, buffers, reset) =>
      var d1 := if setup then SetupHandled(w.device, w.setup.value) else w.device;
      if setup { SetupAddress(w.device, w.setup.value); }
      if buffers { BuffersAddress(d1, w.finished); }
    case _ =>
  }

  // ----- Section 9.4.6 of the USB 2.0 specification: the address changes after the status stage

  /** No address is loaded, asked for or dropped in the course of these moves. */
  predicate Waits(w: World, moves: seq<Move>): (waits: bool)
    requires Shaped(w.device) && |w.finished| == 32
    ensures waits ==> Allowed(w, moves)
    decreases |moves|
  {
    moves != [] ==>
      var v := moves[0];
      && Enabled(w, v)
      && (v.Interrupt? ==> !v.reset && !(v.setup && Asks(w)) && !Loads(w, v.setup, v.buffers))
      && Waits(Next(w, v), moves[1..])
  }

  /** A further request that arms EP0 IN is handled. */
  predicate Rearms(w: World, v: Move) {
    v.Interrupt? && v.setup && w.setup.Some? && Answered(w.setup.value)
  }

  /** None of those is handled before the first packet goes out on EP0 IN. */
  predicate Undisturbed(w: World, moves: seq<Move>)
    requires Shaped(w.device) && |w.finished| == 32 && Waits(w, moves)
    decreases |moves|
  {
    moves == [] || moves[0].Ep0InDone? || (!Rearms(w, moves[0]) && Undisturbed(Next(w, moves[0]), moves[1..]))
  }

  /** Request `r` has asked for the address `a` and is waiting for it. */
  predicate Pending(w: World, r: nat, a: Byte, loads: seq<Load>)
    requires Shaped(w.device)
  {
    && w.device.shouldSetAddress && w.device.devAddr == a
    && w.trace.asker == r && w.trace.loads == loads && r <= w.trace.handled
  }

  /** An interrupt that neither loads an address, drops it nor hears another asked for. */
  lemma PendingServed(w: World, setup: bool, buffers: bool)
    requires Sound(w) && w.device.shouldSetAddress && Enabled(w, Interrupt(setup, buffers, false))
    requires !(setup && Asks(w)) && !Loads(w, setup, buffers)
    ensures var d := Served(w, setup, buffers, false).device; d.shouldSetAddress && d.devAddr == w.device.devAddr
  {
    hide At, Addressed, SetupHandled, BuffersHandled, Followed, Traced;
    if setup { SetupAddress(w.device, w.setup.value); }
    if buffers {
      BuffersAddress(if setup then SetupHandled(w.device, w.setup.value) else w.device, w.finished);
    }
  }

  lemma PendingNext(w: World, v: Move, r: nat, a: Byte, loads: seq<Load>)
    requires Sound(w) && Pending(w, r, a, loads) && Waits(w, [v])
    ensures Sound(Next(w, v)) && Pending(Next(w, v), r, a, loads)
    ensures Next(w, v).trace.completed == w.trace.completed + if v.Ep0InDone? then [w.trace.armedBy] else []
    ensures Next(w, v).trace.armedBy == if Rearms(w, v) then w.trace.handled + 1 else w.trace.armedBy
  {
    MoveKeeps(w, v);
    if v.Interrupt? { PendingServed(w, v.setup, v.buffers); }
    hide At, Addressed, Interrupted;
  }

  /** While a request waits, the packets gone out grow: its own status packet is among them exactly when one
      has gone out with no further request before it. */
  lemma {:induction false} PacketsGone(w: World, moves: seq<Move>, r: nat, a: Byte, loads: seq<Load>)
    requires Sound(w) && Pending(w, r, a, loads) && Waits(w, moves)
    ensures var end := After(w, moves);
            && Sound(end) && Pending(end, r, a, loads) && w.trace.completed <= end.trace.completed
            && (end.trace.completed == w.trace.completed <==> Ep0InDone !in moves)
            && (w.trace.armedBy == r && r !in w.trace.completed ==>
                  var own := Ep0InDone in moves && Undisturbed(w, moves);
                  && (r in end.trace.completed <==> own)
                  && (w.trace.completed == [] && Ep0InDone in moves ==> (end.trace.completed[0] == r <==> own)))
            && (w.trace.armedBy != r && r !in w.trace.completed ==> r !in end.trace.completed)
    decreases |moves|
  {
    hide At, Addressed, Followed, Enabled, Next, Answered, Loads;
    if moves != [] {
      var v := moves[0];
      assert Waits(w, [v]);
      PendingNext(w, v, r, a, loads);
      PacketsGone(Next(w, v), moves[1..], r, a, loads);
      assert moves == [v] + moves[1..];
    }
  }

  lemma Received(w: World, buffers: bool)
    requires Sound(w) && Asks(w) && !Loads(w, true, buffers)
    ensures var w1 := Next(w, Interrupt(true, buffers, false));
            && Sound(w1) && Pending(w1, w.trace.handled + 1, w.setup.value.value % 256, w.trace.loads)
            && w1.trace.armedBy == w.trace.handled + 1 && w1.trace.completed == w.trace.completed
            && w.trace.handled + 1 !in w.trace.completed
  {
    MoveKeeps(w, Interrupt(true, buffers, false));
    hide At, Addressed, SetupHandled, BuffersHandled;
    SetupAddress(w.device, w.setup.value);
    if buffers { BuffersAddress(SetupHandled(w.device, w.setup.value), w.finished); }
  }

  lemma Loaded(w: World, setup: bool, reset: bool, r: nat, a: Byte, loads: seq<Load>)
    requires Sound(w) && Pending(w, r, a, loads) && Enabled(w, Interrupt(setup, true, reset))
    requires w.finished[BIT_EP0_IN] && !(setup && Asks(w))
    ensures var end := Next(w, Interrupt(setup, true, reset));
            && end.trace.loads == loads + [Load(r, w.trace.completed)] && w.trace.completed != []
            && end.device.addressRegister == if reset then 0 else a
  {
    AddressExact(w, Interrupt(setup, true, reset));
    hide At, Addressed, Interrupted;
  }

  /** A request for an address that is not loaded by the interrupt that receives it is loaded by the next that
      handles an EP0 IN completion. Its own status packet has gone out by then exactly when some packet went
      out meanwhile and no further request was answered before that; and it is the first of the packets whose
      completion that interrupt handles exactly when besides no completion was pending as the request was
      received. Otherwise the device answers at the new address before the status stage. */
  lemma AddressTiming(start: World, before: seq<Move>, buffers: bool, during: seq<Move>, setup: bool, reset: bool)
    requires Begun(start) && Allowed(start, before)
    requires var w := After(start, before); Asks(w) && !Loads(w, true, buffers)
    requires Waits(Next(After(start, before), Interrupt(true, buffers, false)), during)
    requires var w2 := After(Next(After(start, before), Interrupt(true, buffers, false)), during);
             w2.finished[BIT_EP0_IN] && !(setup && Asks(w2)) && Enabled(w2, Interrupt(setup, true, reset))
    ensures var w := After(start, before);
            var w1 := Next(w, Interrupt(true, buffers, false));
            var end := Next(After(w1, during), Interrupt(setup, true, reset));
            var own, a, n := w.trace.handled + 1, w.setup.value.value % 256, |w.trace.loads|;
            && |end.trace.loads| == n + 1 && end.trace.loads[..n] == w.trace.loads
            && end.device.addressRegister == (if reset then 0 else a)
            && var load := end.trace.loads[n];
               && load.asker == own && load.completed != []
               && (own in load.completed <==> Ep0InDone in during && Undisturbed(w1, during))
               && (load.completed[0] == own <==> !w.finished[BIT_EP0_IN] && Undisturbed(w1, during))
  {
    hide At, Addressed, Next, Allowed;
    var w := After(start, before);
    var w1 := Next(w, Interrupt(true, buffers, false));
    var own, a := w.trace.handled + 1, w.setup.value.value % 256;
    BegunSound(start);
    RunSound(start, before);
    Received(w, buffers);
    PacketsGone(w1, during, own, a, w.trace.loads);
    Loaded(After(w1, during), setup, reset, own, a, w.trace.loads);
    if w.trace.completed != [] {
      assert After(w1, during).trace.completed[0] == w.trace.completed[0];
    }
  }

  /** The other way an address is loaded: an earlier EP0 IN completion is handled by the very interrupt that
      receives the request, which always is too early. */
  lemma AddressEarly(w: World, buffers: bool)
    requires Sound(w) && Asks(w)
    ensures var d := Next(w, Interrupt(true, buffers, false)).device;
            && (d.shouldSetAddress <==> !(buffers && w.finished[BIT_EP0_IN]))
            && (!d.shouldSetAddress ==> d.addressRegister == w.setup.value.value % 256)
    ensures var own := w.trace.handled + 1;
            Loads(w, true, buffers) ==>
              && own !in w.trace.completed
              && Next(w, Interrupt(true, buffers, false)).trace.loads == w.trace.loads + [Load(own, w.trace.completed)]
  {
    hide SetupHandled, BuffersHandled, At;
    SetupAddress(w.device, w.setup.value);
    if buffers { BuffersAddress(SetupHandled(w.device, w.setup.value), w.finished); }
  }

  // ----- Every address loaded is loaded in one of these two ways

  lemma {:induction false} AfterJoin(w: World, a: seq<Move>, b: seq<Move>)
    requires Shaped(w.device) && |w.finished| == 32
    ensures Allowed(w, a + b) <==> Allowed(w, a) && Allowed(After(w, a), b)
    ensures Allowed(w, a + b) ==> After(w, a + b) == After(After(w, a), b)
    decreases |a|
  {
    hide Enabled, Next;
    if a == [] {
      assert a + b == b;
    } else {
      assert (a + b)[1..] == a[1..] + b;
      if Enabled(w, a[0]) { AfterJoin(Next(w, a[0]), a[1..], b); }
    }
  }

  lemma {:induction false} WaitsOn(w: World, moves: seq<Move>, v: Move)
    requires Shaped(w.device) && |w.finished| == 32 && Waits(w, moves) && Waits(After(w, moves), [v])
    ensures Waits(w, moves + [v])
    decreases |moves|
  {
    hide Enabled, Next, Loads;
    if moves == [] {
      assert moves + [v] == [v];
    } else {
      assert (moves + [v])[1..] == moves[1..] + [v];
      WaitsOn(Next(w, moves[0]), moves[1..], v);
    }
  }

  /** Move `n` of the run received the request that waits at its end. */
  predicate ReceivedAt(start: World, moves: seq<Move>, n: nat)
    requires Shaped(start.device) && |start.finished| == 32 && n < |moves| && Allowed(start, moves[..n])
  {
    var w := After(start, moves[..n]);
    && Enabled(w, moves[n]) && moves[n].Interrupt? && moves[n].setup && !moves[n].reset
    && Asks(w) && !Loads(w, true, moves[n].buffers) && Waits(Next(w, moves[n]), moves[n + 1..])
  }

  /** What still asks for an address after a move asked before it, unless the move received it. */
  lemma AskedBefore(w: World, v: Move)
    requires Sound(w) && Enabled(w, v) && Next(w, v).device.shouldSetAddress
    ensures v.Interrupt? ==> !v.reset && !Loads(w, v.setup, v.buffers)
    ensures !(v.Interrupt? && v.setup && Asks(w)) ==> w.device.shouldSetAddress && Waits(w, [v])
  {
    hide At, Addressed, SetupHandled, BuffersHandled;
    if v.Interrupt? {
      if v.setup { SetupAddress(w.device, w.setup.value); }
      if v.buffers {
        BuffersAddress(if v.setup then SetupHandled(w.device, w.setup.value) else w.device, w.finished);
      }
    }
  }

  /** Whenever an address is waited for, AddressTiming tells of it: one move of the run received the request,
      and it has been waited for ever since. */
  lemma {:induction false} EveryLoad(start: World, moves: seq<Move>) returns (n: nat)
    requires Begun(start) && Allowed(start, moves) && After(start, moves).device.shouldSetAddress
    ensures n < |moves| && Allowed(start, moves[..n]) && ReceivedAt(start, moves, n)
    ensures After(start, moves) == After(Next(After(start, moves[..n]), moves[n]), moves[n + 1..])
    decreases |moves|
  {
    hide At, Addressed, Enabled, Next, Loads, Followed, Known;
    assert moves != [];
    var front, v := moves[..|moves| - 1], moves[|moves| - 1];
    assert moves == front + [v];
    AfterJoin(start, front, [v]);
    BegunSound(start);
    RunSound(start, front);
    var w := After(start, front);
    assert After(w, [v]) == Next(w, v);
    AskedBefore(w, v);
    if v.Interrupt? && v.setup && Asks(w) {
      n := |front|;
      assert moves[n + 1..] == [];
    } else {
      n := EveryLoad(start, front);
      assert front[..n] == moves[..n] && front[n + 1..] + [v] == moves[n + 1..];
      var w1 := Next(After(start, moves[..n]), moves[n]);
      WaitsOn(w1, front[n + 1..], v);
      AfterJoin(w1, front[n + 1..], [v]);
    }
  }

  // ----- Runs that show each case

  function SetAddress(a: Byte): Setup {
    Setup(DIR_OUT, SET_ADDRESS, a, 0)
  }

  /** GET_DESCRIPTOR for the device descriptor, and GET_STATUS, which the device does not answer. */
  function GetDevice(): Setup {
    Setup(DIR_IN, GET_DESCRIPTOR, DT_DEVICE * 256, 18)
  }

  function GetStatus(): Setup {
    Setup(DIR_IN, 0, 0, 2)
  }

  lemma AfterCons(w: World, v: Move, rest: seq<Move>)
    requires Shaped(w.device) && |w.finished| == 32 && Enabled(w, v) && Allowed(Next(w, v), rest)
    ensures Allowed(w, [v] + rest) && After(w, [v] + rest) == After(Next(w, v), rest)
  {
    assert ([v] + rest)[1..] == rest;
  }

  /** A request comes in and is handled. */
  function Asking(w: World, p: Setup): World
    requires Shaped(w.device) && |w.finished| == 32 && KnownString(p)
  {
    Next(Next(w, HostSetup(p)), Interrupt(true, false, false))
  }

  lemma AfterAsking(w: World, p: Setup, rest: seq<Move>)
    requires Shaped(w.device) && |w.finished| == 32 && KnownString(p) && Allowed(Asking(w, p), rest)
    ensures var moves := [HostSetup(p), Interrupt(true, false, false)] + rest;
            Allowed(w, moves) && After(w, moves) == After(Asking(w, p), rest)
  {
    hide SetupHandled;
    AfterCons(Next(w, HostSetup(p)), Interrupt(true, false, false), rest);
    AfterCons(w, HostSetup(p), [Interrupt(true, false, false)] + rest);
    assert [HostSetup(p)] + ([Interrupt(true, false, false)] + rest)
        == [HostSetup(p), Interrupt(true, false, false)] + rest;
  }

  lemma AskingDoes(w: World, p: Setup)
    requires Sound(w) && KnownString(p)
    ensures var end := Asking(w, p);
            var asks := Asked(Some(p)) != {};
            && Sound(end) && end.trace == Numbered(w.trace, p) && end.finished == w.finished
            && end.device.addressRegister == w.device.addressRegister
            && end.device.devAddr == (if asks then p.value % 256 else w.device.devAddr)
            && end.device.shouldSetAddress == (asks || w.device.shouldSetAddress)
            && end.device.endpoints[EP0_IN].control.available ==
               (Answered(p) || w.device.endpoints[EP0_IN].control.available)
            && end.device.endpoints[EP0_OUT] == w.device.endpoints[EP0_OUT]
  {
    MoveKeeps(w, HostSetup(p));
    MoveKeeps(Next(w, HostSetup(p)), Interrupt(true, false, false));
    SetupAddress(w.device, p);
    SetupAnswered(w.device, p);
    hide At, Addressed, SetupHandled, AsksDescriptor;
  }

  /** Handling the finished buffers loads the address. */
  lemma CompletionDoes(w: World)
    requires Sound(w) && w.finished[BIT_EP0_IN] && w.device.shouldSetAddress
    ensures var moves := [Interrupt(false, true, false)];
            Allowed(w, moves)
            && var end := After(w, moves);
               && end.trace.loads == w.trace.loads + [Load(w.trace.asker, w.trace.completed)]
               && end.device.addressRegister == w.device.devAddr
               && end.device.endpoints[EP0_OUT] == w.device.endpoints[EP0_OUT]
               && end.device.endpoints[EP0_IN] == w.device.endpoints[EP0_IN]
  {
    AddressExact(w, Interrupt(false, true, false));
    BuffersInOrder(w.device, w.finished);
    hide At, Addressed, BuffersHandled;
    AfterCons(w, Interrupt(false, true, false), []);
  }

  /** A packet goes out on EP0 IN and its completion is handled. */
  lemma PacketDoes(w: World)
    requires Sound(w) && w.device.endpoints[EP0_IN].control.available && w.device.shouldSetAddress
    ensures var moves := [Ep0InDone] + [Interrupt(false, true, false)];
            Allowed(w, moves)
            && var end := After(w, moves);
               && end.trace.loads == w.trace.loads + [Load(w.trace.asker, w.trace.completed + [w.trace.armedBy])]
               && end.device.addressRegister == w.device.devAddr
               && end.device.endpoints[EP0_OUT] == w.device.endpoints[EP0_OUT]
  {
    MoveKeeps(w, Ep0InDone);
    hide At, Addressed, Interrupted, Allowed, After;
    CompletionDoes(Next(w, Ep0InDone));
    AfterCons(w, Ep0InDone, [Interrupt(false, true, false)]);
  }

  /** The moves of Asking, and those that send a packet on EP0 IN and handle its completion. */
  function Ask(p: Setup): seq<Move> {
    [HostSetup(p), Interrupt(true, false, false)]
  }

  function Send(): seq<Move> {
    [Ep0InDone] + Handle()
  }

  function Handle(): seq<Move> {
    [Interrupt(false, true, false)]
  }

  lemma Numbers(t: Trace, a: Byte)
    ensures Numbered(t, SetAddress(a)) == t.(handled := t.handled + 1, armedBy := t.handled + 1, asker := t.handled + 1)
    ensures Numbered(t, GetDevice()) == t.(handled := t.handled + 1, armedBy := t.handled + 1)
    ensures Numbered(t, GetStatus()) == t.(handled := t.handled + 1)
    ensures Asked(Some(SetAddress(a))) != {} && Asked(Some(GetDevice())) == {} == Asked(Some(GetStatus()))
    ensures Answered(SetAddress(a)) && Answered(GetDevice()) && !Answered(GetStatus())
  {
    assert a in Asked(Some(SetAddress(a)));
  }

  /** The host gives the transfer up for another: the address is loaded by the data packet of the other request.
      Its own status packet never went out, and the other request's status stage is never prepared. */
  lemma NewSetupLoads(a: Byte)
    ensures var moves := Ask(SetAddress(a)) + (Ask(GetDevice()) + Send());
            Allowed(Origin(), moves)
            && var end := After(Origin(), moves);
               && end.trace.loads == [Load(1, [2])] && end.device.addressRegister == a
               && !end.device.endpoints[EP0_OUT].control.available
  {
    hide At, Addressed, Followed, Asking, Allowed, After, Numbered, Asked, Answered;
    BegunSound(Origin());
    var w1 := Asking(Origin(), SetAddress(a));
    AskingDoes(Origin(), SetAddress(a));
    Numbers(Origin().trace, a);
    AskingDoes(w1, GetDevice());
    Numbers(w1.trace, a);
    PacketDoes(Asking(w1, GetDevice()));
    AfterAsking(w1, GetDevice(), Send());
    AfterAsking(Origin(), SetAddress(a), Ask(GetDevice()) + Send());
    assert [] + [2] == [2] && [] + [Load(1, [2])] == [Load(1, [2])];
  }

  /** A request comes in; while it is being handled, the packet of an earlier one goes out. */
  function Late(p: Setup): seq<Move> {
    [HostSetup(p)] + ([Ep0InDone] + [Interrupt(true, false, false)])
  }

  /** The earlier request has been handled and its packet has gone out. */
  function Stale(): World {
    Next(Asking(Origin(), GetDevice()), Ep0InDone)
  }

  lemma StaleDoes()
    ensures Sound(Asking(Origin(), GetDevice())) && Enabled(Asking(Origin(), GetDevice()), Ep0InDone) && Sound(Stale())
    ensures Stale().trace == Trace(1, 1, 0, [1], []) && Stale().finished[BIT_EP0_IN]
  {
    hide At, Addressed, Followed, Asking, Numbered, Asked, Answered;
    BegunSound(Origin());
    AskingDoes(Origin(), GetDevice());
    Numbers(Origin().trace, 0);
    MoveKeeps(Asking(Origin(), GetDevice()), Ep0InDone);
  }

  /** It makes no difference to the device which of the two came first. */
  lemma AfterLate(w: World, p: Setup, rest: seq<Move>)
    requires Sound(w) && KnownString(p) && Enabled(w, Ep0InDone) && Allowed(Asking(Next(w, Ep0InDone), p), rest)
    ensures Allowed(w, Late(p) + rest) && After(w, Late(p) + rest) == After(Asking(Next(w, Ep0InDone), p), rest)
  {
    hide At, Addressed, Followed, Interrupted, Allowed, After;
    var w1 := Next(w, HostSetup(p));
    var w2 := Next(w1, Ep0InDone);
    assert w2 == Next(Next(w, Ep0InDone), HostSetup(p));
    var handled := Interrupt(true, false, false);
    AfterCons(w2, handled, rest);
    AfterCons(w1, Ep0InDone, [handled] + rest);
    AfterCons(w, HostSetup(p), [Ep0InDone] + ([handled] + rest));
    assert Late(p) + rest == [HostSetup(p)] + ([Ep0InDone] + ([handled] + rest));
  }

  lemma AfterStale(p: Setup, rest: seq<Move>)
    requires KnownString(p) && Enabled(Asking(Origin(), GetDevice()), Ep0InDone) && Allowed(Asking(Stale(), p), rest)
    ensures Allowed(Origin(), Ask(GetDevice()) + (Late(p) + rest))
    ensures After(Origin(), Ask(GetDevice()) + (Late(p) + rest)) == After(Asking(Stale(), p), rest)
  {
    hide At, Addressed, Followed, Asking, After, Allowed;
    StaleDoes();
    AfterLate(Asking(Origin(), GetDevice()), p, rest);
    AfterAsking(Origin(), GetDevice(), Late(p) + rest);
  }

  /** The packet of an earlier request goes out while the request for an address is being handled: its completion
      loads the address one interrupt later, with the status packet still waiting to be sent. */
  lemma StaleLoads(a: Byte)
    ensures var moves := Ask(GetDevice()) + (Late(SetAddress(a)) + Handle());
            Allowed(Origin(), moves)
            && var end := After(Origin(), moves);
               && end.trace.loads == [Load(2, [1])] && end.device.addressRegister == a
               && end.device.endpoints[EP0_IN].control.available
  {
    hide At, Addressed, Followed, Asking, Allowed, After, Numbered, Asked, Answered, Stale;
    StaleDoes();
    AskingDoes(Stale(), SetAddress(a));
    Numbers(Stale().trace, a);
    CompletionDoes(Asking(Stale(), SetAddress(a)));
    AfterStale(SetAddress(a), Handle());
  }

  /** In the same place the status packet may still be in time: it has gone out as well by the time the one
      status bit for both is handled. */
  lemma StaleInTime(a: Byte)
    ensures var moves := Ask(GetDevice()) + (Late(SetAddress(a)) + Send());
            Allowed(Origin(), moves)
            && var end := After(Origin(), moves);
               end.trace.loads == [Load(2, [1, 2])] && end.device.addressRegister == a
  {
    hide At, Addressed, Followed, Asking, Allowed, After, Numbered, Asked, Answered, Stale;
    StaleDoes();
    AskingDoes(Stale(), SetAddress(a));
    Numbers(Stale().trace, a);
    PacketDoes(Asking(Stale(), SetAddress(a)));
    AfterStale(SetAddress(a), Send());
    assert [1] + [2] == [1, 2] && [] + [Load(2, [1, 2])] == [Load(2, [1, 2])];
  }

  /** And a further request does no harm if it is one the device does not answer. */
  lemma UnansweredInTime(a: Byte)
    ensures var moves := Ask(SetAddress(a)) + (Ask(GetStatus()) + Send());
            Allowed(Origin(), moves)
            && var end := After(Origin(), moves);
               end.trace.loads == [Load(1, [1])] && end.device.addressRegister == a
  {
    hide At, Addressed, Followed, Asking, Allowed, After, Numbered, Asked, Answered;
    BegunSound(Origin());
    var w1 := Asking(Origin(), SetAddress(a));
    AskingDoes(Origin(), SetAddress(a));
    Numbers(Origin().trace, a);
    AskingDoes(w1, GetStatus());
    Numbers(w1.trace, a);
    PacketDoes(Asking(w1, GetStatus()));
    AfterAsking(w1, GetStatus(), Send());
    AfterAsking(Origin(), SetAddress(a), Ask(GetStatus()) + Send());
    assert [] + [1] == [1] && [] + [Load(1, [1])] == [Load(1, [1])];
  }
}
