/** The low-level USB device: an interrupt handler over a handful of endpoint registers
    (usb/device/dev_lowlevel/dev_lowlevel.c). */
module UsbDevice {
  import opened Wrappers
  import opened UsbDescriptors

  /** A buffer control register: AVAIL, FULL, the data PID and the length. */
  datatype Control = Control(available: bool, full: bool, pid: nat, len: nat)

  datatype Endpoint = Endpoint(nextPid: nat, control: Control, data: seq<Byte>)

  datatype Device = Device(
    devAddr: Byte, shouldSetAddress: bool, configured: bool, addressRegister: Byte, endpoints: seq<Endpoint>)

  predicate Shaped(d: Device) {
    |d.endpoints| == ENDPOINTS && forall ep <- d.endpoints :: |ep.data| == 64 && ep.nextPid <= 1 && ep.control.len <= 64
  }

  // ----- The handlers as functions of the state

  /** usb_start_transfer: `data` is copied only for an IN endpoint. */
  function Started(d: Device, ep: nat, data: Packet, len: nat): (r: Device)
    requires Shaped(d) && ep < ENDPOINTS && len <= 64 && (ep == EP0_IN || ep == EP2_IN ==> |data| == len)
    ensures Shaped(r)
  {
    var e := d.endpoints[ep];
    var tx := ep == EP0_IN || ep == EP2_IN;
    d.(endpoints := d.endpoints[ep := Endpoint(
      1 - e.nextPid, Control(true, tx, e.nextPid, len), if tx then data + e.data[len..] else e.data)])
  }

  function SetupHandled(d: Device, p: Setup): (r: Device)
    requires Shaped(d)
    ensures Shaped(r)
  {
    var d := d.(endpoints := d.endpoints[EP0_IN := d.endpoints[EP0_IN].(nextPid := 1)]);
    if p.requestType == DIR_OUT then
      if p.request == SET_ADDRESS then
        Started(d.(devAddr := p.value % 256, shouldSetAddress := true), EP0_IN, [], 0)
      else if p.request == SET_CONFIGURATION then
        Started(d, EP0_IN, [], 0).(configured := true)
      else
        Started(d, EP0_IN, [], 0)
    else if p.requestType == DIR_IN && p.request == GET_DESCRIPTOR && Answer(p).Some? then
      Started(d, EP0_IN, Answer(p).value, |Answer(p).value|)
    else d
  }

  /** The endpoint handlers: ep0_in, ep0_out, ep1_out, ep2_in. */
  function BufferDone(d: Device, ep: nat): (r: Device)
    requires Shaped(d) && ep < ENDPOINTS
    ensures Shaped(r)
  {
    if ep == EP0_IN then
      if d.shouldSetAddress then d.(addressRegister := d.devAddr, shouldSetAddress := false)
      else Started(d, EP0_OUT, [], 0)
    else if ep == EP1_OUT then
      var len := d.endpoints[EP1_OUT].control.len;
      Started(d, EP2_IN, d.endpoints[EP1_OUT].data[..len], len)
    else if ep == EP2_IN then Started(d, EP1_OUT, [], 64)
    else d
  }

  /** BUFF_STATUS has two bits for each endpoint number, IN then OUT. */
  function EndpointOf(bit: nat): Option<nat> {
    match bit
    case 0 => Some(EP0_IN)
    case 1 => Some(EP0_OUT)
    case 3 => Some(EP1_OUT)
    case 4 => Some(EP2_IN)
    case _ => None
  }

  function BufferBit(d: Device, buffers: seq<bool>, bit: nat): (r: Device)
    requires Shaped(d) && |buffers| == 32 && bit < 32
    ensures Shaped(r)
  {
    if buffers[bit] && EndpointOf(bit).Some? then BufferDone(d, EndpointOf(bit).value) else d
  }

  function BuffersHandled(d: Device, buffers: seq<bool>, bit: nat): (r: Device)
    requires Shaped(d) && |buffers| == 32 && bit <= 32
    ensures Shaped(r)
    decreases 32 - bit
  {
    if bit == 32 then d else BuffersHandled(BufferBit(d, buffers, bit), buffers, bit + 1)
  }

  function ResetHandled(d: Device): Device {
    d.(devAddr := 0, shouldSetAddress := false, addressRegister := 0, configured := false)
  }

  /** What one interrupt finds pending. */
  datatype Status = Status(setup: Option<Setup>, buffers: Option<seq<bool>>, reset: bool)

  predicate Proper(status: Status) {
    status.buffers.Some? ==> |status.buffers.value| == 32
  }

  /** isr_usbctrl: the setup packet first, then finished buffers, then the bus reset. */
  function Interrupted(d: Device, status: Status): (r: Device)
    requires Shaped(d) && Proper(status)
    ensures Shaped(r)
  {
    var d := if status.setup.Some? then SetupHandled(d, status.setup.value) else d;
    var d := if status.buffers.Some? then BuffersHandled(d, status.buffers.value, 0) else d;
    if status.reset then ResetHandled(d) else d
  }

  // ----- The handlers on the device

  class UsbDevice {
    var devAddr: Byte
    var shouldSetAddress: bool
    var configured: bool
    var addressRegister: Byte
    const endpoints: array<Endpoint>
    const ep0Buffer: array<Byte>    // scratch

    ghost predicate Valid()
      reads this, endpoints
    {
      endpoints.Length == ENDPOINTS && ep0Buffer.Length == 64 && Shaped(View())
    }

    ghost function View(): Device
      reads this, endpoints
    {
      Device(devAddr, shouldSetAddress, configured, addressRegister, endpoints[..])
    }

    constructor ()
      ensures Valid() && fresh(endpoints) && fresh(ep0Buffer) && View() == PowerOn()
    {
      ep0Buffer := new Byte[64](_ => 0);
      devAddr, shouldSetAddress, configured, addressRegister := 0, false, false, 0;
      endpoints := new Endpoint[ENDPOINTS](_ => Idle());
      new;
      assert endpoints[..] == PowerOn().endpoints;
    }

    method StartTransfer(ep: nat, data: Packet, len: nat)
      requires Valid() && ep < ENDPOINTS && len <= 64 && (ep == EP0_IN || ep == EP2_IN ==> |data| == len)
      modifies endpoints
      ensures Valid() && View() == Started(old(View()), ep, data, len)
    {
      var e := endpoints[ep];
      var tx := ep == EP0_IN || ep == EP2_IN;
      var control := Control(true, false, e.nextPid, len);
      if tx {
        e := e.(data := data + e.data[len..]);
        control := control.(full := true);
      }
      endpoints[ep] := e.(nextPid := 1 - e.nextPid, control := control);
      assert View() == Started(old(View()), ep, data, len);
    }

    /** A descriptor is sent as far as the host takes it, configurations and strings through the EP0 buffer. */
    method SendDescriptor(p: Setup)
      requires Valid() && p.requestType == DIR_IN && p.request == GET_DESCRIPTOR && KnownString(p)
      modifies endpoints, ep0Buffer
      ensures Valid()
      ensures View() == if Answer(p).None? then old(View())
                        else Started(old(View()), EP0_IN, Answer(p).value, |Answer(p).value|)
    {
      hide Started, DeviceBytes, Configuration, Text, Wide, LanguageBytes;
      var kind := p.value / 256;
      var data: seq<Byte>;
      if kind == DT_DEVICE {
        data := DeviceBytes();
      } else if kind == DT_CONFIG {
        var length := PrepareConfiguration(ep0Buffer, p.length);
        data := ep0Buffer[..length];
      } else if kind == DT_STRING {
        var i, length := p.value % 256, 4;
        if i == 0 {
          length := Put(ep0Buffer, 0, LanguageBytes());
          assert ep0Buffer[..length] == LanguageBytes();
        } else {
          length := PrepareString(ep0Buffer, Text(i - 1));
          WideLength(Text(i - 1));
        }
        data := ep0Buffer[..length];
      } else {
        return;
      }
      assert Described(p) == Some(data);
      StartTransfer(EP0_IN, data[..Min(|data|, p.length)], Min(|data|, p.length));
    }

    method HandleSetupPacket(p: Setup)
      requires Valid() && KnownString(p)
      modifies this, endpoints, ep0Buffer
      ensures Valid() && View() == SetupHandled(old(View()), p)
    {
      hide Started;
      endpoints[EP0_IN] := endpoints[EP0_IN].(nextPid := 1);
      assert endpoints[..] == old(endpoints[..])[EP0_IN := old(endpoints[EP0_IN]).(nextPid := 1)];
      if p.requestType == DIR_OUT {
        if p.request == SET_ADDRESS {
          devAddr := p.value % 256;
          shouldSetAddress := true;
          StartTransfer(EP0_IN, [], 0);
        } else if p.request == SET_CONFIGURATION {
          StartTransfer(EP0_IN, [], 0);
          configured := true;
        } else {
          StartTransfer(EP0_IN, [], 0);
        }
      } else if p.requestType == DIR_IN && p.request == GET_DESCRIPTOR {
        SendDescriptor(p);
      }
    }

    method HandleBuffDone(ep: nat)
      requires Valid() && ep < ENDPOINTS
      modifies this, endpoints
      ensures Valid() && View() == BufferDone(old(View()), ep)
    {
      if ep == EP0_IN {
        if shouldSetAddress {
          addressRegister := devAddr;
          shouldSetAddress := false;
        } else {
          StartTransfer(EP0_OUT, [], 0);
        }
      } else if ep == EP1_OUT {
        var len := endpoints[EP1_OUT].control.len;
        StartTransfer(EP2_IN, endpoints[EP1_OUT].data[..len], len);
      } else if ep == EP2_IN {
        StartTransfer(EP1_OUT, [], 64);
      }
    }

    method HandleBuffStatus(buffers: seq<bool>)
      requires Valid() && |buffers| == 32
      modifies this, endpoints
      ensures Valid() && View() == BuffersHandled(old(View()), buffers, 0)
    {
      hide BufferDone;
      for bit := 0 to 32
        invariant Valid() && BuffersHandled(View(), buffers, bit) == BuffersHandled(old(View()), buffers, 0)
      {
        if buffers[bit] {
          var ep := EndpointOf(bit);
          if ep.Some? { HandleBuffDone(ep.value); }
        }
      }
    }

    method BusReset()
      requires Valid()
      modifies this
      ensures Valid() && View() == ResetHandled(old(View()))
      ensures devAddr == addressRegister == 0 && !shouldSetAddress && !configured
    {
      devAddr, shouldSetAddress, addressRegister, configured := 0, false, 0, false;
    }

    method Isr(status: Status)
      requires Valid() && Proper(status) && (status.setup.Some? ==> KnownString(status.setup.value))
      modifies this, endpoints, ep0Buffer
      ensures Valid() && View() == Interrupted(old(View()), status)
    {
      hide SetupHandled, BuffersHandled;
      if status.setup.Some? { HandleSetupPacket(status.setup.value); }
      if status.buffers.Some? { HandleBuffStatus(status.buffers.value); }
      if status.reset { BusReset(); }
    }
  }

  function Idle(): Endpoint {
    Endpoint(0, Control(false, false, 0, 0), seq<Byte>(64, _ => 0))
  }

  function PowerOn(): (d: Device)
    ensures Shaped(d)
  {
    Device(0, false, false, 0, [Idle(), Idle(), Idle(), Idle()])
  }
}
