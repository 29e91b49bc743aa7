/** A two-wire bus watched from outside, by the rules of UM10204 sections 3.1.3 and 3.1.4: data is
    taken where SDA is stable through a high SCL, and an SDA edge under a high SCL is a START or
    a STOP. */
module I2cBus {
  import opened Wrappers

  datatype Event = Start | Stop | Bit(level: bool) | Glitch

  /** The wire levels, the data level since SCL last rose (if no START or STOP came since), and
      everything seen so far. */
  datatype Bus = Bus(scl: bool, sda: bool, sampled: Option<bool>, events: seq<Event>)

  /** What the watcher makes of the wires moving to new levels. SDA may not move in the same
      instant as SCL. */
  function Observe(b: Bus, scl: bool, sda: bool): Bus {
    var glitch := if b.scl != scl && b.sda != sda then [Glitch] else [];
    if b.scl == scl && b.sda == sda then
      b
    else if b.scl && scl then
      Bus(scl, sda, None, b.events + [if sda then Stop else Start])
    else if b.scl then
      Bus(scl, sda, None, b.events + glitch + (if b.sampled.Some? then [Bit(b.sampled.value)] else []))
    else if scl then
      Bus(scl, sda, Some(sda), b.events + glitch)
    else
      Bus(scl, sda, None, b.events)
  }
}
