# Verified models of the Pico examples

Dafny models of the algorithms and protocols in the Pico examples repository and its piezo-scanner
application, with proofs of what each is for. `dafny verify dfyconfig.toml` checks everything.

- **PIO programs.** `Pio` is one state machine of the RP2040 PIO block, a clock cycle at a time (RP2040
  datasheet, sections 3.4 and 3.5). `DiffManchester` runs the differential Manchester transmitter and
  receiver on it and shows that they undo each other, with the exact timing slack. The `PioI2c…` modules run
  the I2C program on a two-wire bus (`I2cBus` watches it by UM10204 sections 3.1.3 and 3.1.4) against the
  processor's loops over bounded FIFOs: `PioI2cWords` is the FIFO word format, `PioI2c` the state machine and
  its invariant, `PioI2cReceive` the receive path, `PioI2cDriver` the processor and every interleaving,
  `PioI2cStretch` a device that holds the clock where the driver does not wait for it, `PioI2cOutcome` what a
  call leaves on the bus and returns, `PioI2cProgress` that every call ends, `PioI2cTiming` how long a bit takes.
- **`TcpEcho`, `TcpEchoRun`.** The TCP server and client as callbacks on a state structure, and the two
  composed over a stream with arbitrary fragmentation and acknowledgement timing.
- **`Ssd1306`.** Bresenham lines in all directions into the page-packed frame buffer.
- **`DhcpLease`, `DhcpOptions`, `DhcpServer`, `DhcpHistory`.** The lease table with its truncated expiry and
  wrapping clock, the option reader and writer, one message from option bytes to reply, and whole histories.
- **`Crc32`.** The bit-serial CRC: residue, linearity, burst detection and its sharp bound.
- **`Ws2812`.** The bit-sliced adder and dither as a fast form of per-lane arithmetic, with an exact
  conservation law over all frames. `DmaChain` holds the DMA chain that sends the planes, shared with the
  control-block example.
- **`UsbDescriptors`, `UsbDevice`, `UsbRun`.** The descriptors byte by byte, the interrupt-driven USB device, and its
  runs against host and controller.
- **`Scanner`, `LogicAnalyser`, `I2cMemory`.** Loops and small state machines with whole-run specifications.

Where a property the design aims at does not hold of the code, the code is kept and the exact condition is
proved:

- The STOP sequence of the PIO I2C driver does not wait for a stretched clock. A finished run has its STOP
  exactly when the device is not holding SCL at the STOP's last step; without it the call still returns what
  it should, and everything sent and stored is the same (`PioI2cOutcome.Outcome`, `PioI2cOutcome.ReadOutcome`).
  Every call can end either way (`PioI2cProgress.LostStop`, `PioI2cProgress.SeenStop`).
- The USB device takes the next EP0 IN completion it handles for that of the status stage, whatever packet it
  belongs to. The status packet of a SET_ADDRESS has gone out by then exactly when a packet goes out in between
  with no further request answered before it; and it is the first of those the completion stands for exactly
  when, besides, none was pending as the request was handled (`UsbRun.AddressTiming`). `UsbRun.NewSetupLoads`
  and `UsbRun.StaleLoads` are runs in which the address is loaded too early. An interrupt that finds the
  request and an earlier completion together loads at once (`UsbRun.AddressEarly`).
- The DHCP expiry test forgets: half a wrap of the clock after the end of a lease the slot reads as taken
  again (`DhcpLease.ExpiryExact`, `DhcpLease.ExpiryForgotten`).
- The dither loses what overflows twelve bits, exactly that, and nothing else (`Ws2812.Ledger`): a run keeps the
  balance if and only if request and held fraction fit in twelve bits in every frame (`Ws2812.BalanceExact`,
  `Ws2812.RunExact`). Requests up to 4080 are safe whatever is held, and no others are (`Ws2812.SafeExactly`); for
  strips not brighter than full that is a brightness of up to 4097 (`Ws2812.SafeBrightness`), far above main's.
  `Ws2812.LossyRun` is a run of the frame loop that sends a full byte as 255 and then as 0.
- The CRC misses a 33-bit burst: of every block that checks, wherever one puts the 33 bits, some other block
  that differs from it there alone checks too (`Crc32.BurstMissed`).
- The Manchester receiver's window of 12 cycles is exact: a line with one later transition is misread
  (`DiffManchester.WindowExact`).

## Model

| member | source | states |
|---|---|---|
| Crc32.Crc32Block | dma/sniff_crc/sniff_crc.c:31-40 | the nested loops compute the bit-serial CRC of exactly the given stretch of the buffer |
| Crc32.AppendCrc | dma/sniff_crc/sniff_crc.c:48-49 | storing the register after the message makes the CRC of the whole buffer zero |
| Crc32.Generator | dma/sniff_crc/sniff_crc.c:18-36 | the constant stepped with is the generator of IEEE 802.3, bit-reversed: exactly its powers 26, 23, 22, 16, 12, 11, 10, 8, 7, 5, 4, 2, 1 and 0 |
| Crc32.InitialOnes | dma/sniff_crc/sniff_crc.c:18 | the initial register is all ones |
| Crc32.Chunking | dma/sniff_crc/sniff_crc.c:31-40 | the register handed on over any list of chunks is that of the whole message |
| Crc32.Residue | dma/sniff_crc/sniff_crc.c:48-49 | for every message and initial register, message plus register gives exactly 0 |
| Crc32.CrcLinear | dma/sniff_crc/sniff_crc.c:35-37 | the block function is linear over GF(2) in register and message together |
| Crc32.StepOnZeroBit | dma/sniff_crc/sniff_crc.c:36 | a step on a zero bit is invertible at zero: it leaves zero exactly from zero |
| Crc32.ShortFeed | dma/sniff_crc/sniff_crc.c:35-37 | up to 32 bits leave zero exactly when they are the register's low bits and the rest of it is zero |
| Crc32.CheckOfCorruption | dma/sniff_crc/sniff_crc.c:57-58 | whether a corrupted block still checks depends on the flipped bits alone |
| Crc32.BurstBreaksCheck | dma/sniff_crc/sniff_crc.c:57-58 | of a block that checks, any change within 32 consecutive transmitted bits is detected |
| Crc32.BurstDetected | dma/sniff_crc/sniff_crc.c:57-58 | the same for every message with its CRC appended |
| Crc32.SingleByteDetected | dma/sniff_crc/sniff_crc.c:57-58 | hence any change to any single byte breaks the check |
| Crc32.BurstBoundIsSharp | dma/sniff_crc/sniff_crc.c:36 | 32 bits is the best possible: a 33-bit pattern goes unnoticed wherever it falls |
| Crc32.BurstMissed | dma/sniff_crc/sniff_crc.c:57-58 | on buffers: every block that checks has, at every place with room for 33 bits, another of its length that differs there alone and checks |
| Crc32.ProtectionMissed | dma/sniff_crc/sniff_crc.c:48-58 | so of every protected message some change to 33 bits in a row goes unnoticed |
| DiffManchester.ReceiverSamples | pio/differential_manchester/differential_manchester.pio:64-84 | from a start-of-bit edge the receiver is back at its wait after exactly 15 cycles, having sampled 12 cycles after the edge |
| DiffManchester.ReceiverDecodes | pio/differential_manchester/differential_manchester.pio:64-84 | a mid transition 1 to 12 cycles after the edge is decoded, after any idling |
| DiffManchester.ReceiverRecovers | pio/differential_manchester/differential_manchester.pio:64-84 | over any irregular line within those bounds every bit is recovered in order, and every word pushed has its 32 bits |
| DiffManchester.LateTransitionMisread | pio/differential_manchester/differential_manchester.pio:65-73 | a transition 13 or more cycles after the edge is read as a 0 |
| DiffManchester.LateLineMisread | pio/differential_manchester/differential_manchester.pio:64-84 | one such transition anywhere in a line, and whatever follows, the bits recovered do not begin with those sent |
| DiffManchester.WindowExact | pio/differential_manchester/differential_manchester.pio:64-84 | so over any irregular line the bits recovered are those sent if and only if every second transition comes within 12 cycles |
| DiffManchester.SenderBit | pio/differential_manchester/differential_manchester.pio:17-34 | one bit takes 16 cycles: a transition at its start and, for a 1, another 8 cycles later |
| DiffManchester.SenderLateBit | pio/differential_manchester/differential_manchester.pio:17-34 | waiting for a word only lengthens the level before the start edge |
| DiffManchester.LinkDelivers | pio/differential_manchester/differential_manchester.pio:17-34 | from reset, whatever the words and however late each arrives, the receiver pushes exactly those words in order |
| PioI2cWords.RecordNumber | pio/i2c/pio_i2c.c:97 | a data record's bits are the number final<<9, data<<1, nak that the driver computes |
| PioI2cWords.EscapeNumber | pio/i2c/pio_i2c.c:61-80 | the header of a START, STOP or repeated START is its instruction count less one, shifted left by 10 |
| PioI2cWords.RecordFields | pio/i2c/i2c.pio:63-67 | the program unpacks count 0, the Final flag and nine data bits from a record |
| PioI2cWords.EscapeFields | pio/i2c/i2c.pio:63-71 | it unpacks the instruction count of an escape, one less than its length |
| PioI2cWords.EscapeExecutes | pio/i2c/i2c.pio:132-135 | an executed table word drives the two levels it was made for |
| PioI2c.CellKeeps | pio/i2c/i2c.pio:51-58 | beginning a bit cell puts the next record bit on SDA with SCL low |
| PioI2c.ClockKeeps | pio/i2c/i2c.pio:52-59 | releasing SCL starts the high phase with the driven level in place |
| PioI2c.StretchKeeps | pio/i2c/i2c.pio:53-60 | the program does not go on while the device stretches the clock |
| PioI2c.FallKeeps | pio/i2c/i2c.pio:55 | the falling edge completes a cell, and exactly that bit is seen on the bus |
| PioI2c.AckKeeps | pio/i2c/i2c.pio:57-61 | the ninth cell completes a record and branches on the acknowledge |
| PioI2c.ExecKeeps | pio/i2c/i2c.pio:69-71 | an executed escape instruction takes the next queued word and, unless it drives an edge under a held clock, moves the bus as that escape should |
| PioI2c.FetchKeeps | pio/i2c/i2c.pio:63-67 | a header is taken only between items and is the header of the next one |
| PioI2c.CycleKeeps | pio/i2c/i2c.pio:44-72 | every cycle but one that drives an edge under a held clock keeps the invariant tying program place, registers, queue and wires to the items carried out, and runs past no offending byte |
| PioI2c.StretchingKeeps | pio/i2c/i2c.pio:53 | so does the device stretching or releasing the clock at any time |
| PioI2c.EscapeStep | pio/i2c/i2c.pio:132-135 | each escape instruction makes the START, STOP or level change it stands for, given a released clock at an edge |
| PioI2cReceive.SampleHears | pio/i2c/i2c.pio:54 | sampling appends the level on the wire, pushing a full byte when the FIFO has room |
| PioI2cReceive.CycleHears | pio/i2c/i2c.pio:48-61 | every cycle keeps taken bytes, FIFO and shift register together equal to the bytes on the wire |
| PioI2cDriver.TickKeeps | pio/i2c/pio_i2c.c:89-146 | such a cycle of the state machine keeps the driver's invariant in every phase |
| PioI2cDriver.PushKeeps | pio/i2c/pio_i2c.c:44-55 | so does pushing a word through the bounded FIFO |
| PioI2cDriver.PopKeeps | pio/i2c/pio_i2c.c:126-136 | so does taking a byte, the first being thrown away |
| PioI2cDriver.FlushDoneKeeps | pio/i2c/pio_i2c.c:114-115 | emptying the FIFO first leaves nothing heard before the loop |
| PioI2cDriver.DrainBreaks | pio/i2c/pio_i2c.c:19-23 | discarding the queue breaks the transfer off exactly at the offending byte |
| PioI2cDriver.MoveKeeps | pio/i2c/pio_i2c.c:19-146 | every move of processor and device does, and every such cycle |
| PioI2cDriver.StopLast | pio/i2c/pio_i2c.c:89-146 | nothing is ever asked of the state machine after the STOP, and no call makes a repeated START |
| PioI2cStretch.HeldPlace | pio/i2c/i2c.pio:69-71 | the one edge that can meet a held clock is that of the STOP's last word |
| PioI2cStretch.HeldCycle | pio/i2c/i2c.pio:69-71 | a cycle that drives it leaves everything but the wires as it would under a released clock, and the log without a STOP |
| PioI2cStretch.HeldMisses | pio/i2c/pio_i2c.c:67-72 | from then on the invariant holds but for the one missing STOP |
| PioI2cStretch.MissedKeeps | pio/i2c/pio_i2c.c:82-146 | every later move of either side and the device keeps that |
| PioI2cStretch.RunSound | pio/i2c/pio_i2c.c:89-146 | in every run, whatever the interleaving and the stretching, the invariant holds, or an edge was driven under a held clock and only the STOP is missing |
| PioI2cOutcome.Outcome | pio/i2c/pio_i2c.c:89-146 | in every finished run, however the clock is stretched, the bus carried one START, a first byte of value 2*addr, plus 1 for a read, neither Final nor acknowledged by the master, then a prefix of the data given, or of all-ones bytes, of which only the last is Final, nine levels each, and a STOP exactly when no edge was driven under a held clock; the call returned -1 exactly when a byte not marked Final was not acknowledged, so after the first byte alone when that was the address, and all was sent otherwise |
| PioI2cOutcome.AddressQueued | pio/i2c/pio_i2c.c:93-116 | the first word a call queues after the START is the number addr<<2, read<<1, 1 |
| PioI2cOutcome.BusScan | pio/i2c/i2c_bus_scan.c:28-37 | a finished 0-byte read sent the address byte and nothing else, and returned 0 exactly when the device acknowledged it |
| PioI2cOutcome.TransferLog | pio/i2c/i2c.pio:44-72 | the bus events of a transfer are START, the bits of its records, STOP |
| PioI2cOutcome.FailureSent | pio/i2c/pio_i2c.c:100-107 | a failed call sent the bytes up to the first offending one and a STOP |
| PioI2cOutcome.SuccessSent | pio/i2c/pio_i2c.c:89-108 | a successful call sent every byte with none offending |
| PioI2cOutcome.PayloadShape | pio/i2c/pio_i2c.c:94-99 | the write loop queues every byte in order and marks only the last Final |
| PioI2cOutcome.WrittenByte | pio/i2c/i2c.pio:51 | a byte the device leaves SDA alone for is on the wire as written |
| PioI2cOutcome.ClocksShape | pio/i2c/pio_i2c.c:117-125 | the read loop queues len all-ones records, the last Final and not acknowledged |
| PioI2cOutcome.ReadOutcome | pio/i2c/pio_i2c.c:110-146 | a read returning 0 sent the address with the read bit and had it acknowledged, clocked exactly len+1 bytes, dropped the address, stored the device's bytes in order and did not acknowledge only the last |
| PioI2cOutcome.NoOverrun | pio/i2c/pio_i2c.c:126-136 | the read loop never stores past the buffer |
| PioI2cOutcome.NoGlitch | pio/i2c/i2c.pio:44-72 | SDA never moves in the same instant as a high SCL changes |
| PioI2cOutcome.StopEdge | pio/i2c/i2c.pio:69-71 | at the last step of a STOP the bus sees it exactly when the clock is not held; let go later, the wires are free without a STOP |
| PioI2cProgress.CycleWorks | pio/i2c/i2c.pio:44-72 | every cycle uses up work unless the machine waits for the device, room, a word or the processor |
| PioI2cProgress.NeverBack | pio/i2c/pio_i2c.c:82-146 | every move of processor or state machine leaves less to do, or nothing changes; the device holding or releasing the clock leaves as much |
| PioI2cProgress.RunsEnd | pio/i2c/pio_i2c.c:82-146 | no run has more moves that change anything, the device's apart, than a bound computed from its start |
| PioI2cProgress.Progress | pio/i2c/pio_i2c.c:82-146 | no deadlock: until the call has returned and the bus is at rest, some certain move leaves less to do unless the program waits for the device to release the clock |
| PioI2cProgress.LostStop | pio/i2c/pio_i2c.c:67-72 | every call has a run in which the device holds the clock from the STOP's first word on: the call returns, all is done, and no STOP was seen |
| PioI2cProgress.SeenStop | pio/i2c/pio_i2c.c:67-72 | and one in which the clock is never held and the STOP is seen |
| PioI2cTiming.BitTiming | pio/i2c/i2c.pio:51-55 | a data bit nobody holds up takes 32 cycles, a 100,000th of a second at the clock divisor of line 94: SCL rises 9 cycles after the bit has begun and falls 16 later |
| PioI2cTiming.AckTiming | pio/i2c/i2c.pio:57-61 | the acknowledge bit has its edges at the same times and leaves for the next word or the test of the Final flag by the level of SDA before the fall, two cycles after it |
| TcpEcho.CopyInto | pico_w/wifi/tcp_server/picow_tcp_server.c:126-130 | the copy stores what fits from the given place and returns how much |
| TcpEcho.Matches | pico_w/wifi/tcp_server/picow_tcp_server.c:138 | the comparison is equality of the two buffers |
| TcpEcho.Server.Sent | pico_w/wifi/tcp_server/picow_tcp_server.c:78-91 | the sent callback is the specified step: the count grows, and a full buffer acknowledged resets the receive count |
| TcpEcho.Server.SendData | pico_w/wifi/tcp_server/picow_tcp_server.c:93-112 | a new random buffer is drawn and written, or the test fails |
| TcpEcho.Server.Recv | pico_w/wifi/tcp_server/picow_tcp_server.c:114-155 | the receive callback: store with truncation, compare a full buffer, count, end or send again |
| TcpEcho.ServerJudges | pico_w/wifi/tcp_server/picow_tcp_server.c:114-155 | by the bytes received: short of a full buffer nothing but the store; a full one that differs fails the test without counting; the tenth equal one ends it well; any other draws and writes the next buffer, failing if that fails; the end of the stream fails it |
| TcpEcho.Client.Sent | pico_w/wifi/tcp_client/picow_tcp_client.c:90-110 | the client's count of acknowledged bytes, the round it ends, and success after ten |
| TcpEcho.Client.Recv | pico_w/wifi/tcp_client/picow_tcp_client.c:135-167 | the client stores with truncation and writes back a full buffer |
| TcpEcho.ClientEchoes | pico_w/wifi/tcp_client/picow_tcp_client.c:135-167 | a full buffer is written back as received and nothing else is, failing if the write fails; the end of the stream fails the test |
| TcpEchoRun.DownData | pico_w/wifi/tcp_client/picow_tcp_client.c:150-165 | the next piece of a buffer extends what the client has, and the last makes it echo exactly that buffer |
| TcpEchoRun.UpDataLast | pico_w/wifi/tcp_server/picow_tcp_server.c:137-154 | the last piece of an echo makes the comparison succeed and the next round begin, or the test end well |
| TcpEchoRun.TurningKeeps | pico_w/wifi/tcp_client/picow_tcp_client.c:95-107 | the acknowledgements ahead of the next buffer reset the client before its first byte |
| TcpEchoRun.MoveKeeps | pico_w/wifi/tcp_server/picow_tcp_server.c:78-155 | every delivery of data, acknowledgements or the end of stream keeps the composed invariant |
| TcpEchoRun.Verdict | pico_w/wifi/tcp_server/picow_tcp_server.c:114-155 | in every run neither test fails, each buffer is echoed once and in order with at most one outstanding, and the server ends after exactly ten |
| TcpEchoRun.NothingDropped | pico_w/wifi/tcp_client/picow_tcp_client.c:150-153 | no byte that arrives is cut off by the buffer-left truncation, and none reaches a finished side |
| TcpEchoRun.RunsEnd | pico_w/wifi/tcp_client/picow_tcp_client.c:90-167 | no run is longer than a bound computed from its start |
| TcpEchoRun.NoDeadlock | pico_w/wifi/tcp_client/picow_tcp_client.c:90-167 | and none stops before both sides have finished |
| Ssd1306.SetPixel | i2c/ssd1306_i2c/ssd1306_i2c.c:215-239 | exactly the one pixel changes in the unpacked view |
| Ssd1306.Layout | i2c/ssd1306_i2c/ssd1306_i2c.c:215-239 | pixel (x, y) is bit y mod 8 of byte 128*(y/8) + x |
| Ssd1306.DrawLine | i2c/ssd1306_i2c/ssd1306_i2c.c:241-265 | for all on-screen endpoints the loop ends and sets exactly the max(dx,dy)+1 pixels of the rounded line |
| Ssd1306.OffsetStep | i2c/ssd1306_i2c/ssd1306_i2c.c:255-263 | the two error tests step to the next pixel of the closed form |
| Ssd1306.NearestUnique | i2c/ssd1306_i2c/ssd1306_i2c.c:255-263 | the closed form is the only height within half a step, the upper at a tie |
| Ssd1306.HalfPixel | i2c/ssd1306_i2c/ssd1306_i2c.c:241-265 | every pixel satisfies 2*abs(j*dx-i*dy) <= max(dx,dy) |
| Ssd1306.ClosestPixel | i2c/ssd1306_i2c/ssd1306_i2c.c:241-265 | no other pixel in its column, or row of a steep line, is closer |
| Ssd1306.EndsOnTarget | i2c/ssd1306_i2c/ssd1306_i2c.c:252-253 | the line starts at its start and ends on its target |
| Ssd1306.Connected | i2c/ssd1306_i2c/ssd1306_i2c.c:255-263 | each pixel is one step on along the longer axis and at most one along the other |
| Ssd1306.WithinBox | i2c/ssd1306_i2c/ssd1306_i2c.c:241-265 | no pixel leaves the bounding box |
| DhcpLease.ExpiryExact | pico_w/wifi/access_point/dhcpserver/dhcpserver.c:224-225 | the 16-bit expiry reads as expired exactly from the rounded-up end of the lease to half a clock wrap later, every wrap |
| DhcpLease.NotExpiredEarly | pico_w/wifi/access_point/dhcpserver/dhcpserver.c:224-225 | never within 86,400,000 ms of the grant |
| DhcpLease.ExpiredAfterwards | pico_w/wifi/access_point/dhcpserver/dhcpserver.c:224-225 | always from 65,536 ms after the lease to 2^31 ms after it |
| DhcpLease.ExpiryForgotten | pico_w/wifi/access_point/dhcpserver/dhcpserver.c:224-225 | but not for ever |
| DhcpLease.Server.Offer | pico_w/wifi/access_point/dhcpserver/dhcpserver.c:210-235 | the loop over the lease array is the specified scan, clearing included |
| DhcpLease.ScanFrom | pico_w/wifi/access_point/dhcpserver/dhcpserver.c:210-235 | the offer is the client's own slot, else the first free or expired one, else none; only expired entries are cleared |
| DhcpLease.ScanExact | pico_w/wifi/access_point/dhcpserver/dhcpserver.c:210-235 | the offer in full: the client's first slot if it has one, else the first that is free or expired, else none; and exactly that first one is cleared, when it is an expired one met before the client's own |
| DhcpLease.Server.Acknowledge | pico_w/wifi/access_point/dhcpserver/dhcpserver.c:241-266 | a request is granted exactly when its address has the server's first three bytes, a last byte from 16 to 23 and a slot that is free or the client's; then that slot is the client's with the new expiry, and otherwise the table is unchanged |
| DhcpLease.GrantedExact | pico_w/wifi/access_point/dhcpserver/dhcpserver.c:241-266 | the same of the function the histories are built from |
| DhcpLease.MessageKeeps | pico_w/wifi/access_point/dhcpserver/dhcpserver.c:209-277 | every message keeps each running lease in its owner's name |
| DhcpLease.LeaseExclusive | pico_w/wifi/access_point/dhcpserver/dhcpserver.c:209-277 | over every message sequence no other MAC is acknowledged an address within the lease time of a non-zero MAC |
| DhcpLease.OfferStands | pico_w/wifi/access_point/dhcpserver/dhcpserver.c:209-277 | an address offered and then asked for is acknowledged |
| DhcpOptions.WriteN | pico_w/wifi/access_point/dhcpserver/dhcpserver.c:151-157 | code, length and payload are written and nothing else moves |
| DhcpOptions.WriteU8 | pico_w/wifi/access_point/dhcpserver/dhcpserver.c:159-165 | a one-byte option |
| DhcpOptions.WriteU32 | pico_w/wifi/access_point/dhcpserver/dhcpserver.c:167-176 | a four-byte option, most significant byte first |
| DhcpOptions.WriteExtends | pico_w/wifi/access_point/dhcpserver/dhcpserver.c:151-176 | a write after a list extends the list by one option |
| DhcpOptions.Reply | pico_w/wifi/access_point/dhcpserver/dhcpserver.c:279-284 | the reply's six options and END, in place |
| DhcpOptions.Find | pico_w/wifi/access_point/dhcpserver/dhcpserver.c:141-149 | on a well-formed list closed with END the search ends and returns the place of the first option with the code, or nothing |
| DhcpOptions.FoundOption | pico_w/wifi/access_point/dhcpserver/dhcpserver.c:141-149 | what stands there is that option with its length and payload; nothing exactly when there is none |
| DhcpOptions.WriteAll | pico_w/wifi/access_point/dhcpserver/dhcpserver.c:151-176 | any sequence of writes that fits, closed with END, leaves exactly those options in the buffer |
| DhcpOptions.RoundTrip | pico_w/wifi/access_point/dhcpserver/dhcpserver.c:141-176 | searched afterwards, the buffer gives the first option written with the code, its length and its payload, or nothing exactly when none was |
| DhcpOptions.ReplyReads | pico_w/wifi/access_point/dhcpserver/dhcpserver.c:279-284 | a reader finds the message type first, then the server, the mask, the router, the DNS server and a lease time of 86,400 s, each with the value it should have |
| DhcpServer.Process | pico_w/wifi/access_point/dhcpserver/dhcpserver.c:178-289 | from option bytes to lease table, kind and address of the reply and its option bytes, or silence with the message untouched; the address of an ACK is the one asked for |
| DhcpServer.DiscoverExact | pico_w/wifi/access_point/dhcpserver/dhcpserver.c:210-239 | a message of type 1 is answered by a 2 for the client's own slot, else the first reusable one, or not at all, with the table so cleared |
| DhcpServer.RequestExact | pico_w/wifi/access_point/dhcpserver/dhcpserver.c:241-273 | one of type 3 is answered by a 5, for the address it asks for, exactly when that is acceptable, and only then changes the table, in that slot |
| DhcpServer.OtherExact | pico_w/wifi/access_point/dhcpserver/dhcpserver.c:275-276 | any other is ignored |
| DhcpHistory.ServeRefines | pico_w/wifi/access_point/dhcpserver/dhcpserver.c:178-289 | a history of messages given by their option lists has the table and the acknowledgements of a history of the lease table |
| DhcpHistory.ReplyExclusive | pico_w/wifi/access_point/dhcpserver/dhcpserver.c:178-289 | over every such history, once a client with a MAC address has been sent an ACK for an address, no other is sent one for it within the lease time |
| Ws2812.FullAdder | pio/ws2812/ws2812_parallel.c:134-139 | the plane formulas are a full adder in every lane |
| Ws2812.Fraction | pio/ws2812/ws2812_parallel.c:122-128 | a value's low four planes are its fraction and the eight planes sent spell its whole part |
| Ws2812.AddError | pio/ws2812/ws2812_parallel.c:131-146 | in each of 32 lanes the result is (s + e mod 16) mod 4096, also when structures coincide |
| Ws2812.StoreValue | pio/ws2812/ws2812_parallel.c:164-166 | one value goes into one lane modulo 4096 and no other lane changes |
| Ws2812.TransformStrips | pio/ws2812/ws2812_parallel.c:155-170 | every strip's lane holds its byte, scaled by the strip's brightness over 256 rounded down and then by the frame's, in 32-bit products, modulo 4096; zero past its end; other lanes are zero |
| Ws2812.ScaledOnce | pio/ws2812/ws2812_parallel.c:162-163 | the inequalities that say so leave one value |
| Ws2812.ScaledBounds | pio/ws2812/ws2812_parallel.c:162-163 | where the products do not overflow, 65536*value <= byte*strip*frame < 65536*(value+1) + 256*frame |
| Ws2812.ScaledFull | pio/ws2812/ws2812_parallel.c:162-163 | at brightness 256 twice over the value is the byte |
| Ws2812.MainValues | pio/ws2812/ws2812_parallel.c:162-163 | with main's brightness no value exceeds 509 |
| Ws2812.DitherValues | pio/ws2812/ws2812_parallel.c:172-176 | every value of a frame is added to the last state's fraction |
| Ws2812.Animate | pio/ws2812/ws2812_parallel.c:299-318 | the ping-pong frame loop makes each state from the requested colours and the fraction of the state before; each lane of each value keeps the balance over the run exactly when it never overflows, and always, within 15/16 of an output step, for safe frames |
| Ws2812.LaneChain | pio/ws2812/ws2812_parallel.c:299-318 | every lane of every value in such a run is a chain of dithered sums |
| Ws2812.Ledger | pio/ws2812/ws2812_parallel.c:131-176 | over any number of frames 16 times the outputs, the held fraction and 4096 times the overflows equal the requests plus the first fraction |
| Ws2812.Conserved | pio/ws2812/ws2812_parallel.c:131-176 | so with requests up to 4080 nothing is lost |
| Ws2812.RunExact | pio/ws2812/ws2812_parallel.c:299-318 | in every run, a lane of a value keeps the balance if and only if request and fraction fit in 12 bits in every frame |
| Ws2812.RunConserved | pio/ws2812/ws2812_parallel.c:299-318 | in every run of safe frames, main's among them, every lane of every value keeps the balance, and what is sent stays within 15/16 of an output step of what is asked for |
| Ws2812.ErrorBound | pio/ws2812/ws2812_parallel.c:131-176 | so the accumulated error never exceeds 15/16 of an output step |
| Ws2812.BalanceExact | pio/ws2812/ws2812_parallel.c:131-176 | over any number of frames and any requests no more is sent than asked for, and the balance is kept if and only if request and fraction fit in 12 bits in every frame |
| Ws2812.SafeExactly | pio/ws2812/ws2812_parallel.c:131-176 | whatever fraction is held at first, requests up to 4080 and no others are certain to be conserved |
| Ws2812.SafeBrightness | pio/ws2812/ws2812_parallel.c:161-163 | for strips up to full brightness no request exceeds 4080 if and only if the frame's brightness is at most 4097 |
| Ws2812.LossyRun | pio/ws2812/ws2812_parallel.c:299-318 | a run of the frame loop from cleared states whose two equal frames show 4095 and then 14 |
| UsbDescriptors.PrepareString | usb/device/dev_lowlevel/dev_lowlevel.c:114-132 | the loop leaves a string descriptor in the buffer: length, kind and two bytes a character, the terminating zero not counted |
| UsbDescriptors.PrepareConfiguration | usb/device/dev_lowlevel/dev_lowlevel.c:281-307 | the buffer is filled with the configuration alone, or with the interface and the endpoints from EP1 on after it |
| UsbDescriptors.DeviceReads | usb/device/dev_lowlevel/dev_lowlevel.h:65-80 | the device descriptor gives its own length, packets of 64 bytes and one configuration |
| UsbDescriptors.ConfigurationWhole | usb/device/dev_lowlevel/dev_lowlevel.h:82-124 | asked for 32 bytes or more, what is sent is a list of descriptors whose total length field is what is sent, with as many interfaces as that says and as many endpoints as the interface says |
| UsbDescriptors.ConfigurationAlone | usb/device/dev_lowlevel/dev_lowlevel.c:281-309 | asked for less, it is the first 9 bytes of the same, total length included |
| UsbDescriptors.StringReads | usb/device/dev_lowlevel/dev_lowlevel.c:114-132 | a string descriptor gives its own length and each character in its place with a zero after it |
| UsbDescriptors.AnswerLengths | usb/device/dev_lowlevel/dev_lowlevel.c:267-339 | how many bytes of which descriptor are sent: min(18, length); 32 from 32 on and otherwise min(9, length); min(4, length) for the language and min(2+2n, length) for a string of n |
| UsbDevice.UsbDevice.StartTransfer | usb/device/dev_lowlevel/dev_lowlevel.c:239-261 | buffer control, copied data and the flipped PID |
| UsbDevice.UsbDevice.SendDescriptor | usb/device/dev_lowlevel/dev_lowlevel.c:267-339 | a descriptor is sent on EP0 IN as far as the host takes it, configurations and strings put together in the EP0 buffer |
| UsbDevice.UsbDevice.HandleSetupPacket | usb/device/dev_lowlevel/dev_lowlevel.c:384-428 | the setup dispatch with its EP0 answers |
| UsbDevice.UsbDevice.HandleBuffDone | usb/device/dev_lowlevel/dev_lowlevel.c:531-559 | the four endpoint handlers |
| UsbDevice.UsbDevice.HandleBuffStatus | usb/device/dev_lowlevel/dev_lowlevel.c:470-485 | the loop over status bits, IN before OUT for each endpoint number |
| UsbDevice.UsbDevice.BusReset | usb/device/dev_lowlevel/dev_lowlevel.c:315-321 | address state and configuration are cleared |
| UsbDevice.UsbDevice.Isr | usb/device/dev_lowlevel/dev_lowlevel.c:492-523 | setup, then buffers, then reset |
| UsbRun.SetupAnswered | usb/device/dev_lowlevel/dev_lowlevel.c:384-428 | every answered request gets a full DATA1 buffer on EP0 IN no longer than the host allows, zero-length for one without data, and nothing else moves |
| UsbRun.DescriptorSent | usb/device/dev_lowlevel/dev_lowlevel.c:384-428 | every descriptor request with a known string leaves exactly those bytes armed on EP0 IN, as DATA1 |
| UsbRun.CompletionArms | usb/device/dev_lowlevel/dev_lowlevel.c:531-559 | each completion in full: EP0 IN loads a waiting address or else arms a zero-length EP0 OUT, EP1 arms EP2 with its packet, EP2 arms EP1 for 64 bytes, each with the PID due |
| UsbRun.BuffersInOrder | usb/device/dev_lowlevel/dev_lowlevel.c:470-485 | the loop handles EP0 IN, EP0 OUT, EP1 OUT, EP2 IN in that order |
| UsbRun.BuffersMove | usb/device/dev_lowlevel/dev_lowlevel.c:548-559 | a packet taken on EP1 is armed on EP2 unchanged, and one given on EP2 re-arms EP1 |
| UsbRun.MoveKeeps | usb/device/dev_lowlevel/dev_lowlevel.c:492-559 | every transaction, interrupt and step of main keeps the invariant |
| UsbRun.EveryRun | usb/device/dev_lowlevel/dev_lowlevel.c:239-559 | in every run: address register zero or requested since the last reset, alternating bulk PIDs, packets given back in order at most one behind, exactly one bulk endpoint armed |
| UsbRun.AddressExact | usb/device/dev_lowlevel/dev_lowlevel.c:531-541 | the address register changes only by a reset, to zero, or when an EP0 IN completion is handled, to the requested address |
| UsbRun.AddressTiming | usb/device/dev_lowlevel/dev_lowlevel.c:357-365 | in every run, an address that waits is loaded by the next interrupt with an EP0 IN completion; its own status packet is the first of those completed exactly when none was pending as the request was handled and no further request was answered before the first packet, and is among them exactly when a packet went out first |
| UsbRun.EveryLoad | usb/device/dev_lowlevel/dev_lowlevel.c:357-365 | whenever an address is waited for, one move of the run received the request and it has been waited for since, so AddressTiming tells of it |
| UsbRun.AddressEarly | usb/device/dev_lowlevel/dev_lowlevel.c:492-541 | the other way to load: at once, too early, exactly when the receiving interrupt also handles an earlier EP0 IN completion |
| UsbRun.NewSetupLoads | usb/device/dev_lowlevel/dev_lowlevel.c:384-428 | a run in which the host gives up the transfer for another and the address is loaded by the other request's data packet |
| UsbRun.StaleLoads | usb/device/dev_lowlevel/dev_lowlevel.c:492-541 | a run in which an earlier request's packet completes while the request for an address is being handled, and loads the address with the status packet still waiting to be sent |
| UsbRun.StaleInTime | usb/device/dev_lowlevel/dev_lowlevel.c:470-485 | a run with the same completion in which the status packet is still in time, both having one status bit |
| UsbRun.UnansweredInTime | usb/device/dev_lowlevel/dev_lowlevel.c:424-426 | a run in which a further request that is not answered does no harm |
| DmaChain.Dma.Step | dma/control_blocks/control_blocks.c:60-98 | one transfer by whichever channel is active |
| DmaChain.Dma.Drive | dma/control_blocks/control_blocks.c:102-110 | driven until the chain stops, the registers follow the specified run |
| DmaChain.EntryLoaded | dma/control_blocks/control_blocks.c:60-75 | the control channel programs count and address of one block and triggers it |
| DmaChain.BlockSent | dma/control_blocks/control_blocks.c:77-98 | the data channel sends its block and restarts the control channel |
| DmaChain.ChainSends | dma/control_blocks/control_blocks.c:39-109 | for every list of non-empty blocks the chain sends their concatenation, stops, and raises the flag once |
| DmaChain.ChainAlways | dma/control_blocks/control_blocks.c:39-109 | at every moment before, a prefix has been sent; the flag is raised by the very last transfer and no other |
| DmaChain.StripsSent | pio/ws2812/ws2812_parallel.c:239-275 | the single-pointer chain sends the eight integer planes of every value, most significant first |
| Scanner.Scanner.MoveTo | spi/spi_master_slave/spi_master/physical_devices/scanner.cpp:93-117 | reaches the point its reference parameter held on entry by single steps, first along x and then along y and no more of them than there must be, also when that is the position itself |
| Scanner.Scanner.ScanRow | spi/spi_master_slave/spi_master/physical_devices/scanner.cpp:24-40 | in one trace of DAC writes and conversions: two conversions at each of the row's points, each made when the writes before it have led to that point, the second of them kept and reported |
| Scanner.Scanner.TakeRow | spi/spi_master_slave/spi_master/physical_devices/scanner.cpp:24-53 | a row and the way back to its start, the line it reports and nothing converted on the way |
| Scanner.StillTaken | spi/spi_master_slave/spi_master/physical_devices/scanner.cpp:26-33 | no later act changes where a conversion was made |
| Scanner.LaterPart | spi/spi_master_slave/spi_master/physical_devices/scanner.cpp:26-76 | any later part of a trace of single steps is a path of single steps from where the tip then was |
| Scanner.Scanner.StartScan | spi/spi_master_slave/spi_master/physical_devices/scanner.cpp:16-76 | from the point its reference parameter held on entry, be that the position itself, whole rows up to the first stop request, every sample of every row reported for the point at which it was converted, every DAC write one step and none too many, and back to the start on both exits |
| Scanner.Scanner.StartScanHere | spi/spi_master_slave/spi_master/physical_devices/scanner.cpp:78-81 | the same when the argument is the position cell that the scan goes on to move |
| Scanner.Scanner.StopScan | spi/spi_master_slave/spi_master/physical_devices/scanner.cpp:83-86 | returns to the point the scan started from |
| Scanner.StoppedIsPrefix | spi/spi_master_slave/spi_master/physical_devices/scanner.cpp:54-62 | a stopped scan is a whole-row prefix of the full one |
| LogicAnalyser.Capture | pio/logic_analyser/logic_analyser.c:40-63 | the shift-right autopush capture packs whole samples, left-justified, into as many words as they fill |
| LogicAnalyser.PackedFull | pio/logic_analyser/logic_analyser.c:31-38 | a word holds as many whole samples as fit in it |
| LogicAnalyser.BufferExact | pio/logic_analyser/logic_analyser.c:117-119 | the computed buffer has room for every sample, and less than a word too much |
| LogicAnalyser.WordInBuffer | pio/logic_analyser/logic_analyser.c:117-119 | every word looked at lies within the computed buffer size |
| LogicAnalyser.FoundBit | pio/logic_analyser/logic_analyser.c:99-103 | the bit looked at for a pin and a sample is that bit of that sample |
| LogicAnalyser.PrintCapture | pio/logic_analyser/logic_analyser.c:89-108 | for every pin count from 1 to 32 and every sample count the display is the samples taken |
| LogicAnalyser.CaptureAndPrint | pio/logic_analyser/logic_analyser.c:117-158 | a capture long enough for the computed buffer, printed, shows the samples taken |
| LogicAnalyser.Placed | pio/logic_analyser/logic_analyser.c:31-38 | where the index arithmetic puts each sample |
| I2cMemory.Slave.Handle | i2c/slave_mem_i2c/slave_mem_i2c.c:37-61 | the event handler on the memory, its address and its flag |
| I2cMemory.OpenRefines | i2c/slave_mem_i2c/slave_mem_i2c.c:37-61 | a transaction under way, receives and requests in any order, is so many steps of a wrapping memory |
| I2cMemory.TransactionRefines | i2c/slave_mem_i2c/slave_mem_i2c.c:37-61 | a whole one is one operation of it |
| I2cMemory.SlaveRefines | i2c/slave_mem_i2c/slave_mem_i2c.c:28-61 | so is every sequence of transactions, the last ended or not |
| I2cMemory.EverySequence | i2c/slave_mem_i2c/slave_mem_i2c.c:37-61 | and every sequence of events is such a sequence |
| I2cMemory.StoredAt | i2c/slave_mem_i2c/slave_mem_i2c.c:45-48 | after a write of any length each of its last 256 bytes is where it was put, byte j at (addr+j) mod 256 |
| I2cMemory.StoredElsewhere | i2c/slave_mem_i2c/slave_mem_i2c.c:45-48 | a place no byte came to is untouched |
| I2cMemory.StoredLanded | i2c/slave_mem_i2c/slave_mem_i2c.c:45-48 | so every place holds the last byte that came to it, if any did |
| I2cMemory.WriteSeekRead | i2c/slave_mem_i2c/slave_mem_i2c.c:89-125 | for a write of any length, a seek to any address and any amount read, however restarts split the reading, every byte read is the last one written to its place or what was there before |
| I2cMemory.MessageReadBack | i2c/slave_mem_i2c/slave_mem_i2c.c:89-125 | in particular a message that fits is read back as it is from where it was written |

## Left out

- PioI2cDriver.TickKeeps: leaves the cycle that drives an edge under a held clock to PioI2cStretch.HeldMisses.
- PioI2cDriver.MoveKeeps: leaves the same cycle to PioI2cStretch.HeldMisses. The loops of pio_i2c.c run beside the state machine, so they are modelled as moves on values rather than as methods; aliasing of the caller's buffer is not captured.
- PioI2cOutcome.ReadOutcome: starts from an empty input shift register; a read straight after a write depends on the bits left there while autopush was off.
- PioI2c.CycleKeeps: a repeated START under a held clock is not followed up, neither call making one; the STOP is, in PioI2cStretch.
- PioI2c.ExecKeeps: the same. An instruction taken by `out exec` runs in the same cycle, and the input synchroniser's two cycles are not modelled. The queue is the four-entry FIFO and one prefetched word; the SDK's drain call is taken to discard both.
- DiffManchester.LinkDelivers: the receiver's FIFO always has room, the input synchroniser's fixed delay is not modelled, and a word that arrives late is shifted from in the cycle it arrives; the machine's extra refill cycle is one more cycle of waiting.
- TcpEchoRun.Verdict: tcp_write succeeds, segments arrive in order and are never empty, an acknowledgement never arrives after data sent later, and the poll timeouts do not fire. lwIP itself is not modelled.
- DhcpOptions.Find: the list is well formed and closed with END within the 308 bytes; Pad options and malformed messages are not studied.
- DhcpHistory.ReplyExclusive: the clock readings of the messages do not run backwards.
- DhcpServer.Process: the fixed header fields, the magic cookie and the UDP layer are left out; a requested address has four bytes and a message type one.
- DhcpLease.LeaseExclusive: the clock is the true time read modulo 2^32 and never runs backwards within or between messages.
- UsbDevice.UsbDevice.HandleSetupPacket: a string beyond the two there are is not asked for, the code then reading past its table.
- UsbDevice.UsbDevice.SendDescriptor: the same.
- UsbRun.StaleLoads: the interrupt handler is one move, so a completion that comes while it runs comes just before it and is passed by.
- UsbRun.AddressTiming: a packet sent on EP0 IN belongs to the request that armed it, the host's idea of the transfer it is in not being modelled.
- UsbRun.EveryRun: an interrupt handler and main's single usb_start_transfer each run without interruption; a host asks only for the strings there are.
- Ws2812.Animate: the DMA is taken to finish with a state buffer before it is written again two frames later, as the semaphore ensures; gamma, patterns and the reset of the states between patterns are left out.
- DmaChain.ChainSends: pacing by data requests is left out; it changes when a transfer happens, not which.
- Scanner.Scanner.StartScan: the point is not the scanner's private memory of the starting place, which no caller can name. The configured grid fits in 16 bits, so no coordinate wraps; delays, LEDs and the asynchronous setting of the stop flag between rows are not modelled, only its value when it is looked at.
- LogicAnalyser.PrintCapture: a word is a sequence of 32 bits rather than a machine word, and the sizes do not overflow 32 bits.
- GPIO, clock and peripheral set-up, console output, sensor formulas, the NEC infrared codec, fonts, Bluetooth and FreeRTOS examples, and the scanner's command loop are left out: set-up without decisions, finite tables, or unsynchronised flags without a specification.
