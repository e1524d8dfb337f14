# DFRobot Raspberry Pi expansion board driver, in Dafny

This project models the register-level driver for the DFRobot IO expansion
board (`raspberry/DFRobot_RaspberryPi_Expansion_Board.py`) and proves what it
puts on the two-wire bus and what it reports back.

The board offers four PWM outputs and four ADC inputs behind a fixed register
map. The driver keeps two pieces of mutable state: the board's bus address
and the status of the last operation. Every operation that reaches the bus
or rejects a parameter overwrites that status, usually with the outcome of
its last transfer; `begin` then sets its own verdict on a failed or
mismatched identification, and `detecte` forces Ok whatever its last
transfer did. A valid but empty channel list issues no transfer and leaves
the status as it was. Bus errors are never raised. They become
`DeviceNotDetected`, and a failed read comes back as zeros of the requested
length.

The project has three modules.

- `Registers` (`registers.dfy`) holds the pure parts of the driver:
  - the register map and the identification constants;
  - the status codes;
  - the channel-selection rule of `_parse_id`;
  - the big-endian frequency encoding;
  - the whole-and-tenths duty encoding;
  - the per-channel register arithmetic;
  - the 16-bit ADC sample.
- `Bus` (`bus.dfy`) stands in for the I2C library with a simulated device:
  - a register file per address, read at the position of the transfer that reads it, so a value register may hold a new sample at every read;
  - a predicate saying which transfers fail. It takes the transfer and its position among all transfers issued so far, so a device may fail at one moment and answer at the next.

  It also defines what the two transport primitives leave behind.
- `Board` (`board.dfy`) holds the driver itself. Class `ExpansionBoard` has the fields `addr` and `status`, plus `trace`, the sequence of every transfer issued, oldest first. Its methods are proved against reference functions:
  - `BeginStatus` and `BeginTrace` say what `begin` does at one address;
  - `Scan` says what `detecte` does over a range of addresses: each `begin` starts where the previous one left off in the trace;
  - `DutyWrites`, `AdcReads`, `Sample` and `LastStatus` describe the per-channel loops.

Two behaviours of the code are easy to miss:

- On a full identification match, `begin` does not set Ok itself. It returns the status left by its last write, the one that disables the ADC. A failed PWM-disable write followed by a successful ADC-disable write therefore yields Ok. `Board.BeginOutcomes` states this: Ok exactly on a full match whose ADC-disable write went through.
- `detecte` scans addresses 1 to 126. `set_addr` accepts 1 to 127. A board moved to address 127 is never found by the scan. The model keeps both ranges as written.

## Model

| member | source | states |
|---|---|---|
| Registers.Code | raspberry/DFRobot_RaspberryPi_Expansion_Board.py:49-53 | each status has its published code in 0..4, and the code is 0 exactly for Ok |
| Registers.CodeInjective | raspberry/DFRobot_RaspberryPi_Expansion_Board.py:49-53 | distinct statuses publish distinct codes |
| Registers.ChannelRange | raspberry/DFRobot_RaspberryPi_Expansion_Board.py:98-99 | the ALL request expands to exactly the channels 1..limit, strictly ascending, `limit` of them |
| Registers.Resolve | raspberry/DFRobot_RaspberryPi_Expansion_Board.py:97-104 | the resolved channels are always valid; ALL gives the whole range 1..limit in ascending order; an explicit list comes back unchanged exactly when every index is in 1..limit; one bad index gives the empty list |
| Registers.FrequencyBytes | raspberry/DFRobot_RaspberryPi_Expansion_Board.py:126 | a frequency in 1..1000 goes out as two bytes, high byte first, that recombine to the frequency; the high byte is at most 3 |
| Registers.Mod10 | raspberry/DFRobot_RaspberryPi_Expansion_Board.py:138 | the remainder of `x % 10` on a real lies in [0, 10) and differs from x by a whole multiple of 10 |
| Registers.Mod10Example | raspberry/DFRobot_RaspberryPi_Expansion_Board.py:138 | the remainder is floored as in Python: 23 % 10 and -7 % 10 are both 3 |
| Registers.DutyBytes | raspberry/DFRobot_RaspberryPi_Expansion_Board.py:138 | a duty in [0, 99] goes out as whole part (at most 99) and first decimal digit (at most 9); together they are the duty truncated to tenths, floor(10 × duty) |
| Registers.DutyDigits | raspberry/DFRobot_RaspberryPi_Expansion_Board.py:138 | `int(duty)` and `int((duty * 10) % 10)` are digits whose value 10 × whole + tenth is floor(10 × duty) |
| Registers.DutyBytesExample | raspberry/DFRobot_RaspberryPi_Expansion_Board.py:138 | a duty of 37.46 goes out as the bytes 37 and 4 |
| Registers.DutyRegister | raspberry/DFRobot_RaspberryPi_Expansion_Board.py:138 | `0x06 + (i - 1) * 2` is the duty register of channel i from the map, and it lies between the frequency and ADC-control registers |
| Registers.AdcRegister | raspberry/DFRobot_RaspberryPi_Expansion_Board.py:160 | `0x0f + (i - 1) * 2` is the value register of channel i from the map, and it lies after the ADC-control register |
| Registers.ChannelRegistersDisjoint | raspberry/DFRobot_RaspberryPi_Expansion_Board.py:35-43 | the two-byte registers of distinct channels do not overlap |
| Registers.AdcValue | raspberry/DFRobot_RaspberryPi_Expansion_Board.py:161 | `(hi << 8) \| lo` of two bytes lies in 0..65535 |
| Registers.AdcValueBytes | raspberry/DFRobot_RaspberryPi_Expansion_Board.py:161 | an ADC sample gives both bytes back: quotient by 0x100 is the high byte, remainder the low byte |
| Bus.Zeros | raspberry/DFRobot_RaspberryPi_Expansion_Board.py:208 | `[0] * len` has length len and only zeros |
| Bus.Block | raspberry/DFRobot_RaspberryPi_Expansion_Board.py:204 | a successful block read returns len bytes, the device's registers from `reg` on as they stand when that transfer reads them |
| Bus.Outcome | raspberry/DFRobot_RaspberryPi_Expansion_Board.py:194-199 | a transport primitive leaves Ok or DeviceNotDetected, and Ok exactly when the transfer went through |
| Bus.Answer | raspberry/DFRobot_RaspberryPi_Expansion_Board.py:201-208 | a block read always hands back exactly len bytes: zeros when the transfer failed, the device's registers otherwise |
| Bus.LastStatus | raspberry/DFRobot_RaspberryPi_Expansion_Board.py:194-199 | after a run of transfers the status is the last transfer's outcome; with no transfer it is left as it was |
| Board.BeginTrace | raspberry/DFRobot_RaspberryPi_Expansion_Board.py:75-84 | begin issues the product-id read, then the vendor-id read, and the two disabling writes exactly on a full match: two transfers or four |
| Board.BeginStatus | raspberry/DFRobot_RaspberryPi_Expansion_Board.py:75-85 | the status begin returns is Ok, DeviceNotDetected or SoftVersion; a failed product-id or vendor-id read means DeviceNotDetected |
| Board.BeginOutcomes | raspberry/DFRobot_RaspberryPi_Expansion_Board.py:75-85 | begin returns Ok, DeviceNotDetected or SoftVersion; a readable board with another product id is not detected; SoftVersion exactly when both reads went through, the product id is 0xDF and the vendor id is not 0x01; Ok exactly on a full match whose ADC-disable write went through |
| Board.BeginWrites | raspberry/DFRobot_RaspberryPi_Expansion_Board.py:75-84 | begin first reads the product id and then the vendor id; it writes only on a full match, and then writes 0x00 to PWM control and then to ADC control; Ok implies a full match |
| Board.Scan | raspberry/DFRobot_RaspberryPi_Expansion_Board.py:169-174 | the scan of an empty range reports nothing and issues nothing; every address reported costs at least the two identification reads |
| Board.ScanStep | raspberry/DFRobot_RaspberryPi_Expansion_Board.py:171-174 | one more pass of the scan appends that begin's transfers to the trace and reports the address exactly when that begin returned Ok |
| Board.ScanOrdered | raspberry/DFRobot_RaspberryPi_Expansion_Board.py:171-174 | the addresses a scan reports are strictly increasing and lie in the scanned range |
| Board.ScanExactly | raspberry/DFRobot_RaspberryPi_Expansion_Board.py:171-174 | an address is reported exactly when it is in the range and the begin run at it (at its place in the trace) returned Ok |
| Board.ScanReportsOk | raspberry/DFRobot_RaspberryPi_Expansion_Board.py:171-174 | the same for every address at once |
| Board.DutyWrites | raspberry/DFRobot_RaspberryPi_Expansion_Board.py:137-138 | one write per resolved channel, in order, to `0x06 + (i - 1) * 2` with the same two bytes |
| Board.AdcReads | raspberry/DFRobot_RaspberryPi_Expansion_Board.py:159-160 | one two-byte read per resolved channel, in order, from `0x0f + (i - 1) * 2` |
| Board.Sample | raspberry/DFRobot_RaspberryPi_Expansion_Board.py:160-161 | a reported sample lies in 0..65535 |
| Board.SampleBytes | raspberry/DFRobot_RaspberryPi_Expansion_Board.py:160-161 | a sample is 0 when its read failed, and otherwise its high and low bytes are the channel's two registers as that read finds them |
| Board.Samples | raspberry/DFRobot_RaspberryPi_Expansion_Board.py:158-162 | one sample per resolved channel, the k-th read being the k-th transfer after the first |
| Board.ParsedStatus | raspberry/DFRobot_RaspberryPi_Expansion_Board.py:100-103 | parsing a request sets ParameterError when it names a channel that does not exist, and otherwise leaves the status as it was |
| Board.ExpansionBoard.constructor | raspberry/DFRobot_RaspberryPi_Expansion_Board.py:67-68 | a new handle holds the given address and device, status Ok, and has issued nothing |
| Board.ExpansionBoard.WriteBytes | raspberry/DFRobot_RaspberryPi_Expansion_Board.py:193-199 | appends exactly one write to the trace; the status becomes that write's outcome; nothing is raised |
| Board.ExpansionBoard.ReadBytes | raspberry/DFRobot_RaspberryPi_Expansion_Board.py:201-208 | appends exactly one read; the status is its outcome; the result is exactly len bytes, zeros on failure |
| Board.ExpansionBoard.Begin | raspberry/DFRobot_RaspberryPi_Expansion_Board.py:70-85 | returns the new status, which is BeginStatus, and appends exactly BeginTrace (see BeginOutcomes and BeginWrites) |
| Board.ExpansionBoard.SetAddr | raspberry/DFRobot_RaspberryPi_Expansion_Board.py:87-95 | outside 1..127: ParameterError and no transfer; otherwise exactly one write of `[addr]` to register 0x00, and its outcome as the status |
| Board.ExpansionBoard.ParseId | raspberry/DFRobot_RaspberryPi_Expansion_Board.py:97-104 | returns Resolve of the request; sets ParameterError on a bad index and otherwise leaves the status alone |
| Board.ExpansionBoard.SetPwmEnable | raspberry/DFRobot_RaspberryPi_Expansion_Board.py:106-110 | one write of 0x01 to PWM control |
| Board.ExpansionBoard.SetPwmDisable | raspberry/DFRobot_RaspberryPi_Expansion_Board.py:112-116 | one write of 0x00 to PWM control |
| Board.ExpansionBoard.SetPwmFrequency | raspberry/DFRobot_RaspberryPi_Expansion_Board.py:118-126 | outside 1..1000: ParameterError and no transfer; otherwise one write of FrequencyBytes to register 0x04 |
| Board.ExpansionBoard.SetPwmDuty | raspberry/DFRobot_RaspberryPi_Expansion_Board.py:128-138 | duty outside [0, 99]: ParameterError and no transfer; otherwise exactly DutyWrites of the resolved channels; the status is the last write's outcome, or what parsing left when nothing was written |
| Board.ExpansionBoard.WriteDuties | raspberry/DFRobot_RaspberryPi_Expansion_Board.py:137-138 | the loop issues exactly DutyWrites, and the last write decides the status |
| Board.ExpansionBoard.SetAdcEnable | raspberry/DFRobot_RaspberryPi_Expansion_Board.py:140-144 | one write of 0x01 to ADC control |
| Board.ExpansionBoard.SetAdcDisable | raspberry/DFRobot_RaspberryPi_Expansion_Board.py:146-150 | one write of 0x00 to ADC control |
| Board.ExpansionBoard.ReadSample | raspberry/DFRobot_RaspberryPi_Expansion_Board.py:160-161 | one two-byte read of the channel's value register, combined high byte first into Sample |
| Board.ExpansionBoard.GetAdcValue | raspberry/DFRobot_RaspberryPi_Expansion_Board.py:152-162 | one value per resolved channel, in order, each in 0..65535 and equal to Sample; exactly AdcReads on the bus; an invalid request gives no value, no read and ParameterError |
| Board.ExpansionBoard.ReadSamples | raspberry/DFRobot_RaspberryPi_Expansion_Board.py:159-162 | the loop issues exactly AdcReads and collects one Sample per read; the last read decides the status |
| Board.ExpansionBoard.Settle | raspberry/DFRobot_RaspberryPi_Expansion_Board.py:177-178 | the address goes back and the status becomes Ok, with the trace untouched |
| Board.ExpansionBoard.Detect | raspberry/DFRobot_RaspberryPi_Expansion_Board.py:164-179 | the address is restored and the status is Ok; the trace grows by exactly the scan of 1..126; the result is strictly increasing, lies in 1..126, and holds exactly the addresses whose begin returned Ok |

## Left out

- The `smbus` library and `SMBus(bus_id)`: the bus is a simulated device given to the constructor, so there is no bus id.
- Writes do not change the simulated device's registers: their contents at each transfer are given in advance, independent of what the driver wrote. A new address written by `set_addr` takes effect only after a power cycle, which the model does not have. The PWM and ADC hardware is not modelled.
- Registers.DutyBytes: the duty is an exact real, not an IEEE double. Where rounding of `duty * 10` in floating point would change the tenths digit, the model gives the exact-decimal answer.
- Board.ExpansionBoard.Detect: returns the addresses as integers; the `hex()` formatting of the result is not modelled.
- `last_operate_status` starts as a class attribute that each instance shadows on its first write. The model makes it an ordinary field, set to Ok by the constructor.
- The channel argument is either ALL or a list of indices. A bare integer (which the `get_adc_value` docstring suggests) makes Python fail when it iterates over it; the model has no such input.
- Arguments of the wrong Python type (a string for a frequency, say) are not modelled.
- The demo script `raspberry/demo_basic.py` is not part of this model: it is a polling loop with sleeps, printing and a floating-point voltage conversion.
