# owdemo 1-Wire sensor core in Dafny

This project models the bus-protocol and driver layer of owdemo, an AVR demo
that reads sensors over a 1-Wire bus. It also proves properties of that
model. Three kinds of sensor are read:

- DS18B20 thermometers, addressed directly on the bus.
- MCP9808 thermometers behind a DS28E17 1-Wire-to-I2C bridge.
- VEML7700 ambient light sensors behind a DS28E17 bridge.

The project has one Dafny module per C file, plus one for the transport:

- `Crc16Arc` (`crc16_arc.dfy`): the CRC-16/ARC checksum. The loop is a
  method, proved equal to a left fold over the bytes.
- `Transport` (`transport.dfy`): the primary bus. `ow_select`, `ow_write`,
  `ow_read`, `ow_bit_io` and `_delay_us` are methods of the class
  `OneWire`. The class holds a script of replies and a log of what the
  host did, kept by kind: ids selected, frames written, byte counts read,
  bit samples taken and total time slept. The pure value `Bus` mirrors
  these fields. A missing reply, or one of the wrong kind or length, is a
  transport failure.
- `Ds28e17` (`ds28e17.dfy`): the bridge driver.
  - Register reads and writes, with their frames and their running CRC.
  - The inverted CRC trailer.
  - The bounded busy-flag poll and the status check.
  - The speed setting.
- `Ds18b20` (`ds18b20.dfy`): the scratchpad read, the conversion of the
  temperature register to tenths of a degree with its range check, and
  the start of a conversion.
- `Mcp9808` (`mcp9808.dfy`): the identity probe and the 13-bit
  temperature decoding.
- `Veml7700` (`veml7700.dfy`): the configuration word with its gain and
  integration-time tables, and lux scaling.
- `Dispatch` (`dispatch.dfy`): `main`.
  - Classifying the sensors found.
  - One measurement cycle: start the DS18B20 conversions, wait, then read
    every sensor by its type.
  - The sign/whole/tenth split used to print the results.

Every bus operation of a driver is written twice:

- as a `method` over the `OneWire` object, in the source's own order;
- as a pure function of the transport state.

Each method's `ensures` says that its result and the object's new state
are exactly that function applied to the old state. The properties the
source promises are lemmas about these functions. Examples:

- which frames are written;
- when a transaction succeeds, read off the reply script;
- how often the busy bit is sampled, and how long the poll sleeps;
- that a caller's buffer is untouched on failure.

Bytes are `bv8` and the CRC state is `bv16`, so the uint8 wrap-around of
`addr << 1`, `count + 1` and `1 + count + 2` comes from the arithmetic
itself. The temperature and lux arithmetic is done on mathematical
integers. Lemmas then show that the 16- and 32-bit C variables cannot
overflow.

MCP9808 register 0x0190 decodes to 25.0 degrees and 0x1F90 to -7.0
degrees (`Mcp9808.DecodeExamples`).

Where the same operation goes by two names in the source:

- `main.c` calls `ds18b20_start_measure`, but `ds18b20.c` defines
  `ds18b20_start_meas`. The model treats the two names as one operation,
  `Ds18b20.StartMeas`.
- `main.c` and `veml7700.h` use `veml7700_read_decilux`, but `veml7700.c`
  defines `veml7700_read_lux`. The model treats the two names as one
  operation, `Veml7700.ReadLux`.

## Model

| member | source | states |
|---|---|---|
| Crc16Arc.Crc16ArcLoop | crc16_arc.c:24-33 | the while/for loop computes the byte-wise left fold `Crc16`: each byte xored into the low bits, then eight reflected 0xA001 steps |
| Crc16Arc.EmptyKeepsSeed | crc16_arc.c:26-32 | a zero-length buffer returns the seed unchanged |
| Crc16Arc.Fold | crc16_arc.c:24-32 | continuing from the checksum of `a` over `b` gives the checksum of `a + b`, which is what lets the bridge driver accumulate its CRC piece by piece |
| Crc16Arc.ZeroRun | crc16_arc.c:28-30 | seed 0 over any run of zero bytes gives 0 |
| Crc16Arc.Unfold8 | crc16_arc.c:28-30 | absorbing a byte is the xor into the low eight bits followed by exactly eight shift/xor steps |
| Crc16Arc.InvertedTrailerResidue | crc16_arc.c:24-33 | the checksum of any message followed by its own inverted checksum, low byte first, is the constant residue 0xB001 |
| Crc16Arc.TrailerResidue | crc16_arc.c:24-33 | from any state, absorbing the two inverted bytes of that state gives 0xB001 |
| Crc16Arc.CheckValue | crc16_arc.c:22-33 | from seed 0, ASCII "123456789" gives the CRC-16/ARC catalogue check value 0xBB3D |
| Transport.OneWire.Select | ds18b20.c:46-47 | a select takes the next reply, succeeds exactly on an Ack, and logs the id |
| Transport.OneWire.Write | ds18b20.c:49-50 | a write takes the next reply, succeeds exactly on an Ack, and logs the frame |
| Transport.OneWire.Read | ds18b20.c:52-53 | a read succeeds exactly on a data reply of the requested length; it fills the buffer's first `count` cells with that reply and leaves the buffer untouched on failure |
| Transport.OneWire.BitIo | ds28e17.c:188-190 | a bit exchange succeeds exactly on a level reply and returns that level |
| Transport.OneWire.DelayUs | ds28e17.c:199-200 | a delay adds its duration to the time slept and changes nothing else |
| Transport.DelaysEffect | ds28e17.c:199-200 | `n` delays of `us` add `n * us` to the time slept and nothing else |
| Transport.WriteEachOutcome | ds28e17.c:82-96 | a sequence of writes that stops at the first failure succeeds exactly when the next replies are that many Acks, and then it consumes exactly those |
| Transport.WrittenPrefix | ds28e17.c:82-96 | the frames that reach the bus are the prefix of the request up to and including the first unacknowledged one |
| Transport.WriteEachWritten | ds28e17.c:82-96 | the write log grows by exactly the frames attempted |
| Transport.WriteEachWrites | ds28e17.c:82-96 | the write log grows by the prefix of the frames counted by WriteAttempts: all of them while acknowledged, plus the first failed one |
| Transport.WriteEachKeeps | ds28e17.c:82-96 | a sequence of writes selects, reads, samples and sleeps nothing |
| Ds28e17.BaseWait | ds28e17.c:47-55 | the base wait of each preset (90, 23, 10 us for 100, 400, 900 kHz) is the time one nine-clock I2C byte takes at that speed, rounded up |
| Ds28e17.CheckError | ds28e17.c:222-234 | the status is good exactly when both status bytes are zero; the CRC, address and start bit tests are subsumed |
| Ds28e17.BusyWait | ds28e17.c:181-220 | the busy-wait method (first sample, `count` base waits, countdown loop of 100 rechecks) has exactly the transport effect of BusyWaitSpec |
| Ds28e17.PollOutcome | ds28e17.c:203-216 | the recheck loop succeeds exactly when, within its budget, the first non-busy reply is a clear bit, and it consumes the replies up to that sample |
| Ds28e17.PollTiming | ds28e17.c:203-216 | with k leading busy replies, the loop samples min(k+1, checks) times and sleeps one base wait after each busy sample |
| Ds28e17.BusyWaitOutcome | ds28e17.c:187-219 | the busy wait returns true exactly when one of at most 1 + 100 samples reads 0 before any transport failure |
| Ds28e17.BusyWaitTiming | ds28e17.c:181-220 | at most 101 samples are taken; on a timeout the wait has slept (count + 100) base waits; nothing is selected, written or read |
| Ds28e17.Complete | ds28e17.c:98-108 | the shared tail (busy wait, two-byte status read, status check) has exactly the effect of AwaitStatus |
| Ds28e17.AwaitStatusOutcome | ds28e17.c:98-108 | the tail succeeds exactly when the replies show a clear busy bit within the budget followed by status bytes 00 00 |
| Ds28e17.AwaitStatusEffects | ds28e17.c:98-108 | the tail reads the two status bytes at most once, and not at all when the busy wait fails; it samples at most 101 times, never takes time back, and neither selects nor writes |
| Ds28e17.TransactionOutcome | ds28e17.c:79-108 | select, frame writes and completion all succeed exactly when the whole reply script of the transaction is well formed (Completes) |
| Ds28e17.SelectWritesScript | ds28e17.c:79-96 | when the script starts with one Ack for the select and one per frame, the select and every write succeed and consume exactly those replies |
| Ds28e17.TransactionScript | ds28e17.c:79-108 | a transaction that completes consumes exactly the replies Completes accounts for |
| Ds28e17.TransactionEffects | ds28e17.c:79-108 | a transaction selects the bridge once; it writes a prefix of its frames, and all of them when the writes succeed; select and writes succeed exactly when the script starts with 1 + frames Acks; nothing is read before the status, which is read at most once; time only grows |
| Ds28e17.I2cRead | ds28e17.c:68-112 | the read method has exactly the effect of I2cReadSpec; the caller's buffer receives the data only on success and is untouched otherwise |
| Ds28e17.SendReadRequest | ds28e17.c:73-96 | the three writes, with the CRC accumulated between them, send exactly ReadFrames: [0x2D, addr<<1, 1], [reg], [count, ~lo, ~hi] |
| Ds28e17.ReadRequestCrc | ds28e17.c:77-91 | the piecewise CRC of the read is the CRC of the five bytes 0x2D, addr<<1, 1, reg, count from seed 0 |
| Ds28e17.I2cReadEffects | ds28e17.c:73-111 | a read selects once; it writes a prefix of ReadFrames, all of them on success; it reads nothing unless the select and the three frames are acknowledged, then at most 2 status bytes followed by `count` bytes, exactly those on success, when it returns `count` bytes; time only grows |
| Ds28e17.ReadTransactionSuccess | ds28e17.c:79-111 | a bridged read succeeds exactly when the transaction completes and the next reply carries exactly `count` bytes; it returns those bytes |
| Ds28e17.I2cReadSuccess | ds28e17.c:79-111 | the same for the three read frames: success exactly when they complete and the data reply has `count` bytes, which are returned |
| Ds28e17.ReadFramesChecksum | ds28e17.c:73-95 | the read frames end with the inverted CRC of all earlier bytes, so the bridge's CRC over the whole request is 0xB001 for every address, register and length |
| Ds28e17.I2cWrite | ds28e17.c:114-161 | the write method has exactly the effect of I2cWriteSpec |
| Ds28e17.SendWriteRequest | ds28e17.c:119-146 | the four writes send exactly WriteFrames: [0x4B, addr<<1], [count+1, reg], the payload, [~lo, ~hi] |
| Ds28e17.WriteRequestCrc | ds28e17.c:122-137 | the piecewise CRC of the write is the CRC of 0x4B, addr<<1, count+1, reg and the payload from seed 0 |
| Ds28e17.I2cWriteEffects | ds28e17.c:119-160 | a write selects once; it writes a prefix of WriteFrames, all of them on success; it reads nothing unless the select and the four frames are acknowledged, then at most the 2 status bytes, exactly those on success; time only grows |
| Ds28e17.I2cWriteSuccess | ds28e17.c:124-160 | a write succeeds exactly when the select, the four frames and the completion are acknowledged, and then it consumes exactly those replies |
| Ds28e17.WriteFramesChecksum | ds28e17.c:119-146 | the write request's CRC over all its frames is the residue 0xB001 whatever the address, register and data |
| Ds28e17.SetI2cSpeedFinding | ds28e17.c:164-178 | as written, the speed setting returns false for every reply script; the corrected version succeeds when the select and the write are acknowledged; both cause the same traffic |
| Ds28e17.SetI2cSpeedOutcome | ds28e17.c:164-178 | the corrected speed setting succeeds exactly when the next two replies are Acks; it selects once, writes [0xD2, speed] only after an acknowledged select, and reads nothing |
| Ds28e17.SetI2cSpeed | ds28e17.c:164-178 | the method has exactly the corrected SetI2cSpeedSpec effect |
| Ds28e17.Init | ds28e17.c:63-66 | initialisation is the corrected speed setting (see Findings) with the configured preset 400 kHz |
| Ds18b20.ReadScratchpad | ds18b20.c:42-59 | select, write 0xBE, read `n` bytes into the buffer; the result is whether the CRC-8 over the first nine buffer bytes is 0; failed steps leave the buffer untouched |
| Ds18b20.ReadScratchpadOutcome | ds18b20.c:42-59 | a nine-byte read succeeds exactly when select and command are acknowledged, the reply has nine bytes and their CRC-8 is 0; the buffer then holds those bytes |
| Ds18b20.ScratchpadOverwritten | ds18b20.c:108-110 | the previous contents of the local scratchpad buffer do not affect the result of a full read |
| Ds18b20.Measure | ds18b20.c:69 | the register is the little-endian value of the first two scratchpad bytes, below 2^16 |
| Ds18b20.Tenths | ds18b20.c:86-92 | the fraction term is always a single digit 0..9; it is 10/16 of the sixteenths rounded to nearest for a non-negative reading and down for a negative one |
| Ds18b20.ConvertReference | ds18b20.c:64-96 | the conversion equals the two's-complement reading t (in sixteenths) as (10t + 8) div 16 for t >= 0 and -((-10t) div 16) for t < 0 |
| Ds18b20.ConvertFits | ds18b20.c:64-96 | every register converts to a value in [-20480, 20479], so the int16_t arithmetic never overflows |
| Ds18b20.RawToDeciCelsiusRange | ds18b20.c:98-101 | the result is the sentinel 0x7FFF exactly when the conversion lies outside [-550, 1250]; otherwise it is the in-range conversion |
| Ds18b20.TableReadingsAboveZero | ds18b20.c:62-102 | the datasheet registers 0x07D0, 0x0550, 0x0191, 0x00A2, 0x0008, 0x0000 give 1250, 850 (not rejected), 251, 101, 5, 0 |
| Ds18b20.TableReadingsBelowZero | ds18b20.c:62-102 | 0xFFF8, 0xFF5E, 0xFE6F, 0xFC90 give -5, -101, -250, -550, and 0xFC80 gives the sentinel |
| Ds18b20.RoundingBySign | ds18b20.c:89-96 | 0x0001 rounds up to 1 but 0xFFFF truncates to 0; 0x0178 gives 235 |
| Ds18b20.ReadDeciCelsius | ds18b20.c:105-120 | the method delivers a value exactly as ReadDeciCelsiusSpec does; nothing is delivered on failure |
| Ds18b20.ReadDeciCelsiusOutcome | ds18b20.c:105-120 | a reading is delivered exactly when the scratchpad arrives intact and converts into [-550, 1250]; the value is that conversion of its first two bytes; the sensor is selected once and no time is slept |
| Ds18b20.StartMeas | ds18b20.c:122-130 | the method has exactly the effect of StartMeasSpec |
| Ds18b20.StartMeasOutcome | ds18b20.c:122-130 | a start succeeds exactly when the next two replies are Acks; it selects once and writes the single byte 0x44 only after an acknowledged select |
| Mcp9808.BigEndian | src/mcp9808.c:54-57 | after SWAP16 the register is the first byte received times 256 plus the second, below 2^16 |
| Mcp9808.BigEndianRoundTrip | src/mcp9808.c:57 | the high and low byte can be recovered from the register value, so the swap loses nothing |
| Mcp9808.ExpectedIdBytes | src/mcp9808.c:64 | the ids 0x0054 and 0x0400 are matched by exactly the byte pairs 00 54 and 04 00 |
| Mcp9808.Present | src/mcp9808.c:49-68 | the probe method has exactly the effect of PresentSpec |
| Mcp9808.PresentOutcome | src/mcp9808.c:49-68 | the probe is true exactly when both reads at 0x18 (registers 0x06, 0x07) succeed with 00 54 and 04 00; a positive probe writes exactly those two read requests |
| Mcp9808.PresentSelects | src/mcp9808.c:54-60 | the second read is attempted only when the first succeeds: the probe selects the bridge twice exactly then, once otherwise |
| Mcp9808.DecodeReference | src/mcp9808.c:80-84 | the result is ten times the 13-bit two's-complement reading in sixteenths, divided by 16 and rounded toward minus infinity |
| Mcp9808.DecodeRange | src/mcp9808.c:80-86 | every register decodes into [-2560, 2559], so the int16_t cast is lossless, and the alert flags in bits 13-15 never change the result |
| Mcp9808.DecodeMonotone | src/mcp9808.c:80-84 | a higher reading never decodes to a lower temperature |
| Mcp9808.DecodeExamples | src/mcp9808.c:78-84 | 0x0190 gives 250, 0x00A0 gives 100, 0x1F90 and 0xFF90 give -70 |
| Mcp9808.ReadDeciCelsius | src/mcp9808.c:70-89 | the method delivers a value exactly as ReadDeciCelsiusSpec does; nothing on failure |
| Mcp9808.ReadDeciCelsiusOutcome | src/mcp9808.c:70-89 | a reading is delivered exactly when the bridged read of register 0x05 succeeds; it is the decoding of the two bytes, high first, in [-2560, 2559]; the bridge is selected once and time only grows |
| Veml7700.FactorsInverse | veml7700.c:54-76 | the gain factors 2/1/16/8 and integration-time factors 1..32 are inversely proportional to gain and integration time |
| Veml7700.ConfigWord | veml7700.c:38-48 | every gain/integration time combination is a 16-bit word |
| Veml7700.ConfigRoundTrip | veml7700.c:38-48 | gain and integration time fields do not overlap: both settings are read back unchanged from the word, and bits 0-5 stay clear |
| Veml7700.FactorOfSettings | veml7700.c:54-78 | the factor is 36 times gain factor times integration-time factor, 576 for x1 and 100 ms; no setting makes a 16-bit count times the factor overflow 32 bits |
| Veml7700.Init | veml7700.c:82-87 | the method has exactly the effect of InitSpec |
| Veml7700.InitOutcome | veml7700.c:82-87 | the configuration is the word 0x0000 sent as two zero bytes to register 0x00 at address 0x10; it succeeds exactly when the bridge write completes; it selects once and writes a prefix of the configuration frames, all of them on success |
| Veml7700.LittleEndian | veml7700.c:92-97 | the ALS register is the first byte plus 256 times the second, with no swap |
| Veml7700.ScaleLuxReference | veml7700.c:102-107 | the result is raw times 576 divided by 1000, rounded down |
| Veml7700.ScaleLuxMonotone | veml7700.c:102-107 | scaling is monotone and never exceeds 37748, its value at 0xFFFF |
| Veml7700.ScaleLuxExamples | veml7700.c:102-107 | 0, 1, 2, 100, 1000 give 0, 0, 1, 57, 576 |
| Veml7700.ReadLux | veml7700.c:90-100 | the method delivers a value exactly as ReadLuxSpec does; nothing on failure |
| Veml7700.ReadLuxOutcome | veml7700.c:90-100 | a level is delivered exactly when the bridged read of register 0x04 succeeds; it is the scaled little-endian count, at most 37748; the bridge is selected once and time only grows |
| Dispatch.SensorCount | main.c:77-79 | a standalone arithmetic fact: the count is the native plus the bridged count, taken in eight bits, and exactly their sum within MAX_SENSORS; it is not tied to the list of ids, which comes from the search |
| Dispatch.ClassifyAll | main.c:83-106 | one type is recorded per sensor found |
| Dispatch.ClassifyTypes | main.c:83-106 | each sensor gets the type its family code calls for: DS18B20 exactly for 0x28, MCP9808 or VEML7700 exactly for 0x19, unknown otherwise |
| Dispatch.ClassifyOneSelects | main.c:87-100 | a bridge is selected once for the speed setting; it is typed MCP9808 exactly when the probe answers, and then nothing follows the probe (three selects in all); typed VEML7700, it is selected once more after the probe and only configuration frames are written after it; other sensors are not addressed |
| Dispatch.ClassifyOneSelectCount | main.c:87-100 | a bridge is selected three or four times in all, always under its own id |
| Dispatch.ClassifySelects | main.c:83-106 | classification addresses only bridges, never a DS18B20 |
| Dispatch.SetupFinding | main.c:81-107 | as written, a lone DS18B20 with no bridge keeps a stale type and is never read; the corrected classification types it DS18B20; with a bridge the two agree |
| Dispatch.ClassifySensor | main.c:85-105 | the loop body has exactly the effect of ClassifyOne |
| Dispatch.Setup | main.c:83-106 | the loop fills the first |ids| cells of the type array with ClassifyAll's types and leaves the rest alone |
| Dispatch.StartAllEffects | main.c:113-121 | the start is never broadcast: exactly the DS18B20s, chosen by family code, are selected, in order, once each; every reported failure is a DS18B20 index |
| Dispatch.StartAllFailures | main.c:116-119 | a failure is reported for an index exactly when it is a DS18B20 whose start, on the bus the earlier starts left, fails |
| Dispatch.StartAllFailuresOrdered | main.c:114-120 | the reported failures are indices of the sensor list, strictly increasing, so each sensor is reported at most once and in order |
| Dispatch.StartAllWrites | main.c:116-119 | the start phase keeps earlier writes and adds only convert commands [0x44], at most one per DS18B20 |
| Dispatch.StartConversions | main.c:113-121 | the start loop has exactly the effect of StartAll |
| Dispatch.ReadOneFits | main.c:127-179 | each sensor's report is of the kind its type names and within that kind's range; a sensor of known type is selected exactly once, under its own id; one of unknown type is reported as unknown and not addressed; no read takes time back |
| Dispatch.ReadAllSleeps | main.c:125-180 | the read loop never takes time back |
| Dispatch.ReadSensor | main.c:127-179 | the dispatch by type has exactly the effect of ReadOne |
| Dispatch.ReadAllSelects | main.c:125-180 | the read loop selects exactly the sensors of known type (`Addressed`), in index order, each once |
| Dispatch.ReadAllReports | main.c:125-180 | the read loop produces exactly one report per sensor, in index order, each fitting its type; a failure is reported and the loop continues |
| Dispatch.ReadSensors | main.c:125-180 | the read loop has exactly the effect of ReadAll |
| Dispatch.Cycle | main.c:113-180 | one pass of the main loop: start loop, 1000 ms wait, read loop, as CycleSpec |
| Dispatch.CycleOutcome | main.c:113-180 | a cycle selects exactly the DS18B20s for the start and then exactly the sensors of known type for the reads, each once and in order; it reports every sensor once, in order, within range, and sleeps at least the 1000 ms conversion time |
| Dispatch.SplitTemperatureRoundTrip | main.c:133-138 | the printed sign is '-' exactly for negative values; whole and tenth reassemble the value, and the tenth is one digit |
| Dispatch.SplitLuxRoundTrip | main.c:169 | whole lux and tenth reassemble the value, and the tenth is one digit |

## Left out

- The 1-Wire transport itself is not modelled: bit-banging, the DS2482 master, the ROM search `onewire_search_devices` and `onewire.h`. It is a scripted oracle. The search results are inputs: the list of ids and the two counts.
- crc8 (`crc8.h`) is not shown in the source. It is a function parameter of the DS18B20 operations.
- `SWAP16` (`util.h`) is not shown. It is modelled as the byte swap of a little-endian host (`Mcp9808.BigEndian`).
- `io_init`, interrupt enabling, the USART set-up and `printf` are hardware plumbing and text output. The printed lines are modelled as `Dispatch.Report` values and as the arguments of the split functions, not as text.
- Real time is not modelled. `_delay_us` and `_delay_ms` add to a counter of microseconds slept.
- The infinite `for (;;)` loop is not modelled. One pass is `Dispatch.Cycle`.
- The log keeps selects, writes, reads, samples and sleeps in separate sequences. So the model does not state the interleaving order between different kinds of call, only the order within each kind.
- A negative `len` in `crc16_arc` is not modelled. `len` is an `int`, 16 bits on the AVR, so `len--` from a negative value ends in signed overflow, which C leaves undefined; were it to wrap, the loop would run about 2^16 times. Every caller passes a small non-negative length, and the model takes the buffer as a sequence.
- The DS18B20 family code 0x28 is the documented DS18B20 family code. `ds18b20.h`, which defines it, is not part of this model.
- Several constants are declared in the source but used by no operation, so they are not modelled: the MCP9808 configuration, limit and critical-temperature register addresses and the configuration register bits; `DS18B20_READ_ROM`; and the DS28E17 command codes 0x5A, 0x69, 0x78, 0x87, 0xE1, 0x1E and 0xC4 (write without stop, write only, write only with stop, read with stop, read configuration, enable sleep mode, read device revision).
- `Dispatch.Setup` models the classification as it is evidently intended, that is, always run (see Findings). `Dispatch.SetupAsWritten` models the guard as written.
- Ds28e17.Init: returns the corrected success flag of the speed setting, not the constant false of the code as written (see Findings); the bus traffic is the same.
- Transport.OneWire.Read: that a failed read leaves the whole buffer untouched is an assumption about the transport, which is a scripted oracle here; `ow_read` is not part of this model, so whether it stores part of a reply before failing is not stated.
- `Dispatch.ClassifySensor` uses the corrected speed setting. Its result is ignored in `main.c`, so the bus traffic is the same as written.

## Findings

| source | as written | input that shows it | evidently intended | confidence | as-written member | corrected member |
|---|---|---|---|---|---|---|
| ds28e17.c:164-178 | the test of the write's result is inverted, so an acknowledged write returns false, and the fall-through returns 0 as well; so `ds28e17_set_i2c_speed`, and with it `ds28e17_init`, returns false on every path | a bus that acknowledges the select and the configuration write (a script starting with two Acks) | return true when the select and the configuration write are both acknowledged | not executed | Ds28e17.SetI2cSpeedAsWritten, Ds28e17.SetI2cSpeedFinding | Ds28e17.SetI2cSpeedSpec, Ds28e17.SetI2cSpeedOutcome |
| main.c:81-107 | the whole classification loop is guarded by `if (num_bridged_devs)`, so with native sensors alone `dev_types` is never assigned and its indeterminate contents decide the dispatch | one DS18B20 (id 28 01 02 03 04 05 06 07), no bridge, stale type 0 | classify every sensor whether or not a bridge was found | not executed | Dispatch.SetupAsWritten, Dispatch.SetupFinding | Dispatch.ClassifyAll, Dispatch.Setup |
