# MH-Z19B CO2 sensor driver — verified model

This project models the core of `MHZ19BDriver`, a Java driver for the Winsen
MH-Z19B infrared CO2 sensor over a 9600-8-N-1 serial line, and proves
properties of that model in Dafny.

The model has three parts:

- **Frame codec** (`codec.dfy`, module `Codec`). It builds 9-byte command
  frames `FF 01 <op> b3..b7 <checksum>`. The checksum is the one-byte negation
  of the sum of bytes 1..7. A 16-bit argument is split into a high and a low
  byte. The gas concentration is decoded from bytes 2..3 of the response. The
  loops of `getCheckSum` and `convertInt` are methods proved against the
  functions `CheckSum` and `BigEndian`. `getCommandWithCheckSum` fills a fresh
  array. Java's signed `byte`, its `(byte)` cast, `& 0xff`, `~`, truncating
  `/` and `%`, and 32-bit `int` wrap-around are written out in `java_ints.dfy`
  (module `JavaInts`).
- **Session lifecycle** (`driver.dfy`, class `MHZ19B.Driver`). The use counter
  only takes the values 0 and 1. `Open` acts on the port only on the 0→1
  transition and `Close` only on the 1→0 transition. The counter changes
  before the port is called. The sensor commands are write exchanges over the
  port; the concentration query is a write followed by a read. Each command
  method is specified by exactly the frame it hands to the port.
- **Port registry** (`driver.dfy`, class `MHZ19B.Registry`). An explicit
  object holds a `map<string, Driver>`; the Java code keeps this table in a
  static field. `GetInstance` creates a driver only for an absent name, and
  always sets the returned driver's timeout.

The serial port library is foreign code. It is replaced by the class
`SerialTransport.SerialPort` (`serial_port.dfy`). In that class the outcome of
each call is chosen nondeterministically. Whether the port is open and its
settings are real fields. Bytes the sensor has sent and that are not yet read
wait in `inbox`. Bytes the sensor sends while a read waits join `inbox` and
can be read by that same read. A ghost `trace` records every open, close, write and read in
call order. The transport's contract assumes that a read or a write on a
closed port returns -1, that nothing arrives on a closed port, and that a
successful close discards the input not yet read.

`session_scenarios.dfy` (module `SessionScenarios`) holds call sequences whose
contracts state what a caller can conclude from the driver's contracts.

Four behaviours of the code are easy to miss:

- A failed `openPort` leaves the use counter at 1, not 0. A second `open` is
  then a no-op that succeeds, and when the port was closed before the first
  open it stays closed. Only `close` followed by `open` retries
  (`SessionScenarios.OpenAfterFailedOpen`). A failed `closePort` leaves the
  counter at 0 with the port still open, so a later failed open is followed
  by a close that does call `closePort` (`SessionScenarios.OpenThenClose`).
- No pending input is drained before a command is written.
  `getGasConcentration` writes and then reads at once, so bytes already
  waiting are read as the answer (`SessionScenarios.QueryReadsPendingInput`,
  `SessionScenarios.StaleReplyAnswersQuery`). With nothing waiting, the
  answer is the sensor's reply (`SessionScenarios.QueryAnswersWithReply`).
- A second `getInstance` for an open driver stores the new timeout, but the
  port keeps the timeout it was opened with; only the next 0→1 `open`
  applies it (`SessionScenarios.TimeoutNotReapplied`).
- A read that times out is not an error. It returns the bytes that arrived,
  padded with zeros to 9 bytes, and that padded frame is decoded.

## Model

| member | source | states |
|---|---|---|
| `Codec.SumsAgreeModulo256` | src/io/github/s5uishida/iot/device/mhz19b/driver/MHZ19BDriver.java:178-180 | Adding bytes sign-extended (`(int)data[i]`) gives the same sum modulo 256 as adding them unsigned. |
| `Codec.CheckSumNegatesSum` | src/io/github/s5uishida/iot/device/mhz19b/driver/MHZ19BDriver.java:176-182 | The checksum byte, read unsigned, equals `(-(unsigned sum of bytes 1..7)) mod 256`. |
| `Codec.CheckSumClosedForm` | src/io/github/s5uishida/iot/device/mhz19b/driver/MHZ19BDriver.java:176-182 | For an 8-byte base command, the checksum is the byte cast of minus the sum of bytes 1..7 read unsigned. |
| `Codec.GetCheckSum` | src/io/github/s5uishida/iot/device/mhz19b/driver/MHZ19BDriver.java:176-182 | The loop over bytes 1..7 returns the checksum, which negates their unsigned sum modulo 256. |
| `Codec.WithCheckSumSpec` | src/io/github/s5uishida/iot/device/mhz19b/driver/MHZ19BDriver.java:184-190 | Appending the checksum to an 8-byte base gives 9 bytes. The first 8 are unchanged. Bytes 1..8 then sum to 0 modulo 256. |
| `Codec.ChecksumValidIff` | src/io/github/s5uishida/iot/device/mhz19b/driver/MHZ19BDriver.java:176-190 | A 9-byte frame has bytes 1..8 summing to 0 modulo 256 exactly when its last byte is the checksum of its first eight. |
| `Codec.LastByteOfValidFrame` | src/io/github/s5uishida/iot/device/mhz19b/driver/MHZ19BDriver.java:176-182 | In a 9-byte frame whose bytes 1..8 sum to 0 modulo 256, byte 8 is the checksum of the first eight bytes. |
| `Codec.GetCommandWithCheckSum` | src/io/github/s5uishida/iot/device/mhz19b/driver/MHZ19BDriver.java:184-190 | Returns a fresh array holding the base command followed by its checksum. |
| `Codec.PrecomputedCheckSums` | src/io/github/s5uishida/iot/device/mhz19b/driver/MHZ19BDriver.java:29-30 | The hard-coded checksums `0x79` (query, op `0x86`) and `0x78` (zero point, op `0x87`) are what `getCheckSum` computes. Both frames are well formed. |
| `Codec.AutoCalibrationOnFrame` | src/io/github/s5uishida/iot/device/mhz19b/driver/MHZ19BDriver.java:31 | The auto-calibration-on frame is `FF 01 79 A0 00 00 00 00 E6`, and it is well formed. |
| `Codec.AutoCalibrationOffFrame` | src/io/github/s5uishida/iot/device/mhz19b/driver/MHZ19BDriver.java:32 | The auto-calibration-off frame is `FF 01 79 00 00 00 00 00 86`, and it is well formed. |
| `Codec.ConvertInt` | src/io/github/s5uishida/iot/device/mhz19b/driver/MHZ19BDriver.java:168-174 | The shift-and-add loop returns the big-endian unsigned value of the bytes, wrapped to a 32-bit Java int. |
| `Codec.BigEndianBound` | src/io/github/s5uishida/iot/device/mhz19b/driver/MHZ19BDriver.java:168-174 | The big-endian value of n bytes is below 256^n. |
| `Codec.ConvertIntNoWrap` | src/io/github/s5uishida/iot/device/mhz19b/driver/MHZ19BDriver.java:168-174 | For up to three bytes the 32-bit wrap never applies, so the result is the plain big-endian value. |
| `Codec.Concentration` | src/io/github/s5uishida/iot/device/mhz19b/driver/MHZ19BDriver.java:192-200 | The decoded concentration equals `(received[2] & 0xff) * 256 + (received[3] & 0xff)`. It lies in [0, 65535]. No other response byte is examined. |
| `Codec.ConcentrationExample` | src/io/github/s5uishida/iot/device/mhz19b/driver/MHZ19BDriver.java:196-197 | A response starting `FF 86 03 20` decodes to 800 ppm, whatever its other bytes are. |
| `Codec.HighByte` | src/io/github/s5uishida/iot/device/mhz19b/driver/MHZ19BDriver.java:213 | For v ≥ 0, the high byte `(byte)((v / 256) & 0xff)` read unsigned is (v / 256) mod 256. |
| `Codec.LowByte` | src/io/github/s5uishida/iot/device/mhz19b/driver/MHZ19BDriver.java:214 | For v ≥ 0, the low byte `(byte)((v % 256) & 0xff)` read unsigned is v mod 256. |
| `Codec.SplitTruncates` | src/io/github/s5uishida/iot/device/mhz19b/driver/MHZ19BDriver.java:213-214 | For v ≥ 0, decoding the high byte `(v/256)&0xff` and the low byte `(v%256)&0xff` gives v mod 65536. Bits above 16 are dropped silently. |
| `Codec.SplitRoundTrip` | src/io/github/s5uishida/iot/device/mhz19b/driver/MHZ19BDriver.java:232-233 | For 0 ≤ v ≤ 65535 the high/low split decodes back to v. |
| `Codec.ConcentrationInvertsSplit` | src/io/github/s5uishida/iot/device/mhz19b/driver/MHZ19BDriver.java:196-197 | A response whose bytes 2..3 hold the split of v decodes to v. |
| `Codec.ClampSpanPoint` | src/io/github/s5uishida/iot/device/mhz19b/driver/MHZ19BDriver.java:208-211 | The span point sent is at least 1000, and equals the requested point whenever that is at least 1000. |
| `Codec.SpanPointClamped` | src/io/github/s5uishida/iot/device/mhz19b/driver/MHZ19BDriver.java:207-217 | For every int point, the span frame is well formed with opcode `0x88`, and bytes 3..4 carry max(point, 1000) modulo 65536, which is max(point, 1000) itself up to 65535. Every point below 1000 gives the same frame as 1000, so it is never rejected. |
| `Codec.DetectionRangeEncodes` | src/io/github/s5uishida/iot/device/mhz19b/driver/MHZ19BDriver.java:231-236 | The range frame is well formed with opcode `0x99`, and bytes 3..4 carry the range. |
| `Codec.DetectionRange2000Frame` | src/io/github/s5uishida/iot/device/mhz19b/driver/MHZ19BDriver.java:240-242 | The 2000 ppm preset frame is `FF 01 99 07 D0 00 00 00 8F`. |
| `Codec.DetectionRange5000Frame` | src/io/github/s5uishida/iot/device/mhz19b/driver/MHZ19BDriver.java:244-246 | The 5000 ppm preset frame is `FF 01 99 13 88 00 00 00 CB`. |
| `MHZ19B.Driver.constructor` | src/io/github/s5uishida/iot/device/mhz19b/driver/MHZ19BDriver.java:69-78 | A new driver has counter 0, the given name and timeout, and a fresh port handle that is not open. |
| `MHZ19B.Driver.SetTimeout` | src/io/github/s5uishida/iot/device/mhz19b/driver/MHZ19BDriver.java:61-63 | Only the timeout changes, to the given value. |
| `MHZ19B.Driver.CompareAndSet` | src/io/github/s5uishida/iot/device/mhz19b/driver/MHZ19BDriver.java:83 | The counter becomes `update` exactly when it equalled `expected`, and the result says whether it did. |
| `MHZ19B.Driver.Open` | src/io/github/s5uishida/iot/device/mhz19b/driver/MHZ19BDriver.java:80-100 | The counter ends at 1 and stays in {0, 1}. From 1 the call succeeds and leaves the port unchanged. From 0 it calls `openPort` exactly once. On success the port is open and set to 9600 baud, 8 data bits, one stop bit, no parity, and blocking reads with the timeout. On failure the error is OpenFailed and the counter stays at 1. |
| `MHZ19B.Driver.Close` | src/io/github/s5uishida/iot/device/mhz19b/driver/MHZ19BDriver.java:102-122 | The counter ends at 0. From 0, or when the port already reports closed, the call succeeds and leaves the port unchanged. Otherwise it calls `closePort` exactly once. Success leaves the port closed with no input pending. Failure gives CloseFailed with the counter already 0 and the port still open. |
| `MHZ19B.Driver.IsOpened` | src/io/github/s5uishida/iot/device/mhz19b/driver/MHZ19BDriver.java:124-126 | Reports the port's own open flag, not the use counter: after a failed open the counter is 1 while `IsOpened` is false (`SessionScenarios.OpenAfterFailedOpen`). |
| `MHZ19B.Driver.Write` | src/io/github/s5uishida/iot/device/mhz19b/driver/MHZ19BDriver.java:146-154 | Hands the whole array to the port once. It fails with WriteFailed exactly when the port returns -1. |
| `MHZ19B.Driver.Read` | src/io/github/s5uishida/iot/device/mhz19b/driver/MHZ19BDriver.java:156-166 | It fails only when the port returns -1, consuming no byte. Otherwise the bytes available are those pending followed by those the sensor sends while the read waits. It returns the first min(size, available) of them, followed by zeros up to size, and leaves the rest pending. A short read is not detected. |
| `MHZ19B.Driver.GetGasConcentration` | src/io/github/s5uishida/iot/device/mhz19b/driver/MHZ19BDriver.java:192-200 | Writes the query frame. If the write fails, it stops with WriteFailed and reads nothing. Otherwise it reads 9 bytes from the pending input followed by the sensor's reply, and returns the concentration of that zero-padded frame, or ReadFailed. |
| `MHZ19B.ReadFrame` | src/io/github/s5uishida/iot/device/mhz19b/driver/MHZ19BDriver.java:156-166 | The array a read returns has the requested size. Position i holds the i-th available byte when there is one, and 0 otherwise. |
| `MHZ19B.Driver.SetCalibrateZeroPoint` | src/io/github/s5uishida/iot/device/mhz19b/driver/MHZ19BDriver.java:202-205 | Writes exactly the precomputed zero-point frame and reports WriteFailed exactly when that write fails. |
| `MHZ19B.Driver.SetCalibrateSpanPoint` | src/io/github/s5uishida/iot/device/mhz19b/driver/MHZ19BDriver.java:207-219 | Writes exactly the span frame for the clamped point and reports WriteFailed exactly when that write fails. |
| `MHZ19B.Driver.SetAutoCalibration` | src/io/github/s5uishida/iot/device/mhz19b/driver/MHZ19BDriver.java:221-229 | Writes exactly the on or the off frame with its checksum, and reports WriteFailed exactly when that write fails. |
| `MHZ19B.Driver.SetDetectionRange` | src/io/github/s5uishida/iot/device/mhz19b/driver/MHZ19BDriver.java:231-238 | Writes exactly the range frame with opcode `0x99` and reports WriteFailed exactly when that write fails. |
| `MHZ19B.Driver.SetDetectionRange2000` | src/io/github/s5uishida/iot/device/mhz19b/driver/MHZ19BDriver.java:240-242 | Writes exactly the range frame for 2000 ppm. |
| `MHZ19B.Driver.SetDetectionRange5000` | src/io/github/s5uishida/iot/device/mhz19b/driver/MHZ19BDriver.java:244-246 | Writes exactly the range frame for 5000 ppm. |
| `MHZ19B.Registry.constructor` | src/io/github/s5uishida/iot/device/mhz19b/driver/MHZ19BDriver.java:45 | The table starts empty. |
| `MHZ19B.Registry.GetInstance` | src/io/github/s5uishida/iot/device/mhz19b/driver/MHZ19BDriver.java:51-59 | For an absent name it creates a fresh driver with counter 0, owning a fresh closed port with no input pending and no calls made, and inserts it. For a present name it returns the stored driver, counter untouched. Either way the table becomes `old[name := d]`, so other names are unchanged, and `d`'s timeout is the given one. The table keeps every driver under its own name, with its counter in {0, 1} and a port handle no other driver shares. |
| `MHZ19B.Registry.GetDefaultInstance` | src/io/github/s5uishida/iot/device/mhz19b/driver/MHZ19BDriver.java:47-49 | For an absent name it creates a fresh driver with counter 0, owning a fresh closed port with no input pending and no calls made, and inserts it. For a present name it returns the stored driver, counter untouched. Either way the table becomes `old[name := d]`, and `d`'s timeout is the default of 1000 ms. |
| `SessionScenarios.OpenTwice` | src/io/github/s5uishida/iot/device/mhz19b/driver/MHZ19BDriver.java:80-100 | From counter 0, two opens call `openPort` once, and the second open succeeds. |
| `SessionScenarios.CloseTwice` | src/io/github/s5uishida/iot/device/mhz19b/driver/MHZ19BDriver.java:102-122 | Two closes call `closePort` at most once, and the second close succeeds. |
| `SessionScenarios.CloseBeforeOpen` | src/io/github/s5uishida/iot/device/mhz19b/driver/MHZ19BDriver.java:102-122 | Closing a driver freshly acquired from the registry, never opened, succeeds and makes no port call. |
| `SessionScenarios.OpenThenClose` | src/io/github/s5uishida/iot/device/mhz19b/driver/MHZ19BDriver.java:80-122 | An open followed by a close ends with counter 0. When the open succeeds, it calls `openPort`, then `closePort`, in that order. When the open fails and the port was closed before it, the close makes no port call. When the open fails on a port still open (after a failed close), the close calls `closePort`. |
| `SessionScenarios.OpenAfterFailedOpen` | src/io/github/s5uishida/iot/device/mhz19b/driver/MHZ19BDriver.java:83-89 | After a failed open of a port that was closed, a second open succeeds without calling `openPort`. The port stays closed, as `isOpened` reports, and the next query fails at its write. |
| `SessionScenarios.QueryAnswersWithReply` | src/io/github/s5uishida/iot/device/mhz19b/driver/MHZ19BDriver.java:192-200 | A query on a closed port fails with WriteFailed. With nothing pending, a successful query decodes bytes 2..3 of the sensor's reply. The reply `FF 86 03 20 00 00 00 00 57` gives 800 ppm and is read entirely. |
| `SessionScenarios.QueryReadsPendingInput` | src/io/github/s5uishida/iot/device/mhz19b/driver/MHZ19BDriver.java:193-196 | When at least 4 bytes are already pending, a successful query decodes their bytes 2..3, whatever the sensor replies. |
| `SessionScenarios.StaleReplyAnswersQuery` | src/io/github/s5uishida/iot/device/mhz19b/driver/MHZ19BDriver.java:193-196 | On an open port, once an 800 ppm reply has been received and not read, the next successful query returns 800, whatever the sensor answers to it. |
| `SessionScenarios.RegistryOpenQuery` | src/io/github/s5uishida/iot/device/mhz19b/driver/MHZ19BDriver.java:47-100 | A driver acquired from the registry for a new name, opened and queried answers only if the open succeeded, and the sensor's reply `FF 86 03 20 00 00 00 00 57` gives 800 ppm. |
| `SessionScenarios.TimeoutNotReapplied` | src/io/github/s5uishida/iot/device/mhz19b/driver/MHZ19BDriver.java:51-63 | After a driver is acquired with timeout t1 and opened, acquiring it again with t2 stores t2, while the open port's read and write timeouts stay t1. |
| `SessionScenarios.AcquireTwice` | src/io/github/s5uishida/iot/device/mhz19b/driver/MHZ19BDriver.java:51-59 | Two acquisitions of one name return the same driver, and the first reference sees the second timeout. |

## Left out

- The serial port library (`getCommPort`, `openPort`, `closePort`, the setters, `writeBytes`, `readBytes`) is foreign code. It is modelled as `SerialTransport.SerialPort`, whose outcomes are nondeterministic. That model assumes that reads and writes on a closed port return -1.
- `synchronized`, `AtomicInteger` and `ConcurrentHashMap` are modelled sequentially. Each compare-and-set is a guarded assignment, so interleavings of concurrent callers are not modelled.
- Logging, the `dump` hex trace, `getLogPrefix`, `getPortName` and the `/dev/` prefix are left out. They only build strings for diagnostics, and `getPortName` depends on the foreign `getSystemPortName`.
- The sample `main` polling loop with `Thread.sleep` is left out. It is sample I/O code.
- Read timeouts are not modelled as wall-clock time. The timeout is a stored integer, passed to the port settings; a timeout shows up only as a short read, when fewer bytes arrive than were asked for.
- The number of bytes a successful `writeBytes` reports is not recorded. The driver ignores it; a partial write is not modelled.
- `Objects.requireNonNull(portName)` is not modelled: Dafny strings are never null.
- The static command arrays are copied into a fresh array on each call. Nothing ever changes those arrays, so sharing them does not matter.
- Codec.SplitTruncates: states the decoded value only for non-negative arguments. Negative ones cannot reach the split: the span point is clamped to at least 1000, and the private range setter is only called with 2000 and 5000.
- Codec.DetectionRangeEncodes: states the decoded range only for 0..65535. The private range setter is only called with 2000 and 5000.
