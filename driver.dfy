/** The MH-Z19B driver: one session per serial port, with a use counter that
    makes `open` and `close` act only on the 0->1 and 1->0 transitions, and the
    sensor's commands as write (and, for the concentration, read) exchanges
    over the port. `Registry` is the name-keyed table that hands out one
    driver per port name. Calls are modelled one at a time: each
    compare-and-set on the counter is a guarded assignment. */
module MHZ19B {
  import opened JavaInts
  import opened Codec
  import opened SerialTransport

  /** Default read timeout in milliseconds. */
  const DefaultTimeout: JInt := 1000

  const BaudRate: int := 9600
  const DataBits: int := 8

  /** The causes of the driver's `IOException`s. */
  datatype IoError = OpenFailed | CloseFailed | WriteFailed | ReadFailed

  datatype Result<T> = Ok(value: T) | Err(error: IoError)

  /** The port settings a successful `open` leaves behind: 9600 baud, 8 data
      bits, one stop bit, no parity, blocking reads with `timeout` both ways. */
  function SessionSettings(timeout: JInt): PortSettings
  {
    PortSettings(BaudRate, DataBits, OneStopBit, NoParity, ReadBlocking, timeout, timeout)
  }

  /** `n` zero bytes: what a fresh Java `byte[]` holds. */
  function Zeros(n: nat): (z: seq<JByte>)
    ensures |z| == n && forall i :: 0 <= i < n ==> z[i] == 0
  {
    seq(n, i => 0)
  }

  /** What `read(size)` returns when `available` bytes are there to take: the
      first of them, up to `size`, then zeros where a short read left the
      fresh array untouched. */
  function ReadFrame(available: seq<JByte>, size: nat): (f: seq<JByte>)
    ensures |f| == size
    ensures forall i :: 0 <= i < size ==> f[i] == if i < |available| then available[i] else 0
  {
    var n := ReadCount(size, |available|);
    available[..n] + Zeros(size - n)
  }

  /** A fresh array holding `s` (the driver's constant command arrays). */
  method NewArray(s: seq<JByte>) returns (a: array<JByte>)
    ensures fresh(a) && a[..] == s
  {
    a := new JByte[|s|](i requires 0 <= i < |s| => s[i]);
  }

  class Driver {
    const portName: string
    const serialPort: SerialPort
    var timeout: JInt
    var useCount: int

    /** The use counter is 0 (logically closed) or 1 (logically open). */
    ghost predicate Valid()
      reads this
    {
      useCount == 0 || useCount == 1
    }

    constructor (portName: string, timeout: JInt)
      ensures Valid() && useCount == 0
      ensures this.portName == portName && this.timeout == timeout
      ensures fresh(serialPort) && serialPort.systemPortName == portName
      ensures !serialPort.isOpen && serialPort.inbox == [] && serialPort.trace == []
    {
      this.portName := portName;
      serialPort := new SerialPort(portName);
      this.timeout := timeout;
      useCount := 0;
    }

    method SetTimeout(timeout: JInt)
      modifies this`timeout
      ensures this.timeout == timeout
    {
      this.timeout := timeout;
    }

    /** `AtomicInteger.compareAndSet`: sets the counter to `update` exactly when
        it equals `expected`, and says whether it did. */
    method CompareAndSet(expected: int, update: int) returns (swapped: bool)
      modifies this`useCount
      ensures swapped == (old(useCount) == expected)
      ensures useCount == if swapped then update else old(useCount)
    {
      swapped := useCount == expected;
      if swapped {
        useCount := update;
      }
    }

    /** `open`: only the 0->1 transition touches the port. The counter is set
        before `openPort` is tried, so a failed open leaves it at 1. */
    method Open() returns (r: Result<()>)
      requires Valid()
      modifies this`useCount, serialPort
      ensures Valid() && useCount == 1
      ensures old(useCount) == 1 ==> r == Ok(()) && unchanged(serialPort)
      ensures old(useCount) == 0 ==>
                serialPort.trace == old(serialPort.trace) + [OpenCall(r.Ok?)] &&
                serialPort.inbox == old(serialPort.inbox) &&
                (r.Ok? ==> serialPort.isOpen && serialPort.settings == SessionSettings(timeout)) &&
                (r.Err? ==> r.error == OpenFailed && serialPort.isOpen == old(serialPort.isOpen) &&
                            serialPort.settings == old(serialPort.settings))
    {
      var first := CompareAndSet(0, 1);
      if first {
        var ok := serialPort.OpenPort();
        if !ok {
          return Err(OpenFailed);
        }
        serialPort.SetBaudRate(BaudRate);
        serialPort.SetNumDataBits(DataBits);
        serialPort.SetNumStopBits(OneStopBit);
        serialPort.SetParity(NoParity);
        serialPort.SetComPortTimeouts(ReadBlocking, timeout, timeout);
      }
      r := Ok(());
    }

    /** `close`: only the 1->0 transition touches the port, and only to close
        it when it reports itself open. The counter is reset before
        `closePort` is tried, so a failed close leaves it at 0. */
    method Close() returns (r: Result<()>)
      requires Valid()
      modifies this`useCount, serialPort
      ensures Valid() && useCount == 0
      ensures old(useCount) == 0 || !old(serialPort.isOpen) ==> r == Ok(()) && unchanged(serialPort)
      ensures old(useCount) == 1 && old(serialPort.isOpen) ==>
                serialPort.trace == old(serialPort.trace) + [CloseCall(r.Ok?)] &&
                serialPort.inbox == (if r.Ok? then [] else old(serialPort.inbox)) &&
                serialPort.settings == old(serialPort.settings) &&
                (r.Ok? ==> !serialPort.isOpen) &&
                (r.Err? ==> r.error == CloseFailed && serialPort.isOpen)
    {
      var last := CompareAndSet(1, 0);
      if last {
        if serialPort.isOpen {
          var closed := serialPort.ClosePort();
          if !closed {
            return Err(CloseFailed);
          }
        }
      }
      r := Ok(());
    }

    /** `isOpened`: the port's own state, whatever the counter says. */
    function IsOpened(): (portOpen: bool)
      reads this, serialPort
      ensures portOpen == serialPort.isOpen
    {
      serialPort.isOpen
    }

    /** `write`: hands the whole array to the port; fails exactly when the
        port returns -1. */
    method Write(out: array<JByte>) returns (r: Result<()>)
      modifies serialPort`trace
      ensures serialPort.trace == old(serialPort.trace) + [WriteCall(out[..], r.Ok?)]
      ensures r.Err? ==> r.error == WriteFailed
      ensures !serialPort.isOpen ==> r.Err?
    {
      var ret := serialPort.WriteBytes(out, out.Length);
      assert out[..out.Length] == out[..];
      if ret == -1 {
        return Err(WriteFailed);
      }
      r := Ok(());
    }

    /** `read(size)`: reads into a zero-filled array; fails only when the port
        returns -1. Bytes the sensor sends while the read waits (`arrived`)
        can be read. A short read is not detected: the missing bytes stay 0. */
    method Read(size: int) returns (r: Result<seq<JByte>>, ghost arrived: seq<JByte>)
      requires size >= 0
      modifies serialPort`inbox, serialPort`trace
      ensures serialPort.trace == old(serialPort.trace) + [ReadCall(size, arrived, r.Ok?)]
      ensures !serialPort.isOpen ==> r.Err? && arrived == []
      ensures r.Err? ==> r.error == ReadFailed && serialPort.inbox == old(serialPort.inbox) + arrived
      ensures r.Ok? ==>
                var available := old(serialPort.inbox) + arrived;
                serialPort.inbox == available[ReadCount(size, |available|)..] &&
                r.value == ReadFrame(available, size)
    {
      var buffer := new JByte[size](_ => 0);
      var ret;
      ret, arrived := serialPort.ReadBytes(buffer, size);
      if ret == -1 {
        return Err(ReadFailed), arrived;
      }
      ghost var available := old(serialPort.inbox) + arrived;
      assert buffer[..] == ReadFrame(available, size);
      r := Ok(buffer[..]);
    }

    /** `getGasConcentration`: writes the query, reads the 9-byte answer without
        first draining older input, and decodes bytes 2..3. The answer is
        whatever was pending followed by what the sensor sends while the read
        waits (`arrived`). */
    method GetGasConcentration() returns (r: Result<int>, ghost arrived: seq<JByte>)
      modifies serialPort`inbox, serialPort`trace
      ensures r == Err(WriteFailed) ==>
                arrived == [] &&
                serialPort.trace == old(serialPort.trace) + [WriteCall(CmdGasConcentration, false)]
      ensures r != Err(WriteFailed) ==>
                serialPort.trace ==
                old(serialPort.trace) + [WriteCall(CmdGasConcentration, true),
                                         ReadCall(CmdGasConcentrationRetLength, arrived, r.Ok?)]
      ensures r.Err? ==>
                r.error in {WriteFailed, ReadFailed} && serialPort.inbox == old(serialPort.inbox) + arrived
      ensures !serialPort.isOpen ==> r == Err(WriteFailed)
      ensures r.Ok? ==>
                var available := old(serialPort.inbox) + arrived;
                serialPort.inbox == available[ReadCount(CmdGasConcentrationRetLength, |available|)..] &&
                r.value == Concentration(ReadFrame(available, CmdGasConcentrationRetLength))
    {
      arrived := [];
      var cmd := NewArray(CmdGasConcentration);
      var w := Write(cmd);
      if w.Err? {
        return Err(w.error), arrived;
      }
      var received;
      received, arrived := Read(CmdGasConcentrationRetLength);
      if received.Err? {
        return Err(received.error), arrived;
      }
      var data := NewArray([received.value[2], received.value[3]]);
      var value := ConvertInt(data);
      assert value == Concentration(received.value) by {
        assert data[..][..1] == [received.value[2]];
        ConvertIntNoWrap(data[..]);
      }
      r := Ok(value);
    }

    /** `setCalibrateZeroPoint`: writes the precomputed zero-point frame. */
    method SetCalibrateZeroPoint() returns (r: Result<()>)
      modifies serialPort`trace
      ensures serialPort.trace == old(serialPort.trace) + [WriteCall(CmdCalibrateZeroPoint, r.Ok?)]
      ensures r.Err? ==> r.error == WriteFailed
    {
      var cmd := NewArray(CmdCalibrateZeroPoint);
      r := Write(cmd);
    }

    /** `setCalibrateSpanPoint`: a point below 1000 ppm is raised to 1000 ppm
        silently; the frame carries the point's two low bytes. */
    method SetCalibrateSpanPoint(point: JInt) returns (r: Result<()>)
      modifies serialPort`trace
      ensures serialPort.trace == old(serialPort.trace) + [WriteCall(SpanPointCommand(point), r.Ok?)]
      ensures r.Err? ==> r.error == WriteFailed
    {
      var p := point;
      if p < CalibrateSpanPointMin {
        p := CalibrateSpanPointMin;
      }
      var high := ToByte(LowEightBits(JavaDiv(p, 256)));
      var low := ToByte(LowEightBits(JavaRem(p, 256)));
      var base := NewArray([ToByte(0xff), 0x01, ToByte(0x88), high, low, 0x00, 0x00, 0x00]);
      var cmd := GetCommandWithCheckSum(base);
      r := Write(cmd);
    }

    /** `setAutoCalibration`: writes the on or the off frame. */
    method SetAutoCalibration(on: bool) returns (r: Result<()>)
      modifies serialPort`trace
      ensures serialPort.trace == old(serialPort.trace) + [WriteCall(AutoCalibrationCommand(on), r.Ok?)]
      ensures r.Err? ==> r.error == WriteFailed
    {
      var base: array<JByte>;
      if on {
        base := NewArray(CmdAutoCalibrationOnWithoutCheckSum);
      } else {
        base := NewArray(CmdAutoCalibrationOffWithoutCheckSum);
      }
      var cmd := GetCommandWithCheckSum(base);
      r := Write(cmd);
    }

    /** `setDetectionRange`: the frame carries the range's two low bytes. */
    method SetDetectionRange(range: JInt) returns (r: Result<()>)
      modifies serialPort`trace
      ensures serialPort.trace == old(serialPort.trace) + [WriteCall(DetectionRangeCommand(range), r.Ok?)]
      ensures r.Err? ==> r.error == WriteFailed
    {
      var high := ToByte(LowEightBits(JavaDiv(range, 256)));
      var low := ToByte(LowEightBits(JavaRem(range, 256)));
      var base := NewArray([ToByte(0xff), 0x01, ToByte(0x99), high, low, 0x00, 0x00, 0x00]);
      var cmd := GetCommandWithCheckSum(base);
      r := Write(cmd);
    }

    method SetDetectionRange2000() returns (r: Result<()>)
      modifies serialPort`trace
      ensures serialPort.trace == old(serialPort.trace) + [WriteCall(DetectionRangeCommand(2000), r.Ok?)]
      ensures r.Err? ==> r.error == WriteFailed
    {
      r := SetDetectionRange(2000);
    }

    method SetDetectionRange5000() returns (r: Result<()>)
      modifies serialPort`trace
      ensures serialPort.trace == old(serialPort.trace) + [WriteCall(DetectionRangeCommand(5000), r.Ok?)]
      ensures r.Err? ==> r.error == WriteFailed
    {
      r := SetDetectionRange(5000);
    }
  }

  /** The table from port name to the one driver for that port. */
  class Registry {
    var instances: map<string, Driver>

    /** Every driver sits under its own port name, keeps its counter in {0, 1}
        and owns a port handle no other driver shares. */
    ghost predicate Valid()
      reads this, instances.Values
    {
      && (forall name :: name in instances ==> instances[name].portName == name && instances[name].Valid())
      && (forall a, b :: a in instances && b in instances && a != b ==>
                           instances[a].serialPort != instances[b].serialPort)
    }

    constructor ()
      ensures Valid() && instances == map[]
    {
      instances := map[];
    }

    /** `getInstance(portName, timeout)`: the existing driver for the name, or a
        new one put in the table; either way its timeout becomes `timeout`. */
    method GetInstance(portName: string, timeout: JInt) returns (d: Driver)
      requires Valid()
      modifies this, if portName in instances then {instances[portName]} else {}
      ensures Valid()
      ensures instances == old(instances)[portName := d]
      ensures portName in old(instances) ==> d == old(instances)[portName] && d.useCount == old(d.useCount)
      ensures portName !in old(instances) ==>
                fresh(d) && fresh(d.serialPort) && d.useCount == 0 &&
                !d.serialPort.isOpen && d.serialPort.inbox == [] && d.serialPort.trace == []
      ensures d.portName == portName && d.timeout == timeout
    {
      var mhz19b: Driver;
      if portName in instances {
        mhz19b := instances[portName];
      } else {
        mhz19b := new Driver(portName, timeout);
        instances := instances[portName := mhz19b];
      }
      mhz19b.SetTimeout(timeout);
      d := mhz19b;
    }

    /** `getInstance(portName)`: the same with the default timeout. */
    method GetDefaultInstance(portName: string) returns (d: Driver)
      requires Valid()
      modifies this, if portName in instances then {instances[portName]} else {}
      ensures Valid()
      ensures instances == old(instances)[portName := d]
      ensures portName in old(instances) ==> d == old(instances)[portName] && d.useCount == old(d.useCount)
      ensures portName !in old(instances) ==>
                fresh(d) && fresh(d.serialPort) && d.useCount == 0 &&
                !d.serialPort.isOpen && d.serialPort.inbox == [] && d.serialPort.trace == []
      ensures d.portName == portName && d.timeout == DefaultTimeout
    {
      d := GetInstance(portName, DefaultTimeout);
    }
  }
}
