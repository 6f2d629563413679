/** The serial port the driver owns, as far as the driver uses it. The port
    library is foreign code, so each call's outcome is chosen
    nondeterministically within what the driver can observe. Whether the port
    is open and its settings are real state (the driver asks `isOpen`); the
    bytes the sensor has sent and not yet been read wait in `inbox`; a ghost
    `trace` records every open, close, write and read in call order. */
module SerialTransport {
  import opened JavaInts

  datatype StopBits = OneStopBit | OnePointFiveStopBits | TwoStopBits
  datatype Parity = NoParity | OddParity | EvenParity | MarkParity | SpaceParity
  datatype TimeoutMode = NonBlocking | ReadSemiBlocking | ReadBlocking

  /** What `setBaudRate`, `setNumDataBits`, `setNumStopBits`, `setParity` and
      `setComPortTimeouts` configure. */
  datatype PortSettings = PortSettings(
    baudRate: int,
    dataBits: int,
    stopBits: StopBits,
    parity: Parity,
    timeoutMode: TimeoutMode,
    readTimeout: int,
    writeTimeout: int)

  /** One call into the port; `ok` is false when the call reported failure
      (`false` from open/close, -1 from a write or a read). */
  datatype Event =
    | OpenCall(ok: bool)
    | CloseCall(ok: bool)
    | WriteCall(bytes: seq<JByte>, ok: bool)
    | ReadCall(size: int, arrived: seq<JByte>, ok: bool)

  /** How many bytes a read of `requested` bytes takes when `available` bytes
      are there by the end of its wait: all it asks for, or all there are when
      the wait times out first. */
  function ReadCount(requested: nat, available: nat): (n: nat)
    ensures n <= requested && n <= available
    ensures n == requested || n == available
  {
    if requested <= available then requested else available
  }

  class SerialPort {
    const systemPortName: string
    var isOpen: bool
    var settings: PortSettings
    var inbox: seq<JByte>
    ghost var trace: seq<Event>

    /** `SerialPort.getCommPort(name)`: a handle that is not open yet. */
    constructor (name: string)
      ensures systemPortName == name && !isOpen && inbox == [] && trace == []
    {
      systemPortName := name;
      isOpen := false;
      settings := PortSettings(9600, 8, OneStopBit, NoParity, NonBlocking, 0, 0);
      inbox := [];
      trace := [];
    }

    /** `openPort()`: on success the port is open; on failure nothing changes. */
    method OpenPort() returns (ok: bool)
      modifies this
      ensures isOpen == (ok || old(isOpen))
      ensures settings == old(settings) && inbox == old(inbox)
      ensures trace == old(trace) + [OpenCall(ok)]
    {
      ok :| true;
      if ok {
        isOpen := true;
      }
      trace := trace + [OpenCall(ok)];
    }

    /** `closePort()`: on success the port is closed and input not yet read is
        discarded; on failure nothing changes. */
    method ClosePort() returns (ok: bool)
      modifies this
      ensures isOpen == (!ok && old(isOpen))
      ensures settings == old(settings)
      ensures inbox == if ok then [] else old(inbox)
      ensures trace == old(trace) + [CloseCall(ok)]
    {
      ok :| true;
      if ok {
        isOpen := false;
        inbox := [];
      }
      trace := trace + [CloseCall(ok)];
    }

    method SetBaudRate(baudRate: int)
      modifies this`settings
      ensures settings == old(settings).(baudRate := baudRate)
    {
      settings := settings.(baudRate := baudRate);
    }

    method SetNumDataBits(dataBits: int)
      modifies this`settings
      ensures settings == old(settings).(dataBits := dataBits)
    {
      settings := settings.(dataBits := dataBits);
    }

    method SetNumStopBits(stopBits: StopBits)
      modifies this`settings
      ensures settings == old(settings).(stopBits := stopBits)
    {
      settings := settings.(stopBits := stopBits);
    }

    method SetParity(parity: Parity)
      modifies this`settings
      ensures settings == old(settings).(parity := parity)
    {
      settings := settings.(parity := parity);
    }

    method SetComPortTimeouts(mode: TimeoutMode, readTimeout: int, writeTimeout: int)
      modifies this`settings
      ensures settings == old(settings).(timeoutMode := mode, readTimeout := readTimeout,
                                         writeTimeout := writeTimeout)
    {
      settings := settings.(timeoutMode := mode, readTimeout := readTimeout, writeTimeout := writeTimeout);
    }

    /** `writeBytes(buffer, n)`: -1 on failure (always when the port is closed),
        otherwise the number of bytes written. */
    method WriteBytes(buffer: array<JByte>, bytesToWrite: int) returns (ret: int)
      requires 0 <= bytesToWrite <= buffer.Length
      modifies this`trace
      ensures ret == -1 || 0 <= ret <= bytesToWrite
      ensures !isOpen ==> ret == -1
      ensures trace == old(trace) + [WriteCall(buffer[..bytesToWrite], ret != -1)]
    {
      var failed: bool :| true;
      if failed || !isOpen {
        ret := -1;
      } else {
        ret :| 0 <= ret <= bytesToWrite;
      }
      trace := trace + [WriteCall(buffer[..bytesToWrite], ret != -1)];
    }

    /** `readBytes(buffer, n)`: -1 on failure (always when the port is closed),
        otherwise the number of bytes read. While the call waits, the sensor
        may send more bytes (`arrived`), which join the end of `inbox`. A
        successful read then takes bytes from the front of `inbox`, in order:
        n of them, or all there are when the wait times out first. The rest of
        `buffer` is left as it was. */
    method ReadBytes(buffer: array<JByte>, bytesToRead: int) returns (ret: int, ghost arrived: seq<JByte>)
      requires 0 <= bytesToRead <= buffer.Length
      modifies this`inbox, this`trace, buffer
      ensures !isOpen ==> ret == -1 && arrived == []
      ensures ret == -1 ==> buffer[..] == old(buffer[..]) && inbox == old(inbox) + arrived
      ensures ret != -1 ==>
                var available := old(inbox) + arrived;
                ret == ReadCount(bytesToRead, |available|) && inbox == available[ret..] &&
                buffer[..] == available[..ret] + old(buffer[..])[ret..]
      ensures trace == old(trace) + [ReadCall(bytesToRead, arrived, ret != -1)]
    {
      var incoming: seq<JByte> :| true;
      if !isOpen {
        incoming := [];
      }
      inbox := inbox + incoming;
      arrived := incoming;
      var failed: bool :| true;
      if failed || !isOpen {
        ret := -1;
      } else {
        var n := ReadCount(bytesToRead, |inbox|);
        forall i | 0 <= i < n {
          buffer[i] := inbox[i];
        }
        inbox := inbox[n..];
        ret := n;
      }
      trace := trace + [ReadCall(bytesToRead, arrived, ret != -1)];
    }

    /** The sensor sends bytes outside any read; on an open port they wait in
        `inbox` until read. */
    method Receive(bytes: seq<JByte>)
      requires isOpen
      modifies this`inbox
      ensures inbox == old(inbox) + bytes
    {
      inbox := inbox + bytes;
    }
  }
}
