/** Call sequences on a driver and on the registry, with what the contracts
    of `MHZ19B` let a caller conclude about them: `open` and `close` are
    idempotent, a failed `open` is not retried by a second `open`, a query
    answers from the sensor's reply when nothing else is pending but from
    older input when there is some, and one port name always yields one
    driver. */
module SessionScenarios {
  import opened JavaInts
  import opened Codec
  import opened SerialTransport
  import opened MHZ19B

  /** Two opens in a row call `openPort` once; the second open succeeds
      without touching the port. */
  method OpenTwice(d: Driver) returns (r1: Result<()>, r2: Result<()>)
    requires d.Valid() && d.useCount == 0
    modifies d`useCount, d.serialPort
    ensures d.useCount == 1 && r2 == Ok(())
    ensures d.serialPort.trace == old(d.serialPort.trace) + [OpenCall(r1.Ok?)]
  {
    r1 := d.Open();
    r2 := d.Open();
  }

  /** Two closes in a row call `closePort` at most once, and the second close
      is a no-op. */
  method CloseTwice(d: Driver) returns (r1: Result<()>, r2: Result<()>)
    requires d.Valid()
    modifies d`useCount, d.serialPort
    ensures d.useCount == 0 && r2 == Ok(())
    ensures d.serialPort.trace == old(d.serialPort.trace) ||
            d.serialPort.trace == old(d.serialPort.trace) + [CloseCall(r1.Ok?)]
  {
    r1 := d.Close();
    r2 := d.Close();
  }

  /** Closing a driver that was never opened changes nothing. */
  method CloseBeforeOpen(reg: Registry, portName: string, timeout: JInt) returns (d: Driver, r: Result<()>)
    requires reg.Valid() && portName !in reg.instances
    modifies reg
    ensures r == Ok(()) && d.useCount == 0
    ensures !d.serialPort.isOpen && d.serialPort.trace == []
  {
    d := reg.GetInstance(portName, timeout);
    r := d.Close();
  }

  /** A session that opens and then closes ends logically closed. When the open
      succeeds it calls `openPort` and `closePort` once each, in that order;
      when it fails on a port that was closed, the close makes no port call.
      A port can still be open at counter 0 after a failed `closePort`; a
      failed open of it is followed by a `closePort` call. */
  method OpenThenClose(d: Driver) returns (r1: Result<()>, r2: Result<()>)
    requires d.Valid() && d.useCount == 0
    modifies d`useCount, d.serialPort
    ensures d.useCount == 0
    ensures r1.Ok? ==> d.serialPort.trace == old(d.serialPort.trace) + [OpenCall(true), CloseCall(r2.Ok?)]
    ensures r1.Err? && !old(d.serialPort.isOpen) ==>
              r2 == Ok(()) && d.serialPort.trace == old(d.serialPort.trace) + [OpenCall(false)]
    ensures r1.Err? && old(d.serialPort.isOpen) ==>
              d.serialPort.trace == old(d.serialPort.trace) + [OpenCall(false), CloseCall(r2.Ok?)]
  {
    r1 := d.Open();
    r2 := d.Close();
  }

  /** After a failed open of a closed port the counter stays at 1, so a second
      open succeeds without retrying `openPort`, the port stays closed (as
      `isOpened` reports), and the next query fails at its write. Only `close`
      followed by `open` retries. */
  method OpenAfterFailedOpen(d: Driver) returns (r1: Result<()>, r2: Result<()>, q: Result<int>)
    requires d.Valid() && d.useCount == 0 && !d.serialPort.isOpen
    modifies d`useCount, d.serialPort
    ensures r1.Err? ==>
              r2 == Ok(()) && d.useCount == 1 && !d.IsOpened() && q == Err(WriteFailed) &&
              d.serialPort.trace == old(d.serialPort.trace) +
                                    [OpenCall(false), WriteCall(CmdGasConcentration, false)]
  {
    r1 := d.Open();
    r2 := d.Open();
    ghost var arrived;
    q, arrived := d.GetGasConcentration();
  }

  /** The sensor's answer to a query for 800 ppm: `FF 86 03 20 00 00 00 00 57`. */
  const Reply800: seq<JByte> := [ToByte(0xff), ToByte(0x86), 0x03, 0x20, 0x00, 0x00, 0x00, 0x00, 0x57]

  /** With nothing pending, the query's value comes from the reply the sensor
      sends while the read waits; the reply `Reply800` reads as 800 ppm. */
  method QueryAnswersWithReply(d: Driver) returns (q: Result<int>, ghost arrived: seq<JByte>)
    requires d.serialPort.inbox == []
    modifies d.serialPort`inbox, d.serialPort`trace
    ensures !d.serialPort.isOpen ==> q == Err(WriteFailed)
    ensures q.Ok? && |arrived| >= 4 ==> q.value == Concentration(arrived)
    ensures q.Ok? && arrived == Reply800 ==> q == Ok(800) && d.serialPort.inbox == []
  {
    q, arrived := d.GetGasConcentration();
    if q.Ok? && |arrived| >= 4 {
      var frame := ReadFrame(old(d.serialPort.inbox) + arrived, CmdGasConcentrationRetLength);
      assert frame[2] == arrived[2] && frame[3] == arrived[3];
    }
  }

  /** No stale input is drained before the query: when at least four bytes are
      already pending, the value comes from their bytes 2..3, whatever the
      sensor sends in reply. */
  method QueryReadsPendingInput(d: Driver) returns (q: Result<int>)
    requires |d.serialPort.inbox| >= 4
    modifies d.serialPort`inbox, d.serialPort`trace
    ensures q.Ok? ==> q.value == Concentration(old(d.serialPort.inbox))
  {
    ghost var arrived;
    q, arrived := d.GetGasConcentration();
    if q.Ok? {
      ghost var pending := old(d.serialPort.inbox);
      var frame := ReadFrame(pending + arrived, CmdGasConcentrationRetLength);
      assert frame[2] == pending[2] && frame[3] == pending[3];
    }
  }

  /** A reply left over from an earlier exchange answers the next query: once
      `Reply800` has been received and not read, the query reads 800 ppm
      whatever the sensor answers to it. */
  method StaleReplyAnswersQuery(d: Driver) returns (q: Result<int>)
    requires d.serialPort.isOpen && d.serialPort.inbox == []
    modifies d.serialPort`inbox, d.serialPort`trace
    ensures q.Ok? ==> q == Ok(800)
  {
    d.serialPort.Receive(Reply800);
    q := QueryReadsPendingInput(d);
  }

  /** The whole path a caller takes: a driver acquired from the registry for
      a new name, opened, then queried, reads the sensor's reply; the reply
      `Reply800` gives 800 ppm. */
  method RegistryOpenQuery(reg: Registry, portName: string) returns (r: Result<()>, q: Result<int>, ghost arrived: seq<JByte>)
    requires reg.Valid() && portName !in reg.instances
    modifies reg
    ensures q.Ok? ==> r.Ok?
    ensures q.Ok? && arrived == Reply800 ==> q == Ok(800)
  {
    var d := reg.GetDefaultInstance(portName);
    r := d.Open();
    q, arrived := QueryAnswersWithReply(d);
  }

  /** A second acquisition of an open driver stores the new timeout, but the
      port keeps the timeout it was opened with: only the next 0->1 `open`
      applies it. */
  method TimeoutNotReapplied(reg: Registry, portName: string, t1: JInt, t2: JInt) returns (d: Driver, r: Result<()>)
    requires reg.Valid() && portName !in reg.instances
    modifies reg
    ensures r.Ok? ==>
              d.timeout == t2 && d.serialPort.isOpen &&
              d.serialPort.settings.readTimeout == t1 && d.serialPort.settings.writeTimeout == t1
  {
    d := reg.GetInstance(portName, t1);
    r := d.Open();
    var again := reg.GetInstance(portName, t2);
  }

  /** Two acquisitions of one port name return the same driver, and the
      second acquisition's timeout is what the first reference sees. */
  method AcquireTwice(reg: Registry, portName: string, t1: JInt, t2: JInt) returns (d1: Driver, d2: Driver)
    requires reg.Valid()
    modifies reg, reg.instances.Values
    ensures reg.Valid()
    ensures d1 == d2 && d1.timeout == t2
    ensures reg.instances == old(reg.instances)[portName := d1]
  {
    d1 := reg.GetInstance(portName, t1);
    d2 := reg.GetInstance(portName, t2);
  }
}
