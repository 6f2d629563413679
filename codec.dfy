/** The MH-Z19B wire format used by the driver: 9-byte command frames
    `FF 01 <op> b3 b4 b5 b6 b7 <checksum>`, the one-byte checksum, the split
    of a 16-bit argument into two bytes, and the decoding of the gas
    concentration from a response frame. Bytes are Java `byte`s (signed). */
module Codec {
  import opened JavaInts

  /** Byte 0 of every frame. */
  const StartByte: JByte := ToByte(0xff)
  /** Byte 1 of every command frame: the sensor's address. */
  const SensorAddress: JByte := 0x01

  const OpGasConcentration: JByte := ToByte(0x86)
  const OpCalibrateZeroPoint: JByte := ToByte(0x87)
  const OpCalibrateSpanPoint: JByte := ToByte(0x88)
  const OpAutoCalibration: JByte := 0x79
  const OpDetectionRange: JByte := ToByte(0x99)

  /** The two complete frames the driver keeps with a precomputed checksum. */
  const CmdGasConcentration: seq<JByte> :=
    [ToByte(0xff), 0x01, ToByte(0x86), 0x00, 0x00, 0x00, 0x00, 0x00, 0x79]
  const CmdCalibrateZeroPoint: seq<JByte> :=
    [ToByte(0xff), 0x01, ToByte(0x87), 0x00, 0x00, 0x00, 0x00, 0x00, 0x78]
  /** The two 8-byte base commands that still need their checksum. */
  const CmdAutoCalibrationOnWithoutCheckSum: seq<JByte> :=
    [ToByte(0xff), 0x01, 0x79, ToByte(0xa0), 0x00, 0x00, 0x00, 0x00]
  const CmdAutoCalibrationOffWithoutCheckSum: seq<JByte> :=
    [ToByte(0xff), 0x01, 0x79, 0x00, 0x00, 0x00, 0x00, 0x00]

  /** Length of the response to the gas concentration query. */
  const CmdGasConcentrationRetLength: nat := 9

  /** The smallest span point the sensor accepts, in ppm. */
  const CalibrateSpanPointMin: JInt := 1000

  // ---------------------------------------------------------------------------
  // Checksum

  /** The sum Java computes with `ret += (int)data[i]`: bytes sign-extended. */
  function SignedSum(s: seq<JByte>): int
  {
    if s == [] then 0 else SignedSum(s[..|s| - 1]) + s[|s| - 1]
  }

  /** The sum of the bytes read as unsigned values, as the sensor's checksum rule adds them. */
  function UnsignedSum(s: seq<JByte>): int
  {
    if s == [] then 0 else UnsignedSum(s[..|s| - 1]) + Unsigned(s[|s| - 1])
  }

  /** Summing sign-extended bytes agrees with summing unsigned bytes modulo 256. */
  lemma {:induction false} SumsAgreeModulo256(s: seq<JByte>)
    ensures SignedSum(s) % 256 == UnsignedSum(s) % 256
  {
    if s != [] {
      var init, b := s[..|s| - 1], s[|s| - 1];
      SumsAgreeModulo256(init);
      SumCongruent(SignedSum(init), UnsignedSum(init), b, Unsigned(b));
    }
  }

  /** Sums of numbers congruent modulo 256 are congruent modulo 256. */
  lemma SumCongruent(a: int, b: int, c: int, d: int)
    requires a % 256 == b % 256 && c % 256 == d % 256
    ensures (a + c) % 256 == (b + d) % 256
  {
    assert a + c == 256 * (a / 256 + c / 256) + (a % 256 + c % 256);
    assert b + d == 256 * (b / 256 + d / 256) + (b % 256 + d % 256);
  }

  /** The checksum byte of a base command, exactly as the driver computes it:
      the low byte of the sum of bytes 1..7, complemented, plus one. */
  function CheckSum(base: seq<JByte>): JByte
    requires |base| >= 8
  {
    ToByte(BitNot(ToByte(LowEightBits(SignedSum(base[1..8])))) + 1)
  }

  /** The checksum is the two's-complement negation of the unsigned sum of
      bytes 1..7, modulo 256. */
  lemma CheckSumNegatesSum(base: seq<JByte>)
    requires |base| >= 8
    ensures Unsigned(CheckSum(base)) == (-UnsignedSum(base[1..8])) % 256
  {
    SumsAgreeModulo256(base[1..8]);
  }

  /** A base command followed by its checksum byte. */
  function WithCheckSum(base: seq<JByte>): seq<JByte>
    requires |base| >= 8
  {
    base + [CheckSum(base)]
  }

  /** The sensor's checksum rule for a 9-byte frame: bytes 1..8, read
      unsigned, add up to 0 modulo 256. */
  predicate ChecksumValid(frame: seq<JByte>)
  {
    |frame| == 9 && UnsignedSum(frame[1..]) % 256 == 0
  }

  /** Appending the checksum keeps the base command, adds one byte, and makes
      bytes 1..8 sum to 0 modulo 256. */
  lemma WithCheckSumSpec(base: seq<JByte>)
    requires |base| == 8
    ensures |WithCheckSum(base)| == 9 && WithCheckSum(base)[..8] == base
    ensures ChecksumValid(WithCheckSum(base))
  {
    var frame := WithCheckSum(base);
    var tail := frame[1..];
    assert tail[..7] == base[1..8];
    assert UnsignedSum(tail) == UnsignedSum(base[1..8]) + Unsigned(CheckSum(base));
    CheckSumNegatesSum(base);
  }

  /** The sum of seven bytes, written out. */
  lemma UnsignedSumOfSeven(s: seq<JByte>)
    requires |s| == 7
    ensures UnsignedSum(s) == Unsigned(s[0]) + Unsigned(s[1]) + Unsigned(s[2]) + Unsigned(s[3]) +
                              Unsigned(s[4]) + Unsigned(s[5]) + Unsigned(s[6])
  {
    assert UnsignedSum(s[..1]) == Unsigned(s[0]) by { assert s[..1][..0] == []; }
    assert UnsignedSum(s[..2]) == UnsignedSum(s[..1]) + Unsigned(s[1]) by { assert s[..2][..1] == s[..1]; }
    assert UnsignedSum(s[..3]) == UnsignedSum(s[..2]) + Unsigned(s[2]) by { assert s[..3][..2] == s[..2]; }
    assert UnsignedSum(s[..4]) == UnsignedSum(s[..3]) + Unsigned(s[3]) by { assert s[..4][..3] == s[..3]; }
    assert UnsignedSum(s[..5]) == UnsignedSum(s[..4]) + Unsigned(s[4]) by { assert s[..5][..4] == s[..4]; }
    assert UnsignedSum(s[..6]) == UnsignedSum(s[..5]) + Unsigned(s[5]) by { assert s[..6][..5] == s[..5]; }
    assert s[..7] == s;
  }

  /** The checksum of an 8-byte base command in closed form: the negated sum of
      bytes 1..7, cast to a byte. */
  lemma CheckSumClosedForm(base: seq<JByte>)
    requires |base| == 8
    ensures CheckSum(base) == ToByte(-(Unsigned(base[1]) + Unsigned(base[2]) + Unsigned(base[3]) +
                                       Unsigned(base[4]) + Unsigned(base[5]) + Unsigned(base[6]) +
                                       Unsigned(base[7])))
  {
    UnsignedSumOfSeven(base[1..8]);
    CheckSumNegatesSum(base);
  }

  /** A 9-byte frame passes the checksum rule exactly when its last byte is the
      checksum the driver would append to its first eight. */
  lemma ChecksumValidIff(frame: seq<JByte>)
    requires |frame| == 9
    ensures ChecksumValid(frame) <==> frame == WithCheckSum(frame[..8])
  {
    var base := frame[..8];
    if frame == WithCheckSum(base) {
      WithCheckSumSpec(base);
    }
    if ChecksumValid(frame) {
      LastByteOfValidFrame(frame);
      assert frame == base + [frame[8]];
    }
  }

  /** In a frame that passes the checksum rule, byte 8 is the checksum of the
      first eight bytes. */
  lemma LastByteOfValidFrame(frame: seq<JByte>)
    requires ChecksumValid(frame)
    ensures frame[8] == CheckSum(frame[..8])
  {
    var base := frame[..8];
    var tail := frame[1..];
    assert tail[..7] == base[1..8];
    assert UnsignedSum(tail) == UnsignedSum(base[1..8]) + Unsigned(frame[8]);
    CheckSumNegatesSum(base);
    NegationModuloUnique(UnsignedSum(base[1..8]), Unsigned(frame[8]));
    assert Unsigned(frame[8]) == Unsigned(CheckSum(base));
  }

  /** Modulo 256 a number has one negation among 0..255. */
  lemma NegationModuloUnique(u: int, x: int)
    requires 0 <= x < 256 && (u + x) % 256 == 0
    ensures x == (-u) % 256
  {
  }

  /** `getCheckSum`: the loop over bytes 1..7 of an 8-byte (or longer) command. */
  method GetCheckSum(data: array<JByte>) returns (cs: JByte)
    requires data.Length >= 8
    ensures cs == CheckSum(data[..])
    ensures Unsigned(cs) == (-UnsignedSum(data[1..8])) % 256
  {
    var ret: int := 0;
    for i := 1 to 8
      invariant ret == SignedSum(data[1..i])
    {
      assert data[1..i + 1][..i - 1] == data[1..i];
      ret := ret + data[i];
    }
    assert data[..][1..8] == data[1..8];
    cs := ToByte(BitNot(ToByte(LowEightBits(ret))) + 1);
    CheckSumNegatesSum(data[..]);
  }

  /** `getCommandWithCheckSum`: a fresh array holding the base command and its
      checksum. */
  method GetCommandWithCheckSum(baseCommand: array<JByte>) returns (data: array<JByte>)
    requires baseCommand.Length >= 8
    ensures fresh(data)
    ensures data[..] == WithCheckSum(baseCommand[..])
  {
    var checkSum := GetCheckSum(baseCommand);
    ghost var base := baseCommand[..];
    assert checkSum == CheckSum(base);
    data := new JByte[baseCommand.Length + 1];
    forall i | 0 <= i < baseCommand.Length {
      data[i] := baseCommand[i];
    }
    data[baseCommand.Length] := checkSum;
    assert baseCommand[..] == base;
    assert data[..] == baseCommand[..] + [checkSum];
  }

  // ---------------------------------------------------------------------------
  // Two-byte values

  /** The unsigned big-endian value of a byte sequence. */
  function BigEndian(s: seq<JByte>): nat
  {
    if s == [] then 0 else BigEndian(s[..|s| - 1]) * 256 + Unsigned(s[|s| - 1])
  }

  function Pow256(n: nat): nat
  {
    if n == 0 then 1 else 256 * Pow256(n - 1)
  }

  /** A big-endian value of n bytes is below 256^n. */
  lemma {:induction false} BigEndianBound(s: seq<JByte>)
    ensures BigEndian(s) < Pow256(|s|)
  {
    if s != [] {
      BigEndianBound(s[..|s| - 1]);
    }
  }

  /** `convertInt`: `value = (value << 8) + (data[i] & 0xff)` on Java ints, so the
      result is the big-endian value wrapped to 32 bits. */
  method ConvertInt(data: array<JByte>) returns (value: JInt)
    ensures value == Wrap32(BigEndian(data[..]))
  {
    value := 0;
    var i := 0;
    while i < data.Length
      invariant 0 <= i <= data.Length
      invariant value == Wrap32(BigEndian(data[..i]))
    {
      assert data[..i + 1][..i] == data[..i];
      ShiftAddWraps(BigEndian(data[..i]), Unsigned(data[i]));
      value := Wrap32(Wrap32(value * 256) + Unsigned(data[i]));
      i := i + 1;
    }
    assert data[..] == data[..data.Length];
  }

  /** Up to three bytes never reach the sign bit of a Java int: `convertInt`
      then returns the plain big-endian value. */
  lemma ConvertIntNoWrap(s: seq<JByte>)
    requires |s| <= 3
    ensures Wrap32(BigEndian(s)) == BigEndian(s)
  {
    BigEndianBound(s);
    assert Pow256(|s|) <= Pow256(3);
  }

  /** The high byte of a 16-bit argument: `(byte)((v / 256) & 0xff)`. */
  function HighByte(v: JInt): (h: JByte)
    ensures v >= 0 ==> Unsigned(h) == (v / 256) % 256
  {
    ToByte(LowEightBits(JavaDiv(v, 256)))
  }

  /** The low byte of a 16-bit argument: `(byte)((v % 256) & 0xff)`. */
  function LowByte(v: JInt): (l: JByte)
    ensures v >= 0 ==> Unsigned(l) == v % 256
  {
    ToByte(LowEightBits(JavaRem(v, 256)))
  }

  /** Splitting a non-negative value into high and low byte and decoding the two
      keeps the value modulo 2^16; bits above 16 are dropped silently. */
  lemma SplitTruncates(v: JInt)
    requires v >= 0
    ensures BigEndian([HighByte(v), LowByte(v)]) == v % 0x1_0000
  {
    var q, l := v / 256, v % 256;
    var h := q % 256;
    assert Unsigned(HighByte(v)) == h;
    assert Unsigned(LowByte(v)) == l;
    assert [HighByte(v), LowByte(v)][..1] == [HighByte(v)];
    assert [HighByte(v)][..0] == [];
    assert BigEndian([HighByte(v)]) == h;
    assert BigEndian([HighByte(v), LowByte(v)]) == h * 256 + l;
    assert v == (q / 256) * 0x1_0000 + (h * 256 + l);
  }

  /** For 0 <= v <= 65535 the split is a round trip. */
  lemma SplitRoundTrip(v: JInt)
    requires 0 <= v <= 0xFFFF
    ensures BigEndian([HighByte(v), LowByte(v)]) == v
  {
    SplitTruncates(v);
  }

  // ---------------------------------------------------------------------------
  // Response decoding

  /** The gas concentration in a response frame: bytes 2 and 3, big-endian.
      No other byte of the response, the trailing checksum included, is looked at. */
  function Concentration(received: seq<JByte>): (ppm: int)
    requires |received| >= 4
    ensures 0 <= ppm <= 0xFFFF
    ensures ppm == Unsigned(received[2]) * 256 + Unsigned(received[3])
  {
    var data := [received[2], received[3]];
    assert data[..1] == [received[2]];
    ConvertIntNoWrap(data);
    BigEndianBound(data);
    assert Pow256(2) == 0x1_0000;
    Wrap32(BigEndian(data))
  }

  /** A response whose bytes 2 and 3 carry the split of v decodes to v. */
  lemma ConcentrationInvertsSplit(v: JInt, received: seq<JByte>)
    requires 0 <= v <= 0xFFFF
    requires |received| >= 4 && received[2] == HighByte(v) && received[3] == LowByte(v)
    ensures Concentration(received) == v
  {
    SplitRoundTrip(v);
    assert [HighByte(v), LowByte(v)][..1] == [HighByte(v)];
  }

  // ---------------------------------------------------------------------------
  // Commands with an argument

  /** The 8-byte base of a command carrying a 16-bit argument in bytes 3 and 4. */
  function TwoByteArgumentBase(op: JByte, v: JInt): seq<JByte>
  {
    [ToByte(0xff), 0x01, op, HighByte(v), LowByte(v), 0x00, 0x00, 0x00]
  }

  /** The span point the driver sends for a requested one: raised to the minimum. */
  function ClampSpanPoint(point: JInt): (p: JInt)
    ensures p >= CalibrateSpanPointMin
    ensures point >= CalibrateSpanPointMin ==> p == point
  {
    if point < CalibrateSpanPointMin then CalibrateSpanPointMin else point
  }

  /** The frame `setCalibrateSpanPoint(point)` writes. */
  function SpanPointCommand(point: JInt): seq<JByte>
  {
    WithCheckSum(TwoByteArgumentBase(OpCalibrateSpanPoint, ClampSpanPoint(point)))
  }

  /** The frame `setDetectionRange(range)` writes. */
  function DetectionRangeCommand(range: JInt): seq<JByte>
  {
    WithCheckSum(TwoByteArgumentBase(OpDetectionRange, range))
  }

  /** The frame `setAutoCalibration(on)` writes. */
  function AutoCalibrationCommand(on: bool): seq<JByte>
  {
    WithCheckSum(if on then CmdAutoCalibrationOnWithoutCheckSum else CmdAutoCalibrationOffWithoutCheckSum)
  }

  /** A well-formed command frame: start byte, address, opcode, and a valid checksum. */
  predicate CommandFrame(frame: seq<JByte>, op: JByte)
  {
    |frame| == 9 && frame[0] == StartByte && frame[1] == SensorAddress && frame[2] == op &&
    ChecksumValid(frame)
  }

  /** The span-point frame carries max(point, 1000) in bytes 3..4, truncated to
      16 bits; every point below 1000 gives the same frame as 1000. */
  lemma SpanPointClamped(point: JInt)
    ensures CommandFrame(SpanPointCommand(point), OpCalibrateSpanPoint)
    ensures BigEndian(SpanPointCommand(point)[3..5]) ==
            (if point < CalibrateSpanPointMin then CalibrateSpanPointMin else point) % 0x1_0000
    ensures point <= 0xFFFF ==>
              BigEndian(SpanPointCommand(point)[3..5]) ==
              if point < CalibrateSpanPointMin then CalibrateSpanPointMin else point
    ensures point < CalibrateSpanPointMin ==> SpanPointCommand(point) == SpanPointCommand(CalibrateSpanPointMin)
  {
    var p := ClampSpanPoint(point);
    var base := TwoByteArgumentBase(OpCalibrateSpanPoint, p);
    WithCheckSumSpec(base);
    assert SpanPointCommand(point) == base + [CheckSum(base)];
    SplitTruncates(p);
    assert SpanPointCommand(point)[3..5] == [HighByte(p), LowByte(p)];
  }

  /** The detection-range frame carries the range in bytes 3..4. */
  lemma DetectionRangeEncodes(range: JInt)
    requires 0 <= range <= 0xFFFF
    ensures CommandFrame(DetectionRangeCommand(range), OpDetectionRange)
    ensures BigEndian(DetectionRangeCommand(range)[3..5]) == range
  {
    var base := TwoByteArgumentBase(OpDetectionRange, range);
    WithCheckSumSpec(base);
    assert DetectionRangeCommand(range) == base + [CheckSum(base)];
    SplitRoundTrip(range);
    assert DetectionRangeCommand(range)[3..5] == [HighByte(range), LowByte(range)];
  }

  /** The 2000 ppm preset writes `FF 01 99 07 D0 00 00 00 8F`. */
  lemma DetectionRange2000Frame()
    ensures DetectionRangeCommand(2000) ==
            [ToByte(0xff), 0x01, ToByte(0x99), 0x07, ToByte(0xd0), 0x00, 0x00, 0x00, ToByte(0x8f)]
  {
    assert HighByte(2000) == 0x07 && LowByte(2000) == ToByte(0xd0);
    var base := TwoByteArgumentBase(OpDetectionRange, 2000);
    assert base == [ToByte(0xff), 0x01, ToByte(0x99), 0x07, ToByte(0xd0), 0x00, 0x00, 0x00];
    CheckSumClosedForm(base);
    assert CheckSum(base) == ToByte(-(1 + 0x99 + 0x07 + 0xd0));
  }

  /** The 5000 ppm preset writes `FF 01 99 13 88 00 00 00 CB`. */
  lemma DetectionRange5000Frame()
    ensures DetectionRangeCommand(5000) ==
            [ToByte(0xff), 0x01, ToByte(0x99), 0x13, ToByte(0x88), 0x00, 0x00, 0x00, ToByte(0xcb)]
  {
    assert HighByte(5000) == 0x13 && LowByte(5000) == ToByte(0x88);
    var base := TwoByteArgumentBase(OpDetectionRange, 5000);
    assert base == [ToByte(0xff), 0x01, ToByte(0x99), 0x13, ToByte(0x88), 0x00, 0x00, 0x00];
    CheckSumClosedForm(base);
    assert CheckSum(base) == ToByte(-(1 + 0x99 + 0x13 + 0x88));
  }

  /** The auto-calibration-on frame is `FF 01 79 A0 00 00 00 00 E6`, and it is
      well formed. */
  lemma AutoCalibrationOnFrame()
    ensures AutoCalibrationCommand(true) == CmdAutoCalibrationOnWithoutCheckSum + [ToByte(0xe6)]
    ensures CommandFrame(AutoCalibrationCommand(true), OpAutoCalibration)
  {
    var base := CmdAutoCalibrationOnWithoutCheckSum;
    CheckSumClosedForm(base);
    assert CheckSum(base) == ToByte(-(1 + 0x79 + 0xa0));
    WithCheckSumSpec(base);
  }

  /** The auto-calibration-off frame is `FF 01 79 00 00 00 00 00 86`, and it is
      well formed. */
  lemma AutoCalibrationOffFrame()
    ensures AutoCalibrationCommand(false) == CmdAutoCalibrationOffWithoutCheckSum + [ToByte(0x86)]
    ensures CommandFrame(AutoCalibrationCommand(false), OpAutoCalibration)
  {
    var base := CmdAutoCalibrationOffWithoutCheckSum;
    CheckSumClosedForm(base);
    assert CheckSum(base) == ToByte(-(1 + 0x79));
    WithCheckSumSpec(base);
  }

  /** The precomputed checksums 0x79 and 0x78 are the ones `getCheckSum` gives. */
  lemma PrecomputedCheckSums()
    ensures CmdGasConcentration == WithCheckSum(CmdGasConcentration[..8])
    ensures CmdCalibrateZeroPoint == WithCheckSum(CmdCalibrateZeroPoint[..8])
    ensures CommandFrame(CmdGasConcentration, OpGasConcentration)
    ensures CommandFrame(CmdCalibrateZeroPoint, OpCalibrateZeroPoint)
  {
    CheckSumClosedForm(CmdGasConcentration[..8]);
    CheckSumClosedForm(CmdCalibrateZeroPoint[..8]);
    assert CmdGasConcentration == CmdGasConcentration[..8] + [0x79];
    assert CmdCalibrateZeroPoint == CmdCalibrateZeroPoint[..8] + [0x78];
    WithCheckSumSpec(CmdGasConcentration[..8]);
    WithCheckSumSpec(CmdCalibrateZeroPoint[..8]);
  }

  /** A sensor answer `FF 86 03 20 ...` decodes to 0x0320 = 800 ppm, whatever
      its remaining bytes. */
  lemma ConcentrationExample(received: seq<JByte>)
    requires |received| == 9 && received[..4] == [ToByte(0xff), ToByte(0x86), 0x03, 0x20]
    ensures Concentration(received) == 800
  {
    assert received[2] == 0x03 && received[3] == 0x20;
  }
}
