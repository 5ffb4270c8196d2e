/**
 * The read-only characteristics of the Thingy:52: each decoder unpacks a
 * fixed-layout payload with one struct format and builds its record. Every
 * decoder raises struct.error unless the payload has exactly the format's
 * size. Values the Python code divides into floats are kept here as the
 * integer fields the device sends; the `...Value` functions show the scaling
 * over `real`, an idealisation of Python's floating-point division.
 */
module Sensors {
  import opened Wrappers
  import opened Py
  import opened Struct

  datatype Temperature = Temperature(integer: int, hundredths: int)
  datatype Pressure = Pressure(integer: int, hundredths: int)
  datatype AirQuality = AirQuality(co2: int, voc: int)
  datatype ColorReading = ColorReading(r: int, g: int, b: int, c: int)
  datatype MotionConfig = MotionConfig(
    stepInterval: int, tempCompInterval: int, magnetCompInterval: int,
    motionFrequency: int, wakeOnMotion: int)
  datatype StepCount = StepCount(count: int, time: int)
  datatype Vector = Vector(x: int, y: int, z: int)
  datatype RawMotion = RawMotion(accelerometer: Vector, gyroscope: Vector, compass: Vector)
  datatype EulerAngles = EulerAngles(roll: int, pitch: int, yaw: int)

  const TemperatureFormat: seq<Field> := [SByte, UByte]                            // 'bB'
  const PressureFormat: seq<Field> := [UInt, UByte]                                // '<IB'
  const HumidityFormat: seq<Field> := [UByte]                                      // 'B'
  const AirQualityFormat: seq<Field> := [UShort, UShort]                           // '<HH'
  const ColorFormat: seq<Field> := [UShort, UShort, UShort, UShort]                // '<HHHH'
  const ButtonFormat: seq<Field> := [UByte]                                        // 'B'
  const MotionConfigFormat: seq<Field> := [UShort, UShort, UShort, UShort, UByte]  // '<HHHHB'
  const OrientationFormat: seq<Field> := [UByte]                                   // 'B'
  const StepCounterFormat: seq<Field> := [UInt, UInt]                              // '<II'
  const RawFormat: seq<Field> := Repeat(SShort, 9)                                 // '<hhhhhhhhh'
  const EulerFormat: seq<Field> := [SInt, SInt, SInt]                              // '<iii'
  const HeadingFormat: seq<Field> := [SInt]                                        // '<i'

  /** The names the orientation byte indexes. */
  const OrientationNames: seq<string> := ["left", "up", "right", "down"]

  /** Unsigned little-endian 16-bit value of two bytes. */
  function U16(lo: byte, hi: byte): int
  {
    lo as int + 256 * hi as int
  }

  /** Unsigned little-endian 32-bit value of four bytes. */
  function U32(b0: byte, b1: byte, b2: byte, b3: byte): int
  {
    b0 as int + 256 * b1 as int + 65536 * b2 as int + 16777216 * b3 as int
  }

  /** Two's complement reinterpretation of an unsigned value of the given span. */
  function TwosComplement(u: int, span: int): int
  {
    if u >= span / 2 then u - span else u
  }

  function DecodeTemperature(data: seq<byte>): (r: Result<Temperature, Error>)
    ensures r.Ok? <==> |data| == 2
    ensures r.Err? ==> r.error == StructError
    ensures r.Ok? ==> -128 <= r.value.integer < 128 && 0 <= r.value.hundredths < 256
  {
    var x :- Unpack(TemperatureFormat, data);
    Ok(Temperature(x[0], x[1]))
  }

  function DecodePressure(data: seq<byte>): (r: Result<Pressure, Error>)
    ensures r.Ok? <==> |data| == 5
    ensures r.Err? ==> r.error == StructError
    ensures r.Ok? ==> 0 <= r.value.integer < 4294967296 && 0 <= r.value.hundredths < 256
  {
    var x :- Unpack(PressureFormat, data);
    Ok(Pressure(x[0], x[1]))
  }

  function DecodeHumidity(data: seq<byte>): (r: Result<int, Error>)
    ensures r.Ok? <==> |data| == 1
    ensures r.Err? ==> r.error == StructError
    ensures r.Ok? ==> r.value == data[0] as int
  {
    var x :- Unpack(HumidityFormat, data);
    UnpackAt(HumidityFormat, data, 0);
    ReadFieldValue(UByte, data);
    Ok(x[0])
  }

  function DecodeAirQuality(data: seq<byte>): (r: Result<AirQuality, Error>)
    ensures r.Ok? <==> |data| == 4
    ensures r.Err? ==> r.error == StructError
    ensures r.Ok? ==> 0 <= r.value.co2 < 65536 && 0 <= r.value.voc < 65536
  {
    var x :- Unpack(AirQualityFormat, data);
    Ok(AirQuality(x[0], x[1]))
  }

  function DecodeColor(data: seq<byte>): (r: Result<ColorReading, Error>)
    ensures r.Ok? <==> |data| == 8
    ensures r.Err? ==> r.error == StructError
  {
    var x :- Unpack(ColorFormat, data);
    Ok(ColorReading(x[0], x[1], x[2], x[3]))
  }

  function DecodeButton(data: seq<byte>): (r: Result<bool, Error>)
    ensures r.Ok? <==> |data| == 1
    ensures r.Err? ==> r.error == StructError
    ensures r.Ok? ==> (r.value <==> data[0] != 0)
  {
    var x :- Unpack(ButtonFormat, data);
    UnpackAt(ButtonFormat, data, 0);
    ReadFieldValue(UByte, data);
    Ok(x[0] > 0)
  }

  function DecodeMotionConfig(data: seq<byte>): (r: Result<MotionConfig, Error>)
    ensures r.Ok? <==> |data| == 9
    ensures r.Err? ==> r.error == StructError
    ensures r.Ok? ==> 0 <= r.value.wakeOnMotion < 256
  {
    var x :- Unpack(MotionConfigFormat, data);
    Ok(MotionConfig(x[0], x[1], x[2], x[3], x[4]))
  }

  /** `names[x[0]]`: struct.error on a wrong length, IndexError on a byte of 4 or more. */
  function DecodeOrientation(data: seq<byte>): (r: Result<string, Error>)
    ensures r.Ok? <==> |data| == 1 && data[0] < 4
    ensures r.Err? ==> r.error == if |data| != 1 then StructError else IndexError
    ensures r.Ok? ==> r.value == OrientationNames[data[0]]
  {
    var x :- Unpack(OrientationFormat, data);
    UnpackAt(OrientationFormat, data, 0);
    ReadFieldValue(UByte, data);
    Py.Index(OrientationNames, x[0])
  }

  function DecodeStepCounter(data: seq<byte>): (r: Result<StepCount, Error>)
    ensures r.Ok? <==> |data| == 8
    ensures r.Err? ==> r.error == StructError
    ensures r.Ok? ==> 0 <= r.value.count < 4294967296 && 0 <= r.value.time < 4294967296
  {
    var x :- Unpack(StepCounterFormat, data);
    Ok(StepCount(x[0], x[1]))
  }

  function DecodeRaw(data: seq<byte>): (r: Result<RawMotion, Error>)
    ensures r.Ok? <==> |data| == 18
    ensures r.Err? ==> r.error == StructError
  {
    UniformSize(RawFormat, SShort);
    var s :- Unpack(RawFormat, data);
    Ok(RawMotion(Vector(s[0], s[1], s[2]), Vector(s[3], s[4], s[5]), Vector(s[6], s[7], s[8])))
  }

  function DecodeEuler(data: seq<byte>): (r: Result<EulerAngles, Error>)
    ensures r.Ok? <==> |data| == 12
    ensures r.Err? ==> r.error == StructError
  {
    var x :- Unpack(EulerFormat, data);
    Ok(EulerAngles(x[0], x[1], x[2]))
  }

  function DecodeHeading(data: seq<byte>): (r: Result<int, Error>)
    ensures r.Ok? <==> |data| == 4
    ensures r.Err? ==> r.error == StructError
    ensures r.Ok? ==> -2147483648 <= r.value < 2147483648
  {
    var x :- Unpack(HeadingFormat, data);
    Ok(x[0])
  }

  // Field extraction: which bytes each decoded field comes from.

  lemma TemperatureFields(data: seq<byte>)
    requires |data| == 2
    ensures DecodeTemperature(data) == Ok(Temperature(TwosComplement(data[0] as int, 256), data[1] as int))
  {
    UnpackAt(TemperatureFormat, data, 0);
    UnpackAt(TemperatureFormat, data, 1);
    ReadFieldValue(SByte, data[0..1]);
    ReadFieldValue(UByte, data[1..2]);
  }

  lemma PressureFields(data: seq<byte>)
    requires |data| == 5
    ensures DecodePressure(data) == Ok(Pressure(U32(data[0], data[1], data[2], data[3]), data[4] as int))
  {
    UnpackAt(PressureFormat, data, 0);
    UnpackAt(PressureFormat, data, 1);
    ReadFieldValue(UInt, data[0..4]);
    ReadFieldValue(UByte, data[4..5]);
  }

  /** An unsigned 16-bit field at byte offset o is U16 of the two bytes there. */
  lemma UShortFieldAt(fmt: seq<Field>, data: seq<byte>, i: nat, o: nat)
    requires |data| == Size(fmt) && i < |fmt| && fmt[i] == UShort && Offset(fmt, i) == o
    ensures o + 2 <= |data|
    ensures UnpackFields(fmt, data)[i] == U16(data[o], data[o + 1])
  {
    UnpackAt(fmt, data, i);
    ReadFieldValue(UShort, data[o..o + 2]);
  }

  lemma AirQualityFields(data: seq<byte>)
    requires |data| == 4
    ensures DecodeAirQuality(data) == Ok(AirQuality(U16(data[0], data[1]), U16(data[2], data[3])))
  {
    UShortFieldAt(AirQualityFormat, data, 0, 0);
    UShortFieldAt(AirQualityFormat, data, 1, 2);
  }

  lemma ColorFields(data: seq<byte>)
    requires |data| == 8
    ensures DecodeColor(data) == Ok(ColorReading(
      U16(data[0], data[1]), U16(data[2], data[3]), U16(data[4], data[5]), U16(data[6], data[7])))
  {
    assert Offset(ColorFormat, 1) == 2;
    assert Offset(ColorFormat, 2) == 4;
    assert Offset(ColorFormat, 3) == 6;
    UShortFieldAt(ColorFormat, data, 0, 0);
    UShortFieldAt(ColorFormat, data, 1, 2);
    UShortFieldAt(ColorFormat, data, 2, 4);
    UShortFieldAt(ColorFormat, data, 3, 6);
  }

  lemma MotionConfigFields(data: seq<byte>)
    requires |data| == 9
    ensures DecodeMotionConfig(data) == Ok(MotionConfig(
      U16(data[0], data[1]), U16(data[2], data[3]), U16(data[4], data[5]), U16(data[6], data[7]),
      data[8] as int))
  {
    assert Offset(MotionConfigFormat, 1) == 2;
    assert Offset(MotionConfigFormat, 2) == 4;
    assert Offset(MotionConfigFormat, 3) == 6;
    assert Offset(MotionConfigFormat, 4) == 8;
    UShortFieldAt(MotionConfigFormat, data, 0, 0);
    UShortFieldAt(MotionConfigFormat, data, 1, 2);
    UShortFieldAt(MotionConfigFormat, data, 2, 4);
    UShortFieldAt(MotionConfigFormat, data, 3, 6);
    ByteFieldAt(MotionConfigFormat, data, 4);
  }

  lemma StepCounterFields(data: seq<byte>)
    requires |data| == 8
    ensures DecodeStepCounter(data) == Ok(StepCount(
      U32(data[0], data[1], data[2], data[3]), U32(data[4], data[5], data[6], data[7])))
  {
    UnpackAt(StepCounterFormat, data, 0);
    UnpackAt(StepCounterFormat, data, 1);
    ReadFieldValue(UInt, data[0..4]);
    ReadFieldValue(UInt, data[4..8]);
  }

  /** The i-th signed 16-bit field of a raw-motion payload. */
  function RawField(data: seq<byte>, i: nat): int
    requires 2 * i + 1 < |data|
  {
    TwosComplement(U16(data[2 * i], data[2 * i + 1]), 65536)
  }

  /** Field i of the raw-motion format is a signed short at byte 2 * i. */
  lemma RawOffset(i: nat)
    requires i < 9
    ensures Size(RawFormat) == 18
    ensures RawFormat[i] == SShort && Offset(RawFormat, i) == 2 * i
  {
    UniformSize(RawFormat, SShort);
    UniformOffset(RawFormat, SShort, i);
  }

  lemma RawFieldAt(data: seq<byte>, i: nat)
    requires |data| == 18 && i < 9
    ensures Size(RawFormat) == 18
    ensures UnpackFields(RawFormat, data)[i] == RawField(data, i)
  {
    RawOffset(i);
    UnpackAt(RawFormat, data, i);
    var chunk := data[2 * i..2 * i + 2];
    ReadFieldValue(SShort, chunk);
    assert chunk[0] == data[2 * i] && chunk[1] == data[2 * i + 1];
    assert ReadField(SShort, chunk) == RawField(data, i);
  }

  lemma RawFields(data: seq<byte>)
    requires |data| == 18
    ensures DecodeRaw(data) == Ok(RawMotion(
      Vector(RawField(data, 0), RawField(data, 1), RawField(data, 2)),
      Vector(RawField(data, 3), RawField(data, 4), RawField(data, 5)),
      Vector(RawField(data, 6), RawField(data, 7), RawField(data, 8))))
  {
    RawOffset(0);
    forall i | 0 <= i < 9
      ensures UnpackFields(RawFormat, data)[i] == RawField(data, i)
    {
      RawFieldAt(data, i);
    }
  }

  lemma EulerFields(data: seq<byte>)
    requires |data| == 12
    ensures DecodeEuler(data) == Ok(EulerAngles(
      TwosComplement(U32(data[0], data[1], data[2], data[3]), 4294967296),
      TwosComplement(U32(data[4], data[5], data[6], data[7]), 4294967296),
      TwosComplement(U32(data[8], data[9], data[10], data[11]), 4294967296)))
  {
    UnpackAt(EulerFormat, data, 0);
    UnpackAt(EulerFormat, data, 1);
    UnpackAt(EulerFormat, data, 2);
    ReadFieldValue(SInt, data[0..4]);
    ReadFieldValue(SInt, data[4..8]);
    ReadFieldValue(SInt, data[8..12]);
  }

  lemma HeadingFields(data: seq<byte>)
    requires |data| == 4
    ensures DecodeHeading(data) == Ok(TwosComplement(U32(data[0], data[1], data[2], data[3]), 4294967296))
  {
    UnpackAt(HeadingFormat, data, 0);
    assert data[0..4] == data;
    ReadFieldValue(SInt, data);
  }

  // The floating-point results, as exact rationals.

  function TemperatureValue(t: Temperature): real
  {
    t.integer as real + t.hundredths as real / 100.0
  }

  function PressureValue(p: Pressure): real
  {
    p.integer as real + p.hundredths as real / 100.0
  }

  datatype RealVector = RealVector(x: real, y: real, z: real)

  function Scaled(v: Vector, divisor: real): RealVector
    requires divisor != 0.0
  {
    RealVector(v.x as real / divisor, v.y as real / divisor, v.z as real / divisor)
  }

  /** Accelerometer in g (/1024), gyroscope in deg/s (/256), compass in uT (/16). */
  function RawValue(m: RawMotion): (RealVector, RealVector, RealVector)
  {
    (Scaled(m.accelerometer, 1024.0), Scaled(m.gyroscope, 256.0), Scaled(m.compass, 16.0))
  }

  /** Euler angles and heading are 16.16 fixed point. */
  function FixedPointValue(v: int): real
  {
    v as real / 65536.0
  }

  lemma TemperatureExample()
    ensures DecodeTemperature([22, 50]) == Ok(Temperature(22, 50))
    ensures TemperatureValue(Temperature(22, 50)) == 22.5
  {
    TemperatureFields([22, 50]);
  }

  /** 1013.25 hPa: the integer part 1013 little-endian in four bytes, then 25 hundredths. */
  lemma PressureExample()
    ensures DecodePressure([0xF5, 0x03, 0, 0, 25]) == Ok(Pressure(1013, 25))
    ensures PressureValue(Pressure(1013, 25)) == 1013.25
  {
    PressureFields([0xF5, 0x03, 0, 0, 25]);
  }

  /** One g on x, minus one g on z; 1 deg/s on x; 1 uT on x and minus 1 uT on z. */
  lemma RawExample(data: seq<byte>)
    requires data == [0, 4, 0, 0, 0, 252, 0, 1, 0, 0, 0, 0, 16, 0, 0, 0, 240, 255]
    ensures DecodeRaw(data) == Ok(RawMotion(Vector(1024, 0, -1024), Vector(256, 0, 0), Vector(16, 0, -16)))
    ensures RawValue(DecodeRaw(data).value) ==
      (RealVector(1.0, 0.0, -1.0), RealVector(1.0, 0.0, 0.0), RealVector(1.0, 0.0, -1.0))
  {
    RawFields(data);
    assert RawField(data, 0) == 1024 && RawField(data, 1) == 0 && RawField(data, 2) == -1024;
    assert RawField(data, 3) == 256 && RawField(data, 4) == 0 && RawField(data, 5) == 0;
    assert RawField(data, 6) == 16 && RawField(data, 7) == 0 && RawField(data, 8) == -16;
    UnitScale(Vector(1024, 0, -1024), Vector(256, 0, 0), Vector(16, 0, -16));
  }

  /** One unit per axis: 1024 per g, 256 per deg/s, 16 per uT. */
  lemma UnitScale(a: Vector, g: Vector, c: Vector)
    requires a == Vector(1024, 0, -1024) && g == Vector(256, 0, 0) && c == Vector(16, 0, -16)
    ensures RawValue(RawMotion(a, g, c)) ==
      (RealVector(1.0, 0.0, -1.0), RealVector(1.0, 0.0, 0.0), RealVector(1.0, 0.0, -1.0))
  {
  }

  /** A heading of 90 degrees is 90 * 65536 in 16.16 fixed point: bytes [0, 0, 0x5A, 0]. */
  lemma HeadingExample(data: seq<byte>)
    requires data == [0, 0, 0x5A, 0]
    ensures DecodeHeading(data) == Ok(90 * 65536)
    ensures FixedPointValue(DecodeHeading(data).value) == 90.0
  {
    HeadingFields(data);
  }
}
