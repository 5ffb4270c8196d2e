/**
 * The LED characteristic: the one writable, tag-dispatched format. The first
 * byte selects the mode (0 off, 1 constant, 2 breathe, 3 oneshot); breathe and
 * oneshot carry a 1-based index into a seven-entry colour table. The encoder
 * takes the dictionary the application passes to `write`; the decoder returns
 * the dictionary's content as a LedState, or None for an unknown mode byte.
 */
module Led {
  import opened Wrappers
  import opened Py
  import opened Struct

  const Colors: seq<string> := ["red", "green", "yellow", "blue", "purple", "cyan", "white"]

  /** The four modes the encoder dispatches on. */
  const Modes: set<Value> := {Str("off"), Str("constant"), Str("breathe"), Str("oneshot")}

  /** A decoded LED setting; colours are names from the table. */
  datatype LedState =
    | Off
    | Constant(r: int, g: int, b: int)
    | Breathe(color: string, intensity: int, delay: int)
    | Oneshot(color: string, intensity: int)

  /** The dictionary `write` takes and `read` returns. */
  type LedDict = map<string, Value>

  /** The dictionary the decoder builds for a state. */
  function AsDict(s: LedState): (d: LedDict)
    ensures "mode" in d && d["mode"] in Modes
    ensures (d["mode"] == Str("off") <==> s.Off?) && (d["mode"] == Str("constant") <==> s.Constant?)
    ensures (d["mode"] == Str("breathe") <==> s.Breathe?) && (d["mode"] == Str("oneshot") <==> s.Oneshot?)
    ensures s.Breathe? || s.Oneshot? ==> "color" in d && d["color"] == Str(s.color)
  {
    match s
    case Off => map["mode" := Str("off")]
    case Constant(r, g, b) => map["mode" := Str("constant"), "r" := Int(r), "g" := Int(g), "b" := Int(b)]
    case Breathe(c, i, d) =>
      map["mode" := Str("breathe"), "color" := Str(c), "intensity" := Int(i), "delay" := Int(d)]
    case Oneshot(c, i) => map["mode" := Str("oneshot"), "color" := Str(c), "intensity" := Int(i)]
  }

  predicate IsByte(v: int)
  {
    0 <= v < 256
  }

  /** A dictionary value `struct.pack` accepts for a 'B' field. */
  predicate ByteValue(v: Value)
  {
    v.Int? && IsByte(v.i)
  }

  /** A dictionary value `struct.pack` accepts for an 'H' field. */
  predicate DelayValue(v: Value)
  {
    v.Int? && 0 <= v.i < 65536
  }

  /** The states the encoder accepts in the form the decoder returns them. */
  predicate Writable(s: LedState)
  {
    match s
    case Off => true
    case Constant(r, g, b) => IsByte(r) && IsByte(g) && IsByte(b)
    case Breathe(c, i, d) => c in Colors && IsByte(i) && 0 <= d < 65536
    case Oneshot(c, i) => c in Colors && IsByte(i)
  }

  /** How many bytes the decoder reads for a mode byte 0..3. */
  function PrefixLength(tag: byte): nat
    requires tag <= 3
  {
    match tag
    case 0 => 1
    case 1 => 4
    case 2 => 5
    case 3 => 3
  }

  const ConstantFormat: seq<Field> := [UByte, UByte, UByte, UByte]  // '<BBBB'
  const BreatheFormat: seq<Field> := [UByte, UByte, UByte, UShort]  // '<BBBH'
  const OneshotFormat: seq<Field> := [UByte, UByte, UByte]          // '<BBB'

  /** struct.pack arguments: anything but an integer raises struct.error. */
  function Ints(vs: seq<Value>): (r: Result<seq<int>, Error>)
    ensures r.Ok? <==> forall i :: 0 <= i < |vs| ==> vs[i].Int?
    ensures r.Ok? ==> |r.value| == |vs| && forall i :: 0 <= i < |vs| ==> r.value[i] == vs[i].i
    ensures r.Err? ==> r.error == StructError
  {
    if forall i :: 0 <= i < |vs| ==> vs[i].Int? then Ok(seq(|vs|, i requires 0 <= i < |vs| => vs[i].i))
    else Err(StructError)
  }

  /** `struct.pack(fmt, *vs)` for dictionary values; a leading tag byte lands first. */
  function PackValues(fmt: seq<Field>, vs: seq<Value>): (r: Result<seq<byte>, Error>)
    ensures r.Err? ==> r.error == StructError
    ensures r.Ok? ==> |r.value| == Size(fmt)
    ensures r.Ok? && |fmt| > 0 && fmt[0] == UByte ==> |vs| > 0 && vs[0].Int? && r.value[0] == vs[0].i
  {
    var ints :- Ints(vs);
    var packed :- Pack(fmt, ints);
    if |fmt| > 0 && fmt[0] == UByte then
      PackFirstByte(fmt, ints);
      Ok(packed)
    else
      Ok(packed)
  }

  /** `if isinstance(color, str): color = self.colors.index(color) + 1` */
  function ColorArgument(c: Value): (r: Result<Value, Error>)
    ensures c.Int? ==> r == Ok(c)
    ensures c.Str? ==> (r.Ok? <==> c.s in Colors)
    ensures r.Err? ==> r.error == ValueError
    ensures c.Str? && r.Ok? ==> r.value.Int? && 1 <= r.value.i <= |Colors| && Colors[r.value.i - 1] == c.s
  {
    if c.Str? then
      var k :- ListIndex(Colors, c.s);
      Ok(Int(k + 1))
    else Ok(c)
  }

  /** The 'constant' branch of `LED.encode`: `struct.pack('<BBBB', 1, r, g, b)`. */
  function EncodeConstant(x: LedDict): (r: Result<seq<byte>, Error>)
    ensures r.Ok? ==> |r.value| == 4 && r.value[0] == 1
    ensures !("r" in x && "g" in x && "b" in x) ==> r == Err(KeyError)
    ensures "r" in x && "g" in x && "b" in x ==>
      r == if ByteValue(x["r"]) && ByteValue(x["g"]) && ByteValue(x["b"])
           then Ok(ConstantBytes(x["r"].i as byte, x["g"].i as byte, x["b"].i as byte))
           else Err(StructError)
  {
    var r :- Lookup(x, "r");
    var g :- Lookup(x, "g");
    var b :- Lookup(x, "b");
    PackConstantValues(r, g, b);
    PackValues(ConstantFormat, [Int(1), r, g, b])
  }

  /** The 'breathe' branch of `LED.encode`: `struct.pack('<BBBH', 2, color, intensity, delay)`. */
  function EncodeBreathe(x: LedDict): (r: Result<seq<byte>, Error>)
    ensures r.Ok? ==> |r.value| == 5 && r.value[0] == 2
    ensures "color" !in x ==> r == Err(KeyError)
    ensures "color" in x && ColorArgument(x["color"]).Err? ==> r == Err(ValueError)
    ensures "color" in x && ColorArgument(x["color"]).Ok? && !("intensity" in x && "delay" in x) ==>
      r == Err(KeyError)
    ensures "color" in x && ColorArgument(x["color"]).Ok? && "intensity" in x && "delay" in x ==>
      var c := ColorArgument(x["color"]).value;
      r == if ByteValue(c) && ByteValue(x["intensity"]) && DelayValue(x["delay"])
           then Ok(BreatheBytes(c.i as byte, x["intensity"].i as byte, x["delay"].i))
           else Err(StructError)
  {
    var color :- Lookup(x, "color");
    var index :- ColorArgument(color);
    var intensity :- Lookup(x, "intensity");
    var delay :- Lookup(x, "delay");
    PackBreatheValues(index, intensity, delay);
    PackValues(BreatheFormat, [Int(2), index, intensity, delay])
  }

  /** The 'oneshot' branch of `LED.encode`: `struct.pack('<BBB', 3, color, intensity)`. */
  function EncodeOneshot(x: LedDict): (r: Result<seq<byte>, Error>)
    ensures r.Ok? ==> |r.value| == 3 && r.value[0] == 3
    ensures "color" !in x ==> r == Err(KeyError)
    ensures "color" in x && ColorArgument(x["color"]).Err? ==> r == Err(ValueError)
    ensures "color" in x && ColorArgument(x["color"]).Ok? && "intensity" !in x ==> r == Err(KeyError)
    ensures "color" in x && ColorArgument(x["color"]).Ok? && "intensity" in x ==>
      var c := ColorArgument(x["color"]).value;
      r == if ByteValue(c) && ByteValue(x["intensity"])
           then Ok(OneshotBytes(c.i as byte, x["intensity"].i as byte))
           else Err(StructError)
  {
    var color :- Lookup(x, "color");
    var index :- ColorArgument(color);
    var intensity :- Lookup(x, "intensity");
    PackOneshotValues(index, intensity);
    PackValues(OneshotFormat, [Int(3), index, intensity])
  }

  /** `LED.encode`: dispatch on the mode string; an unknown mode raises ValueError. */
  function Encode(x: LedDict): (r: Result<seq<byte>, Error>)
    ensures "mode" !in x ==> r == Err(KeyError)
    ensures "mode" in x && x["mode"] !in Modes ==> r == Err(ValueError)
    ensures r.Ok? ==> |r.value| > 0 && r.value[0] <= 3 && |r.value| == PrefixLength(r.value[0])
    ensures r.Ok? ==> x["mode"] == [Str("off"), Str("constant"), Str("breathe"), Str("oneshot")][r.value[0]]
  {
    var mode :- Lookup(x, "mode");
    if mode == Str("off") then
      PackValues([UByte], [Int(0)])
    else if mode == Str("constant") then
      EncodeConstant(x)
    else if mode == Str("breathe") then
      EncodeBreathe(x)
    else if mode == Str("oneshot") then
      EncodeOneshot(x)
    else
      Err(ValueError)
  }

  /** `self.colors[x[1] - 1]`: byte 0 wraps to the last entry, bytes above 7 raise IndexError. */
  function ColorName(b: int): (r: Result<string, Error>)
    requires IsByte(b)
    ensures r.Ok? <==> b <= |Colors|
    ensures r.Ok? ==> r.value == Colors[(b - 1) % |Colors|]
    ensures 1 <= b <= |Colors| ==> r == Ok(Colors[b - 1])
  {
    Py.Index(Colors, b - 1)
  }

  /** `LED.decode`: the first byte selects the layout; trailing bytes are never read. */
  function Decode(data: seq<byte>): (r: Result<Option<LedState>, Error>)
    ensures |data| == 0 ==> r == Err(IndexError)
    ensures |data| > 0 && data[0] > 3 ==> r == Ok(None)
    ensures r.Ok? <==>
      |data| > 0 && (data[0] > 3 || (|data| >= PrefixLength(data[0]) && (data[0] >= 2 ==> data[1] <= 7)))
    ensures r.Err? && |data| > 0 ==>
      r.error == if |data| < PrefixLength(data[0]) then StructError else IndexError
    ensures r.Ok? && r.value.Some? ==> Writable(r.value.value)
  {
    if |data| == 0 then Err(IndexError)
    else if data[0] == 0 then Ok(Some(Off))
    else if data[0] == 1 then
      var x :- Unpack(ConstantFormat, Prefix(data, 4));
      Ok(Some(Constant(x[1], x[2], x[3])))
    else if data[0] == 2 then
      var x :- Unpack(BreatheFormat, Prefix(data, 5));
      ByteFieldAt(BreatheFormat, Prefix(data, 5), 1);
      var color :- ColorName(x[1]);
      Ok(Some(Breathe(color, x[2], x[3])))
    else if data[0] == 3 then
      var x :- Unpack(OneshotFormat, Prefix(data, 3));
      ByteFieldAt(OneshotFormat, Prefix(data, 3), 1);
      var color :- ColorName(x[1]);
      Ok(Some(Oneshot(color, x[2])))
    else
      Ok(None)
  }

  /** The 1-based table index the encoder sends for a colour name. */
  function ColorNumber(c: string): (n: nat)
    requires c in Colors
    ensures 1 <= n <= |Colors| && Colors[n - 1] == c
  {
    ListIndex(Colors, c).value + 1
  }

  function LowByte(v: int): byte
    requires 0 <= v < 65536
  {
    v % 256
  }

  function HighByte(v: int): byte
    requires 0 <= v < 65536
  {
    v / 256
  }

  /** The byte layout of each mode: tag, then the fields, the delay little-endian. */
  function Layout(s: LedState): seq<byte>
    requires Writable(s)
  {
    if s.Off? then [0]
    else if s.Constant? then ConstantBytes(s.r, s.g, s.b)
    else if s.Breathe? then BreatheBytes(ColorNumber(s.color), s.intensity, s.delay)
    else OneshotBytes(ColorNumber(s.color), s.intensity)
  }

  function ConstantBytes(r: byte, g: byte, b: byte): seq<byte>
  {
    [1, r, g, b]
  }

  function BreatheBytes(n: byte, i: byte, d: int): seq<byte>
    requires 0 <= d < 65536
  {
    [2, n, i, LowByte(d), HighByte(d)]
  }

  function OneshotBytes(n: byte, i: byte): seq<byte>
  {
    [3, n, i]
  }

  // Byte level: each mode's fields against its struct format.

  /** A delay split into its low and high byte. */
  lemma DelayBytes(d: int)
    requires 0 <= d < 65536
    ensures LowByte(d) as int + 256 * HighByte(d) as int == d
  {
  }

  /** A delay assembled from a low and a high byte splits back into them. */
  lemma DelayOfBytes(lo: byte, hi: byte)
    ensures LowByte(lo as int + 256 * hi as int) == lo && HighByte(lo as int + 256 * hi as int) == hi
  {
  }

  /** The four fields of '<BBBB' over four bytes. */
  lemma ConstantFields(data: seq<byte>)
    requires |data| == 4
    ensures UnpackFields(ConstantFormat, data) == [data[0] as int, data[1] as int, data[2] as int, data[3] as int]
  {
    ByteFieldAt(ConstantFormat, data, 0);
    ByteFieldAt(ConstantFormat, data, 1);
    ByteFieldAt(ConstantFormat, data, 2);
    ByteFieldAt(ConstantFormat, data, 3);
  }

  /** The four fields of '<BBBH' over five bytes. */
  lemma BreatheFields(data: seq<byte>)
    requires |data| == 5
    ensures UnpackFields(BreatheFormat, data)
      == [data[0] as int, data[1] as int, data[2] as int, data[3] as int + 256 * data[4] as int]
  {
    ByteFieldAt(BreatheFormat, data, 0);
    ByteFieldAt(BreatheFormat, data, 1);
    ByteFieldAt(BreatheFormat, data, 2);
    UnpackAt(BreatheFormat, data, 3);
    ReadFieldValue(UShort, data[3..5]);
  }

  /** The three fields of '<BBB' over three bytes. */
  lemma OneshotFields(data: seq<byte>)
    requires |data| == 3
    ensures UnpackFields(OneshotFormat, data) == [data[0] as int, data[1] as int, data[2] as int]
  {
    ByteFieldAt(OneshotFormat, data, 0);
    ByteFieldAt(OneshotFormat, data, 1);
    ByteFieldAt(OneshotFormat, data, 2);
  }

  /** struct.pack of the constant values gives the constant layout. */
  lemma PackConstant(r: byte, g: byte, b: byte)
    ensures Pack(ConstantFormat, [1, r as int, g as int, b as int]) == Ok(ConstantBytes(r, g, b))
  {
    ConstantFields(ConstantBytes(r, g, b));
    PackUnpack(ConstantFormat, ConstantBytes(r, g, b));
  }

  /** struct.pack of the breathe values gives the breathe layout, the delay little-endian. */
  lemma PackBreathe(n: byte, i: byte, d: int)
    requires 0 <= d < 65536
    ensures Pack(BreatheFormat, [2, n as int, i as int, d]) == Ok(BreatheBytes(n, i, d))
  {
    var data := BreatheBytes(n, i, d);
    BreatheFields(data);
    DelayBytes(d);
    PackUnpack(BreatheFormat, data);
  }

  /** struct.pack of the oneshot values gives the oneshot layout. */
  lemma PackOneshot(n: byte, i: byte)
    ensures Pack(OneshotFormat, [3, n as int, i as int]) == Ok(OneshotBytes(n, i))
  {
    OneshotFields(OneshotBytes(n, i));
    PackUnpack(OneshotFormat, OneshotBytes(n, i));
  }

  /** What the decoder returns for a constant payload. */
  lemma DecodeConstantBytes(data: seq<byte>)
    requires |data| >= 4 && data[0] == 1
    ensures Decode(data) == Ok(Some(Constant(data[1] as int, data[2] as int, data[3] as int)))
  {
    ConstantFields(data[..4]);
  }

  /** What the decoder returns for a breathe payload: byte 0 names the last colour. */
  lemma DecodeBreatheBytes(data: seq<byte>)
    requires |data| >= 5 && data[0] == 2 && data[1] <= 7
    ensures Decode(data) ==
      Ok(Some(Breathe(Colors[(data[1] as int - 1) % 7], data[2] as int, data[3] as int + 256 * data[4] as int)))
    ensures data[1] >= 1 ==> (data[1] as int - 1) % 7 == data[1] as int - 1
  {
    BreatheFields(data[..5]);
  }

  /** What the decoder returns for a oneshot payload: byte 0 names the last colour. */
  lemma DecodeOneshotBytes(data: seq<byte>)
    requires |data| >= 3 && data[0] == 3 && data[1] <= 7
    ensures Decode(data) == Ok(Some(Oneshot(Colors[(data[1] as int - 1) % 7], data[2] as int)))
    ensures data[1] >= 1 ==> (data[1] as int - 1) % 7 == data[1] as int - 1
  {
    OneshotFields(data[..3]);
  }

  // Dictionary level.

  lemma IntsOfInts1(a: int)
    ensures Ints([Int(a)]) == Ok([a])
  {
    assert Ints([Int(a)]).value == [a];
  }

  lemma IntsOfInts3(a: int, b: int, c: int)
    ensures Ints([Int(a), Int(b), Int(c)]) == Ok([a, b, c])
  {
    var vs := [Int(a), Int(b), Int(c)];
    assert forall k :: 0 <= k < 3 ==> vs[k].Int?;
    assert Ints(vs).value == [a, b, c];
  }

  lemma IntsOfInts4(a: int, b: int, c: int, d: int)
    ensures Ints([Int(a), Int(b), Int(c), Int(d)]) == Ok([a, b, c, d])
  {
    var vs := [Int(a), Int(b), Int(c), Int(d)];
    assert forall k :: 0 <= k < 4 ==> vs[k].Int?;
    assert Ints(vs).value == [a, b, c, d];
  }

  /** struct.pack('<BBBB', 1, r, g, b) over dictionary values: the constant layout, or struct.error. */
  lemma PackConstantValues(r: Value, g: Value, b: Value)
    ensures PackValues(ConstantFormat, [Int(1), r, g, b]) ==
      if ByteValue(r) && ByteValue(g) && ByteValue(b)
      then Ok(ConstantBytes(r.i as byte, g.i as byte, b.i as byte))
      else Err(StructError)
  {
    var vs := [Int(1), r, g, b];
    if r.Int? && g.Int? && b.Int? {
      IntsOfInts4(1, r.i, g.i, b.i);
      var ints := [1, r.i, g.i, b.i];
      if ByteValue(r) && ByteValue(g) && ByteValue(b) {
        PackConstant(r.i as byte, g.i as byte, b.i as byte);
      } else if !ByteValue(r) {
        assert !Fits(ConstantFormat[1], ints[1]);
      } else if !ByteValue(g) {
        assert !Fits(ConstantFormat[2], ints[2]);
      } else {
        assert !Fits(ConstantFormat[3], ints[3]);
      }
    } else if !r.Int? {
      assert !vs[1].Int?;
    } else if !g.Int? {
      assert !vs[2].Int?;
    } else {
      assert !vs[3].Int?;
    }
  }

  /** struct.pack('<BBBH', 2, c, i, d) over dictionary values: the breathe layout, or struct.error. */
  lemma PackBreatheValues(c: Value, i: Value, d: Value)
    ensures PackValues(BreatheFormat, [Int(2), c, i, d]) ==
      if ByteValue(c) && ByteValue(i) && DelayValue(d)
      then Ok(BreatheBytes(c.i as byte, i.i as byte, d.i))
      else Err(StructError)
  {
    var vs := [Int(2), c, i, d];
    if c.Int? && i.Int? && d.Int? {
      IntsOfInts4(2, c.i, i.i, d.i);
      var ints := [2, c.i, i.i, d.i];
      if ByteValue(c) && ByteValue(i) && DelayValue(d) {
        PackValuesBreathe(c.i as byte, i.i as byte, d.i);
      } else if !ByteValue(c) {
        assert !Fits(BreatheFormat[1], ints[1]);
      } else if !ByteValue(i) {
        assert !Fits(BreatheFormat[2], ints[2]);
      } else {
        assert !Fits(BreatheFormat[3], ints[3]);
      }
    } else if !c.Int? {
      assert !vs[1].Int?;
    } else if !i.Int? {
      assert !vs[2].Int?;
    } else {
      assert !vs[3].Int?;
    }
  }

  /** struct.pack('<BBB', 3, c, i) over dictionary values: the oneshot layout, or struct.error. */
  lemma PackOneshotValues(c: Value, i: Value)
    ensures PackValues(OneshotFormat, [Int(3), c, i]) ==
      if ByteValue(c) && ByteValue(i) then Ok(OneshotBytes(c.i as byte, i.i as byte)) else Err(StructError)
  {
    var vs := [Int(3), c, i];
    if c.Int? && i.Int? {
      IntsOfInts3(3, c.i, i.i);
      var ints := [3, c.i, i.i];
      if ByteValue(c) && ByteValue(i) {
        PackOneshot(c.i as byte, i.i as byte);
      } else if !ByteValue(c) {
        assert !Fits(OneshotFormat[1], ints[1]);
      } else {
        assert !Fits(OneshotFormat[2], ints[2]);
      }
    } else if !c.Int? {
      assert !vs[1].Int?;
    } else {
      assert !vs[2].Int?;
    }
  }

  /** The encoder picks the branch named by the mode. */
  lemma Dispatch(x: LedDict)
    requires "mode" in x
    ensures x["mode"] == Str("off") ==> Encode(x) == Ok([0])
    ensures x["mode"] == Str("constant") ==> Encode(x) == EncodeConstant(x)
    ensures x["mode"] == Str("breathe") ==> Encode(x) == EncodeBreathe(x)
    ensures x["mode"] == Str("oneshot") ==> Encode(x) == EncodeOneshot(x)
  {
    if x["mode"] == Str("off") {
      PackOff();
    }
  }

  /** `struct.pack('<B', 0)` is the single byte 0. */
  lemma PackOff()
    ensures PackValues([UByte], [Int(0)]) == Ok([0])
  {
    IntsOfInts1(0);
    assert UnpackFields([UByte], [0]) == [0] by {
      ByteFieldAt([UByte], [0], 0);
    }
    PackUnpack([UByte], [0]);
  }

  /** A colour name is sent as its 1-based index in the table. */
  lemma ColorArgumentOfName(c: string)
    requires c in Colors
    ensures ColorArgument(Str(c)) == Ok(Int(ColorNumber(c)))
  {
  }

  /** What the encoder sends for each mode. */
  lemma EncodeLayout(s: LedState)
    requires Writable(s)
    ensures Encode(AsDict(s)) == Ok(Layout(s))
  {
    match s
    case Off =>
      PackOff();
    case Constant(r, g, b) =>
      EncodeConstantLayout(r, g, b);
    case Breathe(c, i, d) =>
      EncodeBreatheLayout(c, i, d);
    case Oneshot(c, i) =>
      EncodeOneshotLayout(c, i);
  }

  lemma EncodeConstantLayout(r: int, g: int, b: int)
    requires Writable(Constant(r, g, b))
    ensures Encode(AsDict(Constant(r, g, b))) == Ok(Layout(Constant(r, g, b)))
  {
    var x := AsDict(Constant(r, g, b));
    assert x["mode"] == Str("constant") && x["r"] == Int(r) && x["g"] == Int(g) && x["b"] == Int(b);
    Dispatch(x);
    assert EncodeConstant(x) == PackValues(ConstantFormat, [Int(1), Int(r), Int(g), Int(b)]);
    IntsOfInts4(1, r, g, b);
    PackConstant(r, g, b);
  }

  lemma EncodeBreatheLayout(c: string, i: int, d: int)
    requires Writable(Breathe(c, i, d))
    ensures Encode(AsDict(Breathe(c, i, d))) == Ok(Layout(Breathe(c, i, d)))
  {
    var n := ColorNumber(c);
    var x := AsDict(Breathe(c, i, d));
    assert Encode(x) == PackValues(BreatheFormat, [Int(2), Int(n), Int(i), Int(d)]) by {
      assert x["mode"] == Str("breathe");
      Dispatch(x);
      BreatheArguments(c, i, d);
    }
    PackValuesBreathe(n, i, d);
  }

  lemma PackValuesBreathe(n: byte, i: byte, d: int)
    requires 0 <= d < 65536
    ensures PackValues(BreatheFormat, [Int(2), Int(n), Int(i), Int(d)]) == Ok(BreatheBytes(n, i, d))
  {
    IntsOfInts4(2, n, i, d);
    PackBreathe(n, i, d);
  }

  /** The breathe branch packs the tag, the colour's table index, the intensity and the delay. */
  lemma BreatheArguments(c: string, i: int, d: int)
    requires c in Colors
    ensures EncodeBreathe(AsDict(Breathe(c, i, d)))
      == PackValues(BreatheFormat, [Int(2), Int(ColorNumber(c)), Int(i), Int(d)])
  {
    var x := AsDict(Breathe(c, i, d));
    assert x["color"] == Str(c) && x["intensity"] == Int(i) && x["delay"] == Int(d);
    ColorArgumentOfName(c);
  }

  lemma EncodeOneshotLayout(c: string, i: int)
    requires Writable(Oneshot(c, i))
    ensures Encode(AsDict(Oneshot(c, i))) == Ok(Layout(Oneshot(c, i)))
  {
    var x := AsDict(Oneshot(c, i));
    var n := ColorNumber(c);
    assert x["mode"] == Str("oneshot") && x["color"] == Str(c) && x["intensity"] == Int(i);
    Dispatch(x);
    ColorArgumentOfName(c);
    assert EncodeOneshot(x) == PackValues(OneshotFormat, [Int(3), Int(n), Int(i)]);
    IntsOfInts3(3, n, i);
    PackOneshot(n, i);
  }

  /** What the decoder makes of each layout. */
  lemma DecodeLayout(s: LedState)
    requires Writable(s)
    ensures Decode(Layout(s)) == Ok(Some(s))
  {
    match s
    case Off =>
    case Constant(r, g, b) =>
      DecodeConstantBytes(Layout(s));
    case Breathe(c, i, d) =>
      DecodeBreatheLayout(c, i, d);
    case Oneshot(c, i) =>
      DecodeOneshotLayout(c, i);
  }

  lemma DecodeBreatheLayout(c: string, i: int, d: int)
    requires Writable(Breathe(c, i, d))
    ensures Decode(Layout(Breathe(c, i, d))) == Ok(Some(Breathe(c, i, d)))
  {
    DecodeBreatheNumber(ColorNumber(c), i, d);
  }

  lemma DecodeBreatheNumber(n: byte, i: byte, d: int)
    requires 1 <= n <= 7 && 0 <= d < 65536
    ensures Decode(BreatheBytes(n, i, d)) == Ok(Some(Breathe(Colors[n - 1], i as int, d)))
  {
    DecodeBreatheBytes(BreatheBytes(n, i, d));
    DelayBytes(d);
  }

  lemma DecodeOneshotLayout(c: string, i: int)
    requires Writable(Oneshot(c, i))
    ensures Decode(Layout(Oneshot(c, i))) == Ok(Some(Oneshot(c, i)))
  {
    DecodeOneshotBytes(OneshotBytes(ColorNumber(c), i));
  }

  /** Every state the encoder accepts in decoded form comes back unchanged. */
  lemma RoundTrip(s: LedState)
    requires Writable(s)
    ensures Encode(AsDict(s)).Ok?
    ensures Decode(Encode(AsDict(s)).value) == Ok(Some(s))
  {
    EncodeLayout(s);
    DecodeLayout(s);
  }

  /** A payload of exactly its mode's length with a colour index 1..7 is the layout of what it decodes to. */
  lemma DecodedLayout(data: seq<byte>)
    requires |data| > 0 && data[0] <= 3 && |data| == PrefixLength(data[0])
    requires data[0] >= 2 ==> 1 <= data[1] <= 7
    ensures Decode(data).Ok? && Decode(data).value.Some?
    ensures Layout(Decode(data).value.value) == data
  {
    if data[0] == 1 {
      DecodeConstantBytes(data);
    } else if data[0] == 2 {
      DecodedBreatheLayout(data);
    } else if data[0] == 3 {
      DecodedOneshotLayout(data);
    }
  }

  /** The breathe state a 5-byte payload with colour byte 1..7 stands for. */
  function BreatheOf(data: seq<byte>): (s: LedState)
    requires |data| == 5 && 1 <= data[1] <= 7
    ensures s.Breathe? && Writable(s)
  {
    Breathe(Colors[data[1] - 1], data[2] as int, data[3] as int + 256 * data[4] as int)
  }

  lemma DecodedBreatheLayout(data: seq<byte>)
    requires |data| == 5 && data[0] == 2 && 1 <= data[1] <= 7
    ensures Decode(data) == Ok(Some(BreatheOf(data)))
    ensures Layout(BreatheOf(data)) == data
  {
    DecodedBreathe(data);
    BreatheOfLayout(data);
  }

  /** A 5-byte breathe payload with colour byte 1..7 decodes to the state it stands for. */
  lemma DecodedBreathe(data: seq<byte>)
    requires |data| == 5 && data[0] == 2 && 1 <= data[1] <= 7
    ensures Decode(data) == Ok(Some(BreatheOf(data)))
  {
    DecodeBreatheBytes(data);
  }

  /** ... and the layout of that state is the payload. */
  lemma BreatheOfLayout(data: seq<byte>)
    requires |data| == 5 && data[0] == 2 && 1 <= data[1] <= 7
    ensures Layout(BreatheOf(data)) == data
  {
    var d := data[3] as int + 256 * data[4] as int;
    assert BreatheBytes(data[1], data[2], d) == data by {
      DelayOfBytes(data[3], data[4]);
    }
    assert BreatheOf(data) == Breathe(Colors[data[1] - 1], data[2] as int, d);
    LayoutBreatheNumber(data[1], data[2], d);
  }

  /** The breathe layout of the n-th colour carries n. */
  lemma LayoutBreatheNumber(n: byte, i: byte, d: int)
    requires 1 <= n <= 7 && 0 <= d < 65536
    ensures Layout(Breathe(Colors[n - 1], i as int, d)) == BreatheBytes(n, i, d)
  {
    ColorNumberOfName(n);
  }

  /** The oneshot state a 3-byte payload with colour byte 1..7 stands for. */
  function OneshotOf(data: seq<byte>): (s: LedState)
    requires |data| == 3 && 1 <= data[1] <= 7
    ensures s.Oneshot? && Writable(s)
  {
    Oneshot(Colors[data[1] - 1], data[2] as int)
  }

  lemma DecodedOneshotLayout(data: seq<byte>)
    requires |data| == 3 && data[0] == 3 && 1 <= data[1] <= 7
    ensures Decode(data) == Ok(Some(OneshotOf(data)))
    ensures Layout(OneshotOf(data)) == data
  {
    DecodeOneshotBytes(data);
    ColorNumberOfName(data[1]);
  }

  /** Such a payload is also what the encoder sends for the decoded dictionary. */
  lemma BytesRoundTrip(data: seq<byte>)
    requires |data| > 0 && data[0] <= 3 && |data| == PrefixLength(data[0])
    requires data[0] >= 2 ==> 1 <= data[1] <= 7
    ensures Decode(data).Ok? && Decode(data).value.Some?
    ensures Encode(AsDict(Decode(data).value.value)) == Ok(data)
  {
    DecodedLayout(data);
    EncodeLayout(Decode(data).value.value);
  }

  /** The table has no duplicates, so index and name determine each other. */
  lemma ColorNumberOfName(n: int)
    requires 1 <= n <= |Colors|
    ensures ColorNumber(Colors[n - 1]) == n
  {
    ColorsDistinct();
  }

  /** No colour name is listed twice: their initials already differ. */
  lemma ColorsDistinct()
    ensures forall a, b :: 0 <= a < |Colors| && 0 <= b < |Colors| && Colors[a] == Colors[b] ==> a == b
  {
    var initials := "rgybpcw";
    assert forall a :: 0 <= a < |Colors| ==> Colors[a][0] == initials[a];
  }

  /** A colour name and its 1-based index encode to the same bytes. */
  lemma NameAndNumberAgree(x: LedDict, name: string)
    requires "color" in x && x["color"] == Str(name) && name in Colors
    ensures Encode(x) == Encode(x["color" := Int(ColorNumber(name))])
  {
    var y := x["color" := Int(ColorNumber(name))];
    ColorArgumentOfName(name);
    if "mode" in x {
      Dispatch(x);
      Dispatch(y);
      if x["mode"] == Str("constant") {
        ConstantIgnoresColor(x, y);
      } else if x["mode"] == Str("breathe") {
        BreatheSameArguments(x, y);
      } else if x["mode"] == Str("oneshot") {
        OneshotSameArguments(x, y);
      }
    }
  }

  /** The 'constant' branch never looks at the colour. */
  lemma ConstantIgnoresColor(x: LedDict, y: LedDict)
    requires "color" in y && y == x["color" := y["color"]]
    ensures EncodeConstant(x) == EncodeConstant(y)
  {
    assert Lookup(x, "r") == Lookup(y, "r");
    assert Lookup(x, "g") == Lookup(y, "g");
    assert Lookup(x, "b") == Lookup(y, "b");
  }

  /** Two dictionaries that differ only in how the colour is spelled encode alike in 'breathe' mode. */
  lemma BreatheSameArguments(x: LedDict, y: LedDict)
    requires "color" in x && "color" in y && y == x["color" := y["color"]]
    requires ColorArgument(x["color"]) == ColorArgument(y["color"])
    ensures EncodeBreathe(x) == EncodeBreathe(y)
  {
    assert Lookup(x, "color") == Ok(x["color"]) && Lookup(y, "color") == Ok(y["color"]);
    assert Lookup(x, "intensity") == Lookup(y, "intensity");
    assert Lookup(x, "delay") == Lookup(y, "delay");
  }

  /** The same for 'oneshot' mode. */
  lemma OneshotSameArguments(x: LedDict, y: LedDict)
    requires "color" in x && "color" in y && y == x["color" := y["color"]]
    requires ColorArgument(x["color"]) == ColorArgument(y["color"])
    ensures EncodeOneshot(x) == EncodeOneshot(y)
  {
    assert Lookup(x, "color") == Ok(x["color"]) && Lookup(y, "color") == Ok(y["color"]);
    assert Lookup(x, "intensity") == Lookup(y, "intensity");
  }


  /** The decoder reads only its mode's prefix: appended bytes change nothing. */
  lemma DecodeIgnoresTrailing(data: seq<byte>, extra: seq<byte>)
    requires |data| > 0 && (data[0] > 3 || |data| >= PrefixLength(data[0]))
    ensures Decode(data + extra) == Decode(data)
  {
    var d := data + extra;
    assert d[0] == data[0];
    if data[0] <= 3 {
      var n := PrefixLength(data[0]);
      assert Prefix(d, n) == Prefix(data, n);
    }
  }

  /** Colour byte 0 is not rejected: index -1 is the last entry of the table. */
  lemma ColorByteZeroIsWhite(i: byte, lo: byte, hi: byte)
    ensures Decode([2, 0, i, lo, hi]) == Ok(Some(Breathe("white", i as int, lo as int + 256 * hi as int)))
    ensures Decode([3, 0, i]) == Ok(Some(Oneshot("white", i as int)))
  {
    var breathe: seq<byte> := [2, 0, i, lo, hi];
    var oneshot: seq<byte> := [3, 0, i];
    assert (0 - 1) % 7 == 6 && Colors[6] == "white";
    DecodeBreatheBytes(breathe);
    assert breathe[1] == 0 && breathe[2] == i && breathe[3] == lo && breathe[4] == hi;
    DecodeOneshotBytes(oneshot);
    assert oneshot[1] == 0 && oneshot[2] == i;
  }

  /** An integer colour is packed without a table check, so the device can be sent an index the decoder rejects. */
  lemma UncheckedColorNumber()
    ensures Encode(map["mode" := Str("oneshot"), "color" := Int(9), "intensity" := Int(100)]) == Ok([3, 9, 100])
    ensures Decode([3, 9, 100]) == Err(IndexError)
  {
    var x := map["mode" := Str("oneshot"), "color" := Int(9), "intensity" := Int(100)];
    Dispatch(x);
    assert EncodeOneshot(x) == PackValues(OneshotFormat, [Int(3), Int(9), Int(100)]);
    IntsOfInts3(3, 9, 100);
    PackOneshot(9, 100);
  }

  /** `{mode: breathe, color: blue, intensity: 80, delay: 500}` is sent as [2, 4, 80, 0xF4, 0x01]. */
  lemma BreatheBlueExample(c: string, i: int, d: int)
    requires c == "blue" && i == 80 && d == 500
    ensures AsDict(Breathe(c, i, d)) ==
      map["mode" := Str("breathe"), "color" := Str("blue"), "intensity" := Int(80), "delay" := Int(500)]
    ensures Encode(AsDict(Breathe(c, i, d))) == Ok([2, 4, 80, 0xF4, 0x01])
  {
    assert ColorNumber(c) == 4 by {
      ColorNumberOfName(4);
    }
    EncodeBreatheLayout(c, i, d);
    assert Layout(Breathe(c, i, d)) == BreatheBytes(4, 80, 500);
    BlueBreatheBytes();
  }

  /** ... and those bytes decode back to the blue breathe state. */
  lemma BreatheBlueDecodes(data: seq<byte>)
    requires data == [2, 4, 80, 0xF4, 0x01]
    ensures Decode(data) == Ok(Some(Breathe("blue", 80, 500)))
  {
    BlueBreatheBytes();
    DecodeBreatheNumber(4, 80, 500);
  }

  /** `{mode: constant, r: 255, g: 0, b: 128}` is sent as [1, 255, 0, 128], which decodes to the same state. */
  lemma ConstantExample(r: int, g: int, b: int)
    requires r == 255 && g == 0 && b == 128
    ensures Encode(AsDict(Constant(r, g, b))) == Ok([1, 255, 0, 128])
    ensures Decode([1, 255, 0, 128]) == Ok(Some(Constant(r, g, b)))
  {
    EncodeConstantLayout(r, g, b);
    DecodeLayout(Constant(r, g, b));
    assert Layout(Constant(r, g, b)) == [1, 255, 0, 128];
  }

  lemma BlueBreatheBytes()
    ensures BreatheBytes(4, 80, 500) == [2, 4, 80, 0xF4, 0x01]
  {
  }
}
