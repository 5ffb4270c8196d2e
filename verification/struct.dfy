/**
 * Python's `struct` module, restricted to the format characters the Thingy:52
 * codecs use: B/b (1 byte), H/h (2 bytes) and I/i (4 bytes), unsigned and
 * signed, little-endian. A format is a sequence of fields; `Unpack` succeeds
 * only on a buffer of exactly the format's size and `Pack` only when every
 * value fits its field.
 */
module Struct {
  import opened Wrappers
  import opened Py

  /** An element of a Python `bytes` object. */
  type byte = x: int | 0 <= x < 256

  /** One struct format character. */
  datatype Field = UByte | SByte | UShort | SShort | UInt | SInt

  function Width(f: Field): nat
  {
    match f
    case UByte | SByte => 1
    case UShort | SShort => 2
    case UInt | SInt => 4
  }

  predicate Signed(f: Field)
  {
    f.SByte? || f.SShort? || f.SInt?
  }
  /** 256 to the power n. */
  function Pow256(n: nat): (p: nat)
    ensures p >= 1
  {
    if n == 0 then 1 else 256 * Pow256(n - 1)
  }

  /** The number of distinct values of a field: 256 to the power of its width. */
  function Span(f: Field): (m: nat)
    ensures m == Pow256(Width(f))
  {
    assert Pow256(1) == 256 && Pow256(2) == 65536 && Pow256(4) == 4294967296;
    match f
    case UByte | SByte => 256
    case UShort | SShort => 65536
    case UInt | SInt => 4294967296
  }

  /** The least value a field holds. */
  function Least(f: Field): int
  {
    match f
    case UByte | UShort | UInt => 0
    case SByte => -128
    case SShort => -32768
    case SInt => -2147483648
  }

  /** The range struct.pack accepts for a field (and struct.unpack produces). */
  predicate Fits(f: Field, v: int)
  {
    Least(f) <= v < Least(f) + Span(f)
  }

  /** Total size in bytes of a format. */
  function Size(fmt: seq<Field>): nat
  {
    if fmt == [] then 0 else Width(fmt[0]) + Size(fmt[1..])
  }

  /** The unsigned value of a little-endian byte string. */
  function LittleEndian(s: seq<byte>): (v: nat)
    ensures v < Pow256(|s|)
  {
    if s == [] then 0 else s[0] + 256 * LittleEndian(s[1..])
  }

  /** The n-byte little-endian representation of u. */
  function ToLittleEndian(u: nat, n: nat): (s: seq<byte>)
    requires u < Pow256(n)
    ensures |s| == n
  {
    if n == 0 then [] else [u % 256] + ToLittleEndian(u / 256, n - 1)
  }

  lemma {:induction false} LittleEndianOfTo(u: nat, n: nat)
    requires u < Pow256(n)
    ensures LittleEndian(ToLittleEndian(u, n)) == u
  {
    if n > 0 {
      var s := ToLittleEndian(u, n);
      assert s[1..] == ToLittleEndian(u / 256, n - 1);
      LittleEndianOfTo(u / 256, n - 1);
    }
  }

  lemma {:induction false} ToLittleEndianOf(s: seq<byte>)
    ensures ToLittleEndian(LittleEndian(s), |s|) == s
  {
    if s != [] {
      var u := LittleEndian(s);
      assert u % 256 == s[0] && u / 256 == LittleEndian(s[1..]);
      ToLittleEndianOf(s[1..]);
    }
  }

  /** Decodes one field from exactly Width(f) bytes (two's complement when signed). */
  function ReadField(f: Field, s: seq<byte>): (v: int)
    requires |s| == Width(f)
    ensures Fits(f, v)
  {
    var u := LittleEndian(s);
    if u >= Least(f) + Span(f) then u - Span(f) else u
  }

  /** Encodes one field as Width(f) little-endian bytes. */
  function WriteField(f: Field, v: int): (s: seq<byte>)
    requires Fits(f, v)
    ensures |s| == Width(f)
  {
    ToLittleEndian(if v < 0 then v + Span(f) else v, Width(f))
  }

  lemma ReadWriteField(f: Field, v: int)
    requires Fits(f, v)
    ensures ReadField(f, WriteField(f, v)) == v
  {
    LittleEndianOfTo(if v < 0 then v + Span(f) else v, Width(f));
  }
  lemma WriteReadField(f: Field, s: seq<byte>)
    requires |s| == Width(f)
    ensures WriteField(f, ReadField(f, s)) == s
  {
    ToLittleEndianOf(s);
  }

  /** Every value fits its field. */
  predicate AllFit(fmt: seq<Field>, vs: seq<int>)
  {
    |vs| == |fmt| && forall i :: 0 <= i < |fmt| ==> Fits(fmt[i], vs[i])
  }

  lemma AllFitTail(fmt: seq<Field>, vs: seq<int>)
    requires AllFit(fmt, vs) && |fmt| > 0
    ensures AllFit(fmt[1..], vs[1..])
  {
    forall i | 0 <= i < |fmt[1..]| ensures Fits(fmt[1..][i], vs[1..][i]) {
      assert Fits(fmt[i + 1], vs[i + 1]);
    }
  }

  /** The byte offset of the i-th field of a format. */
  function Offset(fmt: seq<Field>, i: nat): nat
    requires i <= |fmt|
  {
    if i == 0 then 0 else Offset(fmt, i - 1) + Width(fmt[i - 1])
  }

  lemma {:induction false} OffsetSize(fmt: seq<Field>, i: nat)
    requires i <= |fmt|
    ensures Offset(fmt, i) + Size(fmt[i..]) == Size(fmt)
  {
    if i > 0 {
      OffsetSize(fmt, i - 1);
      assert fmt[i - 1..][1..] == fmt[i..];
    }
  }

  /** Every field lies inside the format's size. */
  lemma OffsetBound(fmt: seq<Field>, i: nat)
    requires i < |fmt|
    ensures Offset(fmt, i) + Width(fmt[i]) <= Size(fmt)
  {
    OffsetSize(fmt, i);
    assert fmt[i..][0] == fmt[i];
  }

  /** Offsets in a format are the first field's width plus offsets in the rest. */
  lemma {:induction false} OffsetShift(fmt: seq<Field>, i: nat)
    requires 0 < i <= |fmt|
    ensures Offset(fmt, i) == Width(fmt[0]) + Offset(fmt[1..], i - 1)
  {
    if i > 1 {
      OffsetShift(fmt, i - 1);
    }
  }

  lemma SliceOfSuffix<T>(s: seq<T>, k: nat, lo: nat, hi: nat)
    requires k <= |s| && lo <= hi <= |s| - k
    ensures s[k..][lo..hi] == s[k + lo..k + hi]
  {
  }

  /** The bytes the i-th field of a format occupies in a buffer. */
  function Chunk(fmt: seq<Field>, data: seq<byte>, i: nat): (c: seq<byte>)
    requires |data| == Size(fmt) && i < |fmt|
    ensures |c| == Width(fmt[i])
  {
    OffsetBound(fmt, i);
    data[Offset(fmt, i)..Offset(fmt, i) + Width(fmt[i])]
  }

  /** Field i + 1 of a format is field i of its tail, read from the bytes after the first field. */
  lemma ChunkShift(fmt: seq<Field>, data: seq<byte>, i: nat)
    requires |data| == Size(fmt) && 0 < i < |fmt|
    ensures Width(fmt[0]) <= |data| && |data[Width(fmt[0])..]| == Size(fmt[1..])
    ensures Chunk(fmt, data, i) == Chunk(fmt[1..], data[Width(fmt[0])..], i - 1)
  {
    var w := Width(fmt[0]);
    var o := Offset(fmt[1..], i - 1);
    OffsetShift(fmt, i);
    assert fmt[1..][i - 1] == fmt[i];
    OffsetBound(fmt[1..], i - 1);
    SliceOfSuffix(data, w, o, o + Width(fmt[i]));
  }

  /** Two buffers that agree on every field are equal. */
  lemma {:induction false} ChunksDetermine(fmt: seq<Field>, a: seq<byte>, b: seq<byte>)
    requires |a| == Size(fmt) && |b| == Size(fmt)
    requires forall i :: 0 <= i < |fmt| ==> Chunk(fmt, a, i) == Chunk(fmt, b, i)
    ensures a == b
  {
    if fmt != [] {
      var w := Width(fmt[0]);
      assert a[..w] == Chunk(fmt, a, 0) == Chunk(fmt, b, 0) == b[..w];
      forall i | 0 <= i < |fmt[1..]| ensures Chunk(fmt[1..], a[w..], i) == Chunk(fmt[1..], b[w..], i) {
        ChunkShift(fmt, a, i + 1);
        ChunkShift(fmt, b, i + 1);
      }
      ChunksDetermine(fmt[1..], a[w..], b[w..]);
      assert a == a[..w] + a[w..];
      assert b == b[..w] + b[w..];
    }
  }

  /** Reads every field of a format from its own bytes. */
  function UnpackFields(fmt: seq<Field>, data: seq<byte>): (vs: seq<int>)
    requires |data| == Size(fmt)
    ensures AllFit(fmt, vs)
  {
    seq(|fmt|, i requires 0 <= i < |fmt| => ReadField(fmt[i], Chunk(fmt, data, i)))
  }

  /** Writes the fields one after the other. */
  function PackFields(fmt: seq<Field>, vs: seq<int>): (data: seq<byte>)
    requires AllFit(fmt, vs)
    ensures |data| == Size(fmt)
  {
    if fmt == [] then []
    else
      AllFitTail(fmt, vs);
      WriteField(fmt[0], vs[0]) + PackFields(fmt[1..], vs[1..])
  }

  /** A leading unsigned-byte field is packed as the first byte. */
  lemma PackFirstByte(fmt: seq<Field>, vs: seq<int>)
    requires AllFit(fmt, vs) && |fmt| > 0 && fmt[0] == UByte
    ensures PackFields(fmt, vs)[0] == vs[0]
  {
    LittleEndianOfTo(vs[0], 1);
  }

  /** `struct.unpack(fmt, data)`: struct.error unless the buffer has exactly the format's size. */
  function Unpack(fmt: seq<Field>, data: seq<byte>): (r: Result<seq<int>, Error>)
    ensures r.Ok? <==> |data| == Size(fmt)
    ensures r.Err? ==> r.error == StructError
    ensures r.Ok? ==> AllFit(fmt, r.value)
  {
    if |data| == Size(fmt) then Ok(UnpackFields(fmt, data)) else Err(StructError)
  }

  /** `struct.pack(fmt, *vs)`: struct.error on a wrong count or an out-of-range value. */
  function Pack(fmt: seq<Field>, vs: seq<int>): (r: Result<seq<byte>, Error>)
    ensures r.Ok? <==> AllFit(fmt, vs)
    ensures r.Err? ==> r.error == StructError
    ensures r.Ok? ==> |r.value| == Size(fmt)
  {
    if AllFit(fmt, vs) then Ok(PackFields(fmt, vs)) else Err(StructError)
  }

  /** The i-th field of a packed buffer is the i-th value written out. */
  lemma {:induction false} PackChunk(fmt: seq<Field>, vs: seq<int>, i: nat)
    requires AllFit(fmt, vs) && i < |fmt|
    ensures Chunk(fmt, PackFields(fmt, vs), i) == WriteField(fmt[i], vs[i])
  {
    var data := PackFields(fmt, vs);
    var w := Width(fmt[0]);
    AllFitTail(fmt, vs);
    var rest := PackFields(fmt[1..], vs[1..]);
    assert data == WriteField(fmt[0], vs[0]) + rest;
    if i == 0 {
      assert Chunk(fmt, data, 0) == data[..w];
    } else {
      ChunkShift(fmt, data, i);
      assert data[w..] == rest;
      PackChunk(fmt[1..], vs[1..], i - 1);
      assert fmt[1..][i - 1] == fmt[i] && vs[1..][i - 1] == vs[i];
    }
  }

  /** Unpacking what was packed gives back the values. */
  lemma UnpackPack(fmt: seq<Field>, vs: seq<int>)
    requires AllFit(fmt, vs)
    ensures Unpack(fmt, PackFields(fmt, vs)) == Ok(vs)
  {
    UnpackFieldsOfPack(fmt, vs);
  }

  lemma UnpackFieldsOfPack(fmt: seq<Field>, vs: seq<int>)
    requires AllFit(fmt, vs)
    ensures UnpackFields(fmt, PackFields(fmt, vs)) == vs
  {
    var data := PackFields(fmt, vs);
    forall i | 0 <= i < |fmt| ensures UnpackFields(fmt, data)[i] == vs[i] {
      PackChunk(fmt, vs, i);
      ReadWriteField(fmt[i], vs[i]);
    }
  }

  /** Packing what was unpacked gives back the bytes. */
  lemma PackUnpack(fmt: seq<Field>, data: seq<byte>)
    requires |data| == Size(fmt)
    ensures Pack(fmt, UnpackFields(fmt, data)) == Ok(data)
  {
    PackFieldsOfUnpack(fmt, data);
  }

  lemma PackFieldsOfUnpack(fmt: seq<Field>, data: seq<byte>)
    requires |data| == Size(fmt)
    ensures PackFields(fmt, UnpackFields(fmt, data)) == data
  {
    var vs := UnpackFields(fmt, data);
    var packed := PackFields(fmt, vs);
    forall i | 0 <= i < |fmt| ensures Chunk(fmt, packed, i) == Chunk(fmt, data, i) {
      PackChunk(fmt, vs, i);
      WriteReadField(fmt[i], Chunk(fmt, data, i));
    }
    ChunksDetermine(fmt, packed, data);
  }

  /** The i-th unpacked value is read from the i-th field's own bytes. */
  lemma UnpackAt(fmt: seq<Field>, data: seq<byte>, i: nat)
    requires |data| == Size(fmt) && i < |fmt|
    ensures Offset(fmt, i) + Width(fmt[i]) <= |data|
    ensures UnpackFields(fmt, data)[i] == ReadField(fmt[i], data[Offset(fmt, i)..Offset(fmt, i) + Width(fmt[i])])
  {
    OffsetBound(fmt, i);
    assert Chunk(fmt, data, i) == data[Offset(fmt, i)..Offset(fmt, i) + Width(fmt[i])];
    assert UnpackFields(fmt, data)[i] == ReadField(fmt[i], Chunk(fmt, data, i));
  }

  /** An unsigned byte field is the byte at its offset. */
  lemma ByteFieldAt(fmt: seq<Field>, data: seq<byte>, i: nat)
    requires |data| == Size(fmt) && i < |fmt| && fmt[i] == UByte
    ensures Offset(fmt, i) < |data|
    ensures UnpackFields(fmt, data)[i] == data[Offset(fmt, i)] as int
  {
    UnpackAt(fmt, data, i);
    ReadFieldValue(UByte, data[Offset(fmt, i)..Offset(fmt, i) + 1]);
  }

  /** In a format of one repeated field f, field i occupies bytes Width(f) * i up to Width(f) * (i + 1). */
  lemma {:induction false} UniformOffset(fmt: seq<Field>, f: Field, i: nat)
    requires i <= |fmt| && forall j :: 0 <= j < |fmt| ==> fmt[j] == f
    ensures Offset(fmt, i) == Width(f) * i
  {
    if i > 0 {
      UniformOffset(fmt, f, i - 1);
    }
  }

  /** n copies of one field, as a count before a format character writes them. */
  function Repeat(f: Field, n: nat): (fmt: seq<Field>)
    ensures |fmt| == n && forall j :: 0 <= j < n ==> fmt[j] == f
  {
    if n == 0 then [] else [f] + Repeat(f, n - 1)
  }

  /** A format of n copies of one field f is n times as wide as f. */
  lemma UniformSize(fmt: seq<Field>, f: Field)
    requires forall j :: 0 <= j < |fmt| ==> fmt[j] == f
    ensures Size(fmt) == Width(f) * |fmt|
  {
    UniformOffset(fmt, f, |fmt|);
    OffsetSize(fmt, |fmt|);
    assert fmt[|fmt|..] == [];
  }

  /** Little-endian byte strings of the three widths, written out. */
  lemma LittleEndianBytes(s: seq<byte>)
    ensures |s| == 1 ==> LittleEndian(s) == s[0] as int
    ensures |s| == 2 ==> LittleEndian(s) == s[0] as int + 256 * s[1] as int
    ensures |s| == 4 ==>
      (LittleEndian(s) == s[0] as int + 256 * s[1] as int + 65536 * s[2] as int + 16777216 * s[3] as int)
  {
    if |s| == 1 {
      assert s[1..] == [];
    } else if |s| == 2 {
      assert s[1..][1..] == [];
    } else if |s| == 4 {
      assert s[1..][1..][1..][1..] == [];
    }
  }

  /** Two's complement reading of a field: unsigned value minus 256^w when the top bit is set. */
  lemma ReadFieldValue(f: Field, s: seq<byte>)
    requires |s| == Width(f)
    ensures Width(f) == 1 ==>
      (ReadField(f, s) == var u := s[0] as int; if Signed(f) && u >= 128 then u - 256 else u)
    ensures Width(f) == 2 ==>
      (ReadField(f, s) == var u := s[0] as int + 256 * s[1] as int; if Signed(f) && u >= 32768 then u - 65536 else u)
    ensures Width(f) == 4 ==>
      (ReadField(f, s) ==
        var u := s[0] as int + 256 * s[1] as int + 65536 * s[2] as int + 16777216 * s[3] as int;
        if Signed(f) && u >= 2147483648 then u - 4294967296 else u)
  {
    LittleEndianBytes(s);
  }
}
