/** What a tag means: which bytes (or bit) of a process image it names, and the number they stand for.
    `ReadTag` and `WriteTag` specify the getters and setters of the ProcessImage class; this module
    proves that together they behave like a variable of the tag's type. */
module Tags {
  import opened Bytes
  import opened RealMath

  datatype Error = OutOfRange | InvalidArgument

  datatype Result<T> = Ok(value: T) | Err(error: Error)

  datatype ByteOrder = BigEndian | LittleEndian | BigEndianSwap | LittleEndianSwap

  datatype DataType = Bit | U8 | I8 | U16 | I16 | U32 | I32 | Raw

  datatype Tag = Tag(kind: DataType, offset: nat, bit: nat, rawLength: nat, order: ByteOrder, scale: real, bias: real)

  function Size(t: Tag): nat {
    match t.kind
    case Bit => 1
    case U8 => 1
    case I8 => 1
    case U16 => 2
    case I16 => 2
    case U32 => 4
    case I32 => 4
    case Raw => t.rawLength
  }

  predicate Signed(kind: DataType) { kind == I8 || kind == I16 || kind == I32 }

  predicate Numeric(kind: DataType) { kind != Bit && kind != Raw }

  function Full(kind: DataType): nat {
    match kind
    case Bit => 2
    case U8 => 0x100
    case I8 => 0x100
    case U16 => 0x1_0000
    case I16 => 0x1_0000
    case U32 => 0x1_0000_0000
    case I32 => 0x1_0000_0000
    case Raw => 1
  }

  function Lowest(kind: DataType): int { if Signed(kind) then -(Full(kind) / 2) else 0 }

  function Highest(kind: DataType): int { Lowest(kind) + Full(kind) - 1 }

  // ---------------------------------------------------------------- byte orders

  /** Where byte i of an n-byte value is taken from. */
  function Source(i: nat, n: nat, o: ByteOrder): (j: nat)
    requires i < n && n % 2 == 0
    ensures j < n
  {
    match o
    case BigEndian => i
    case LittleEndian => n - 1 - i
    case BigEndianSwap => 2 * (n / 2 - 1 - i / 2) + i % 2
    case LittleEndianSwap => if i % 2 == 0 then i + 1 else i - 1
  }

  function Reordered(s: seq<Byte>, o: ByteOrder): (r: seq<Byte>)
    requires |s| % 2 == 0
    ensures |r| == |s|
  {
    seq(|s|, i requires 0 <= i < |s| => s[Source(i, |s|, o)])
  }

  /** Reordering twice gives back the bytes: reading and writing can share one permutation. */
  lemma ReorderTwice(s: seq<Byte>, o: ByteOrder)
    requires |s| % 2 == 0
    ensures Reordered(Reordered(s, o), o) == s
  {
    forall i: nat | i < |s| ensures Source(Source(i, |s|, o), |s|, o) == i {
      SourceTwice(i, |s|, o);
    }
  }

  lemma SourceTwice(i: nat, n: nat, o: ByteOrder)
    requires i < n && n % 2 == 0
    ensures Source(Source(i, n, o), n, o) == i
  {
    var r, b := i / 2, i % 2;
    assert (2 * (n / 2 - 1 - r) + b) / 2 == n / 2 - 1 - r;
  }

  /** The bytes A B C D of a four-byte value in the four orders, and A B of a two-byte one. */
  lemma ByteOrders(a: Byte, b: Byte, c: Byte, d: Byte)
    ensures Reordered([a, b, c, d], BigEndian) == [a, b, c, d] && Reordered([a, b], BigEndian) == [a, b]
    ensures Reordered([a, b, c, d], LittleEndian) == [d, c, b, a] && Reordered([a, b], LittleEndian) == [b, a]
    ensures Reordered([a, b, c, d], BigEndianSwap) == [c, d, a, b] && Reordered([a, b], BigEndianSwap) == [a, b]
    ensures Reordered([a, b, c, d], LittleEndianSwap) == [b, a, d, c] && Reordered([a, b], LittleEndianSwap) == [b, a]
  {}

  /** One-byte values have no order. */
  function Arranged(s: seq<Byte>, o: ByteOrder): (r: seq<Byte>)
    requires |s| == 1 || |s| % 2 == 0
    ensures |r| == |s|
  {
    if |s| == 1 then s else Reordered(s, o)
  }

  lemma ArrangeTwice(s: seq<Byte>, o: ByteOrder)
    requires |s| == 1 || |s| % 2 == 0
    ensures Arranged(Arranged(s, o), o) == s
  {
    if |s| != 1 {
      ReorderTwice(s, o);
    }
  }

  // ---------------------------------------------------------------- bits of a byte

  function Pow2(n: nat): nat {
    if n == 0 then 1 else 2 * Pow2(n - 1)
  }

  predicate BitOf(x: nat, b: nat) {
    if b == 0 then x % 2 == 1 else BitOf(x / 2, b - 1)
  }

  lemma {:induction false} BitIsDigit(x: nat, b: nat)
    ensures Pow2(b) > 0 && (BitOf(x, b) <==> x / Pow2(b) % 2 == 1)
  {
    if b > 0 {
      BitIsDigit(x / 2, b - 1);
      Halved(x, Pow2(b - 1));
    }
  }

  lemma Halved(x: nat, p: nat)
    requires 0 < p
    ensures x / 2 / p == x / (2 * p)
  {
    var q, r := x / 2 / p, x / 2 % p;
    assert x == (2 * p) * q + (2 * r + x % 2) by {
      assert x / 2 == p * q + r;
    }
    UniqueRemainder(x, 2 * p, q, 2 * r + x % 2);
  }

  function SetBit(x: nat, b: nat, v: bool): nat {
    if b == 0 then 2 * (x / 2) + (if v then 1 else 0) else 2 * SetBit(x / 2, b - 1, v) + x % 2
  }

  lemma {:induction false} SetBitBound(x: nat, b: nat, v: bool, n: nat)
    requires b < n && x < Pow2(n)
    ensures SetBit(x, b, v) < Pow2(n)
  {
    if b > 0 {
      SetBitBound(x / 2, b - 1, v, n - 1);
    }
  }

  lemma {:induction false} SetBitBits(x: nat, b: nat, v: bool, c: nat)
    ensures BitOf(SetBit(x, b, v), c) == if c == b then v else BitOf(x, c)
  {
    assert SetBit(x, b, v) / 2 == if b == 0 then x / 2 else SetBit(x / 2, b - 1, v);
    if b > 0 && c > 0 {
      SetBitBits(x / 2, b - 1, v, c - 1);
    }
  }

  lemma {:induction false} SetSameBit(x: nat, b: nat)
    ensures SetBit(x, b, BitOf(x, b)) == x
  {
    if b > 0 {
      SetSameBit(x / 2, b - 1);
    }
  }

  function WithBit(x: Byte, b: nat, v: bool): (y: Byte)
    requires b < 8
  {
    assert Pow2(8) == 2 * (2 * Pow2(6)) && Pow2(6) == 2 * (2 * Pow2(4)) && Pow2(4) == 2 * (2 * Pow2(2));
    SetBitBound(x, b, v, 8);
    SetBit(x, b, v)
  }

  // ---------------------------------------------------------------- reading and writing a tag

  function Residue(kind: DataType, raw: int): (u: nat)
    ensures Numeric(kind) ==> u < Full(kind)
  {
    match kind
    case Bit => raw % 2
    case U8 => raw % 0x100
    case I8 => raw % 0x100
    case U16 => raw % 0x1_0000
    case I16 => raw % 0x1_0000
    case U32 => raw % 0x1_0000_0000
    case I32 => raw % 0x1_0000_0000
    case Raw => 0
  }

  /** An unsigned field value as the tag's type reads it. */
  function Reading(kind: DataType, u: nat): int {
    if Signed(kind) && u > Highest(kind) then u - Full(kind) else u
  }

  /** The value of the tag's type that is congruent to `raw`: what the narrowing casts keep. */
  function Wrapped(kind: DataType, raw: int): int {
    if kind == Bit then (if raw == 0 then 0 else 1) else Reading(kind, Residue(kind, raw))
  }

  lemma WrappedMeaning(kind: DataType, raw: int)
    requires Numeric(kind)
    ensures Lowest(kind) <= Wrapped(kind, raw) <= Highest(kind)
    ensures Residue(kind, Wrapped(kind, raw)) == Residue(kind, raw)
    ensures Lowest(kind) <= raw <= Highest(kind) ==> Wrapped(kind, raw) == raw
  {
    SameResidue(kind, Residue(kind, raw));
    if Lowest(kind) <= raw <= Highest(kind) {
      SmallResidue(kind, raw);
    }
    hide Residue;
    match kind
    case U8 => case I8 => case U16 => case I16 => case U32 => case I32 =>
  }

  lemma SmallResidue(kind: DataType, raw: int)
    requires Numeric(kind) && Lowest(kind) <= raw <= Highest(kind)
    ensures Residue(kind, raw) == if raw < 0 then raw + Full(kind) else raw
  {
    match kind
    case U8 => case I8 => case U16 => case I16 => case U32 => case I32 =>
  }

  /** The bytes and bit numbers that check() lets through. */
  predicate Fits(size: nat, t: Tag) {
    t.offset + Size(t) <= size && (t.kind == Bit ==> t.bit < 8)
  }

  function Field(image: seq<Byte>, t: Tag): (bytes: seq<Byte>)
    requires Fits(|image|, t) && Numeric(t.kind)
    ensures |bytes| == Size(t)
  {
    image[t.offset..t.offset + Size(t)]
  }

  function ReadTag(image: seq<Byte>, t: Tag): Result<int> {
    if t.kind == Raw then Err(InvalidArgument)
    else if !Fits(|image|, t) then Err(OutOfRange)
    else if t.kind == Bit then Ok(if BitOf(image[t.offset], t.bit) then 1 else 0)
    else Ok(Reading(t.kind, FromBigEndian(Arranged(Field(image, t), t.order))))
  }

  function Encoded(t: Tag, raw: int): (bytes: seq<Byte>)
    requires Numeric(t.kind)
    ensures |bytes| == Size(t)
  {
    Arranged(ToBigEndian(Residue(t.kind, raw), Size(t)), t.order)
  }

  function WriteTag(image: seq<Byte>, t: Tag, raw: int): (r: Result<seq<Byte>>)
    ensures r.Ok? ==> |r.value| == |image|
  {
    if t.kind == Raw then Err(InvalidArgument)
    else if !Fits(|image|, t) then Err(OutOfRange)
    else if t.kind == Bit then Ok(image[t.offset := WithBit(image[t.offset], t.bit, raw != 0)])
    else Ok(Overlay(image, t.offset, Encoded(t, raw)))
  }

  lemma FullWidth(t: Tag)
    requires Numeric(t.kind)
    ensures Full(t.kind) == Pow256(Size(t))
  {
    assert Pow256(4) == 256 * Pow256(3) == 256 * (256 * Pow256(2));
  }

  lemma EncodedDecodes(t: Tag, raw: int)
    requires Numeric(t.kind)
    ensures FromBigEndian(Arranged(Encoded(t, raw), t.order)) == Residue(t.kind, raw)
  {
    hide Arranged, Residue, ToBigEndian, FromBigEndian;
    var u := Residue(t.kind, raw);
    ArrangeTwice(ToBigEndian(u, Size(t)), t.order);
    FullWidth(t);
    EncodeDecode(u, Size(t));
    SmallRemainder(u, Full(t.kind));
  }

  lemma SmallRemainder(u: nat, d: nat)
    requires u < d
    ensures u % d == u
  {}

  /** Set then get is the identity modulo the type width, for every type, byte order and offset. */
  lemma SetThenGet(image: seq<Byte>, t: Tag, raw: int)
    requires WriteTag(image, t, raw).Ok?
    ensures ReadTag(WriteTag(image, t, raw).value, t) == Ok(Wrapped(t.kind, raw))
  {
    hide Encoded, Arranged, Residue, Reading, FromBigEndian, BitOf;
    if t.kind == Bit {
      SetBitBits(image[t.offset], t.bit, raw != 0, t.bit);
    } else {
      assert Field(WriteTag(image, t, raw).value, t) == Encoded(t, raw);
      EncodedDecodes(t, raw);
    }
  }

  /** Get then set changes nothing. */
  lemma GetThenSet(image: seq<Byte>, t: Tag)
    requires ReadTag(image, t).Ok?
    ensures WriteTag(image, t, ReadTag(image, t).value) == Ok(image)
  {
    hide Arranged, Residue, Reading, FromBigEndian, ToBigEndian, BitOf;
    if t.kind == Bit {
      SetSameBit(image[t.offset], t.bit);
      assert image[t.offset := image[t.offset]] == image;
    } else {
      var be := Arranged(Field(image, t), t.order);
      FullWidth(t);
      SameResidue(t.kind, FromBigEndian(be));
      DecodeEncode(be);
      ArrangeTwice(Field(image, t), t.order);
      assert Overlay(image, t.offset, Field(image, t)) == image;
    }
  }

  lemma SameResidue(kind: DataType, u: nat)
    requires Numeric(kind) && u < Full(kind)
    ensures Residue(kind, Reading(kind, u)) == u
  {
    match kind
    case U8 => case I8 => case U16 => case I16 => case U32 => case I32 =>
  }

  /** The tags share no byte, or name different bits of one byte. */
  predicate Apart(t: Tag, u: Tag) {
    || t.offset + Size(t) <= u.offset
    || u.offset + Size(u) <= t.offset
    || (t.kind == Bit && u.kind == Bit && t.bit != u.bit)
  }

  /** A write changes only the tag's own bytes, or its single bit. */
  lemma OnlyOwnBytes(image: seq<Byte>, t: Tag, raw: int, k: nat, b: nat)
    requires WriteTag(image, t, raw).Ok? && k < |image| && b < 8
    requires k < t.offset || t.offset + Size(t) <= k || (t.kind == Bit && b != t.bit)
    ensures BitOf(WriteTag(image, t, raw).value[k], b) == BitOf(image[k], b)
    ensures k != t.offset || t.kind != Bit ==> WriteTag(image, t, raw).value[k] == image[k]
  {
    if t.kind == Bit && k == t.offset {
      SetBitBits(image[k], t.bit, raw != 0, b);
    }
  }

  /** So every other tag still reads what it read before. */
  lemma OtherTagsKeep(image: seq<Byte>, t: Tag, u: Tag, raw: int)
    requires WriteTag(image, t, raw).Ok? && Apart(t, u)
    ensures ReadTag(WriteTag(image, t, raw).value, u) == ReadTag(image, u)
  {
    var written := WriteTag(image, t, raw).value;
    if u.kind == Raw || !Fits(|image|, u) {
    } else if u.kind == Bit {
      OnlyOwnBytes(image, t, raw, u.offset, u.bit);
    } else {
      forall k | u.offset <= k < u.offset + Size(u) ensures written[k] == image[k] {
        OnlyOwnBytes(image, t, raw, k, 0);
      }
      assert Field(written, u) == Field(image, u);
    }
  }

  lemma FourDigits(a: Byte, b: Byte, c: Byte, d: Byte)
    ensures FromBigEndian([a, b, c, d]) == 0x100_0000 * a + 0x1_0000 * b + 0x100 * c + d
    ensures FromBigEndian([a, b]) == 0x100 * a + b && FromBigEndian([a]) == a
  {
    LastByte([], a);
    LastByte([a], b);
    LastByte([a, b], c);
    LastByte([a, b, c], d);
    assert [] + [a] == [a] && [a] + [b] == [a, b] && [a, b] + [c] == [a, b, c] && [a, b, c] + [d] == [a, b, c, d];
  }

  function TwosComplement(u: nat, full: nat): int { if u < full / 2 then u else u - full }

  /** What four bytes, two or one mean in the drive's own order: the first byte weighs most, and a signed value
      is the two's complement. */
  lemma ByteMeaning(image: seq<Byte>, t: Tag)
    requires t.order == BigEndian && Fits(|image|, t)
    ensures t.kind == U8 ==> ReadTag(image, t) == Ok(image[t.offset])
    ensures t.kind == I8 ==> ReadTag(image, t) == Ok(TwosComplement(image[t.offset], 0x100))
  {
    if t.kind == U8 || t.kind == I8 {
      FourDigits(image[t.offset], 0, 0, 0);
      assert Field(image, t) == [image[t.offset]];
      hide FromBigEndian;
    }
  }

  lemma WordMeaning(image: seq<Byte>, t: Tag)
    requires t.order == BigEndian && Fits(|image|, t) && (t.kind == U16 || t.kind == I16)
    ensures var u: nat := 0x100 * (image[t.offset] as nat) + image[t.offset + 1];
      ReadTag(image, t) == Ok(if t.kind == U16 then u else TwosComplement(u, 0x1_0000))
  {
    var a, b := image[t.offset], image[t.offset + 1];
    FourDigits(a, b, 0, 0);
    assert Field(image, t) == [a, b];
    ByteOrders(a, b, 0, 0);
    hide FromBigEndian, Reordered;
  }

  lemma LongMeaning(image: seq<Byte>, t: Tag)
    requires t.order == BigEndian && Fits(|image|, t) && (t.kind == U32 || t.kind == I32)
    ensures var at := t.offset;
      var u: nat := 0x100_0000 * (image[at] as nat) + 0x1_0000 * (image[at + 1] as nat) + 0x100 * (image[at + 2] as nat)
                    + image[at + 3];
      ReadTag(image, t) == Ok(if t.kind == I32 then TwosComplement(u, 0x1_0000_0000) else u)
  {
    var a, b, c, d := image[t.offset], image[t.offset + 1], image[t.offset + 2], image[t.offset + 3];
    FourDigits(a, b, c, d);
    assert Field(image, t) == [a, b, c, d];
    ByteOrders(a, b, c, d);
    hide FromBigEndian, Reordered;
  }

  /** A tag can be read and written exactly when all its bytes lie in the image, and a raw one never can. */
  lemma InRangeIff(image: seq<Byte>, t: Tag, raw: int)
    ensures ReadTag(image, t).Ok? <==> WriteTag(image, t, raw).Ok?
    ensures t.kind == Bit ==> (ReadTag(image, t).Ok? <==> t.offset < |image| && t.bit < 8)
    ensures t.kind == U8 || t.kind == I8 ==> (ReadTag(image, t).Ok? <==> t.offset < |image|)
    ensures t.kind == U16 || t.kind == I16 ==> (ReadTag(image, t).Ok? <==> t.offset + 1 < |image|)
    ensures t.kind == U32 || t.kind == I32 ==> (ReadTag(image, t).Ok? <==> t.offset + 3 < |image|)
    ensures t.kind == Raw ==> ReadTag(image, t) == Err(InvalidArgument)
    ensures t.kind != Raw && !ReadTag(image, t).Ok? ==> ReadTag(image, t) == Err(OutOfRange)
  {}

  /** A bit tag reads bit `bit` of its byte, counted from the least significant. */
  lemma BitMeaning(image: seq<Byte>, t: Tag)
    requires t.kind == Bit && Fits(|image|, t)
    ensures Pow2(t.bit) > 0 && ReadTag(image, t) == Ok(image[t.offset] / Pow2(t.bit) % 2)
  {
    BitIsDigit(image[t.offset], t.bit);
  }

  /** In an image loaded from registers, a word at an odd offset is the low byte of one register
      joined to the high byte of the next. */
  lemma OddOffsetWord(regs: seq<Word>, t: Tag, r: nat)
    requires t.kind == U16 && t.order == BigEndian && t.offset == 2 * r + 1 && r + 1 < |regs|
    ensures ReadTag(RegisterBytes(regs), t) == Ok(JoinBytes(LowByte(regs[r]), HighByte(regs[r + 1])))
  {
    var image := RegisterBytes(regs);
    var be := Arranged(Field(image, t), t.order);
    assert be[0] == LowByte(regs[r]) && be[1] == HighByte(regs[r + 1]);
    assert FromBigEndian(be[..1]) == 256 * FromBigEndian(be[..1][..0]) + be[0];
    assert FromBigEndian(be) == 256 * FromBigEndian(be[..1]) + be[1];
  }

  // ---------------------------------------------------------------- engineering values

  /** llround: to the nearest integer, halves away from zero. */
  function Rounded(x: real): int {
    if x < 0.0 then -((-x + 0.5).Floor) else (x + 0.5).Floor
  }

  lemma RoundedNear(x: real, lo: int, hi: int)
    ensures Abs(Rounded(x) as real - x) <= 0.5
    ensures lo as real <= x <= hi as real ==> lo <= Rounded(x) <= hi
  {}

  /** Halves go away from zero, on both sides alike. */
  lemma RoundedHalves(n: nat)
    ensures Rounded(n as real + 0.5) == n + 1 && Rounded(-(n as real + 0.5)) == -(n + 1)
  {}

  lemma RoundedExact(n: int)
    ensures Rounded(n as real) == n
  {
    RoundedNear(n as real, n, n);
  }

  function Engineering(t: Tag, raw: int): real { raw as real * t.scale + t.bias }

  function RawValue(t: Tag, value: real): real {
    if t.scale != 0.0 then (value - t.bias) / t.scale else 0.0
  }

  function ReadScaled(image: seq<Byte>, t: Tag): Result<real> {
    match ReadTag(image, t)
    case Ok(raw) => Ok(Engineering(t, raw))
    case Err(e) => Err(e)
  }

  function WriteScaled(image: seq<Byte>, t: Tag, value: real): Result<seq<Byte>> {
    WriteTag(image, t, Rounded(RawValue(t, value)))
  }

  lemma RawOfEngineering(t: Tag, raw: int)
    requires t.scale != 0.0
    ensures Rounded(RawValue(t, Engineering(t, raw))) == raw
  {
    hide Rounded;
    ScaleUnscale(raw as real, t.scale, t.bias, Engineering(t, raw));
    RoundedExact(raw);
  }

  lemma ScaleUnscale(x: real, s: real, b: real, value: real)
    requires s != 0.0 && value == x * s + b
    ensures (value - b) / s == x
  {
    var y := value - b;
    assert y == x * s;
    assert y / s == x;
  }

  /** A reading is linear in the stored integer: the scale times it, plus the bias. */
  lemma ReadsLinear(image: seq<Byte>, t: Tag, raw: int)
    requires Numeric(t.kind) && Lowest(t.kind) <= raw <= Highest(t.kind) && WriteTag(image, t, raw).Ok?
    ensures ReadScaled(WriteTag(image, t, raw).value, t) == Ok(raw as real * t.scale + t.bias)
  {
    hide WriteTag, ReadTag, Wrapped;
    assert Engineering(t, raw) == raw as real * t.scale + t.bias;
    hide Engineering;
    SetThenGet(image, t, raw);
    WrappedMeaning(t.kind, raw);
  }

  /** A tag without a scale is always written as 0. */
  lemma ZeroScaleWritesZero(image: seq<Byte>, t: Tag, value: real)
    requires t.scale == 0.0
    ensures WriteScaled(image, t, value) == WriteTag(image, t, 0)
  {}

  /** And a scaled write stores the integer whose reading that is, to the nearest step. */
  lemma WritesNearest(image: seq<Byte>, t: Tag, value: real)
    requires Numeric(t.kind) && t.scale != 0.0 && WriteScaled(image, t, value).Ok?
    requires Lowest(t.kind) as real <= RawValue(t, value) <= Highest(t.kind) as real
    ensures exists raw: int :: (
      && Lowest(t.kind) <= raw <= Highest(t.kind) && WriteScaled(image, t, value) == WriteTag(image, t, raw)
      && Abs(raw as real * t.scale + t.bias - value) <= Abs(t.scale) / 2.0)
  {
    hide Rounded, RawValue, WriteTag;
    var x := RawValue(t, value);
    RoundedNear(x, Lowest(t.kind), Highest(t.kind));
    RoundingError(t, value, Rounded(x));
    assert WriteScaled(image, t, value) == WriteTag(image, t, Rounded(x));
  }

  /** Writing back the value just read leaves the image as it was. */
  lemma ScaledWriteInvertsRead(image: seq<Byte>, t: Tag)
    requires t.scale != 0.0 && ReadTag(image, t).Ok?
    ensures WriteScaled(image, t, ReadScaled(image, t).value) == Ok(image)
  {
    RawOfEngineering(t, ReadTag(image, t).value);
    GetThenSet(image, t);
  }

  /** Reading back the value just written errs by at most half the scale when it is in range. */
  lemma ScaledRoundTrip(image: seq<Byte>, t: Tag, value: real)
    requires Numeric(t.kind) && t.scale != 0.0 && WriteScaled(image, t, value).Ok?
    requires Lowest(t.kind) as real <= RawValue(t, value) <= Highest(t.kind) as real
    ensures var back := ReadScaled(WriteScaled(image, t, value).value, t);
      back.Ok? && Abs(back.value - value) <= Abs(t.scale) / 2.0
  {
    hide Rounded, RawValue, WriteTag, ReadTag, Wrapped;
    var x := RawValue(t, value);
    SetThenGet(image, t, Rounded(x));
    RoundedNear(x, Lowest(t.kind), Highest(t.kind));
    WrappedMeaning(t.kind, Rounded(x));
    RoundingError(t, value, Rounded(x));
  }

  lemma RoundingError(t: Tag, value: real, raw: int)
    requires t.scale != 0.0 && Abs(raw as real - RawValue(t, value)) <= 0.5
    ensures Abs(Engineering(t, raw) - value) <= Abs(t.scale) / 2.0
  {
    Unscaled(value - t.bias, t.scale);
    var x, e := RawValue(t, value), raw as real - RawValue(t, value);
    ErrorBound(e, t.scale);
    Distribute(raw as real, x, t.scale);
  }

  lemma Unscaled(y: real, s: real)
    requires s != 0.0
    ensures y / s * s == y
  {}

  lemma Distribute(x: real, y: real, s: real)
    ensures (x - y) * s == x * s - y * s
  {}

  lemma ErrorBound(e: real, s: real)
    requires Abs(e) <= 0.5
    ensures Abs(e * s) <= Abs(s) / 2.0
  {
    MulBound(e, s, 0.5, Abs(s));
  }
}
