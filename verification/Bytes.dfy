/** Bytes, 16-bit registers and big-endian numbers. */
module Bytes {

  type Byte = x: int | 0 <= x < 256

  type Word = x: int | 0 <= x < 65536

  function Pow256(n: nat): nat {
    if n == 0 then 1 else 256 * Pow256(n - 1)
  }

  // ---------------------------------------------------------------- big-endian numbers

  function FromBigEndian(bytes: seq<Byte>): (v: nat)
    ensures v < Pow256(|bytes|)
  {
    if bytes == [] then 0 else 256 * FromBigEndian(bytes[..|bytes| - 1]) + bytes[|bytes| - 1]
  }

  function ToBigEndian(v: nat, n: nat): (bytes: seq<Byte>)
    ensures |bytes| == n
  {
    if n == 0 then [] else ToBigEndian(v / 256, n - 1) + [v % 256]
  }

  /** v / 256 and v % Pow256(n) split v % Pow256(n + 1) into its high and low digits. */
  lemma SplitDigits(v: nat, p: nat)
    requires 0 < p
    ensures v % (256 * p) == 256 * (v / 256 % p) + v % 256
  {
    var q := v / 256 / p;
    var high := v / 256 % p;
    assert v / 256 == p * q + high;
    assert v == 256 * (p * q + high) + v % 256;
    assert v == (256 * p) * q + (256 * high + v % 256);
    UniqueRemainder(v, 256 * p, q, 256 * high + v % 256);
  }

  lemma UniqueRemainder(v: nat, d: nat, q: nat, r: nat)
    requires v == d * q + r && r < d
    ensures v % d == r && v / d == q
  {
    var e: int := v / d - q;
    Multiple(d, e);
    assert d * e == d * (v / d) - d * q;
    assert d * (v / d) + v % d == v;
  }

  lemma Multiple(d: int, e: int)
    requires 0 < d
    ensures e == 0 || d <= d * e || d * e <= 0 - d
  {}

  lemma Pow256Positive(n: nat)
    ensures 0 < Pow256(n)
  {}

  /** Writing a number and reading it back reduces it modulo the width written. */
  lemma {:induction false} EncodeDecode(v: nat, n: nat)
    ensures Pow256(n) > 0 && FromBigEndian(ToBigEndian(v, n)) == v % Pow256(n)
  {
    Pow256Positive(n);
    if n > 0 {
      EncodeDecode(v / 256, n - 1);
      Pow256Positive(n - 1);
      SplitDigits(v, Pow256(n - 1));
      var bytes := ToBigEndian(v, n);
      assert bytes[..n - 1] == ToBigEndian(v / 256, n - 1);
    }
  }

  /** Reading a number and writing it back gives the same bytes. */
  lemma {:induction false} DecodeEncode(bytes: seq<Byte>)
    ensures ToBigEndian(FromBigEndian(bytes), |bytes|) == bytes
  {
    if bytes != [] {
      var init := bytes[..|bytes| - 1];
      DecodeEncode(init);
      assert FromBigEndian(bytes) / 256 == FromBigEndian(init);
      assert bytes == init + [bytes[|bytes| - 1]];
    }
  }

  lemma LastByte(init: seq<Byte>, last: Byte)
    ensures FromBigEndian(init + [last]) == 256 * FromBigEndian(init) + last
  {
    assert (init + [last])[..|init|] == init;
  }

  /** The first byte weighs most. */
  lemma {:induction false} FirstByteWeighsMost(b: Byte, rest: seq<Byte>)
    ensures FromBigEndian([b] + rest) == b * Pow256(|rest|) + FromBigEndian(rest)
  {
    if rest == [] {
      LastByte([], b);
      assert [b] + rest == [] + [b];
    } else {
      hide FromBigEndian;
      var init, last := rest[..|rest| - 1], rest[|rest| - 1];
      FirstByteWeighsMost(b, init);
      LastByte(init, last);
      LastByte([b] + init, last);
      assert rest == init + [last] && [b] + rest == [b] + init + [last];
      Shifted(b, Pow256(|init|));
    }
  }

  lemma Shifted(b: nat, p: nat)
    ensures 256 * (b * p) == b * (256 * p)
  {}

  // ---------------------------------------------------------------- registers

  function HighByte(w: Word): Byte { w / 256 }

  function LowByte(w: Word): Byte { w % 256 }

  function JoinBytes(high: Byte, low: Byte): Word { 256 * high + low }

  /** Registers laid down high byte first. */
  function RegisterBytes(regs: seq<Word>): (bytes: seq<Byte>)
    ensures |bytes| == 2 * |regs|
  {
    seq(2 * |regs|, i requires 0 <= i < 2 * |regs| => if i % 2 == 0 then HighByte(regs[i / 2]) else LowByte(regs[i / 2]))
  }

  function RegistersAt(image: seq<Byte>, count: nat, offset: nat): (regs: seq<Word>)
    requires offset + 2 * count <= |image|
    ensures |regs| == count
  {
    seq(count, i requires 0 <= i < count => JoinBytes(image[offset + 2 * i], image[offset + 2 * i + 1]))
  }

  /** `image` with `bytes` laid over it at `offset`. */
  function Overlay<T>(image: seq<T>, offset: nat, bytes: seq<T>): (r: seq<T>)
    requires offset + |bytes| <= |image|
    ensures |r| == |image|
  {
    image[..offset] + bytes + image[offset + |bytes|..]
  }

  /** The high byte of each register comes first. */
  lemma HighByteFirst(regs: seq<Word>, i: nat)
    requires i < |regs|
    ensures RegisterBytes(regs)[2 * i] == regs[i] / 256 && RegisterBytes(regs)[2 * i + 1] == regs[i] % 256
  {
    assert (2 * i + 1) / 2 == i;
  }

  lemma StoreOfLoad(image: seq<Byte>, regs: seq<Word>, offset: nat)
    requires offset + 2 * |regs| <= |image|
    ensures RegistersAt(Overlay(image, offset, RegisterBytes(regs)), |regs|, offset) == regs
  {
    var loaded := Overlay(image, offset, RegisterBytes(regs));
    forall i | 0 <= i < |regs| ensures JoinBytes(loaded[offset + 2 * i], loaded[offset + 2 * i + 1]) == regs[i] {
      assert (2 * i + 1) / 2 == i;
    }
  }

  lemma LoadOfStore(image: seq<Byte>, count: nat, offset: nat)
    requires offset + 2 * count <= |image|
    ensures Overlay(image, offset, RegisterBytes(RegistersAt(image, count, offset))) == image
  {
    var bytes := RegisterBytes(RegistersAt(image, count, offset));
    forall i | 0 <= i < 2 * count ensures bytes[i] == image[offset + i] {
      assert i == 2 * (i / 2) + i % 2;
    }
    assert Overlay(image, offset, bytes) == image;
  }
}
