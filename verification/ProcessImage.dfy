/** The process image as the driver keeps it: a byte buffer changed in place. Every getter and setter
    is proved against the meaning of tags given in module Tags. */
module ProcessImage {
  import opened Bytes
  import opened Tags

  /** The first `done` bytes at `at` are in place, every other byte is as it was. */
  ghost predicate Rearranged(now: seq<Byte>, before: seq<Byte>, value: seq<Byte>, at: nat, done: nat, o: ByteOrder)
    requires |value| % 2 == 0 && at + |value| <= |before|
  {
    && |now| == |before| && done <= |value|
    && (forall k: nat | k < done :: now[at + k] == value[Source(k, |value|, o)])
    && (forall k: nat | k < |now| && !(at <= k < at + done) :: now[k] == before[k])
  }

  lemma OneMore(now: seq<Byte>, before: seq<Byte>, value: seq<Byte>, at: nat, done: nat, o: ByteOrder, from: nat)
    requires |value| % 2 == 0 && at + |value| <= |before| && done < |value|
    requires Rearranged(now, before, value, at, done, o) && from == Source(done, |value|, o)
    ensures Rearranged(now[at + done := value[from]], before, value, at, done + 1, o)
  {}

  lemma AllDone(now: seq<Byte>, before: seq<Byte>, value: seq<Byte>, at: nat, o: ByteOrder)
    requires |value| % 2 == 0 && at + |value| <= |before| && Rearranged(now, before, value, at, |value|, o)
    ensures now == Overlay(before, at, Reordered(value, o))
  {
    var laid := Reordered(value, o);
    forall k: nat | at <= k < at + |value| ensures now[k] == laid[k - at] {
      assert now[at + (k - at)] == value[Source(k - at, |value|, o)];
    }
    hide Reordered;
    assert now == Overlay(before, at, laid);
  }

  method CopyBytes(src: array<Byte>, srcAt: nat, dst: array<Byte>, dstAt: nat, n: nat)
    requires src != dst && n % 2 == 0 && srcAt + n <= src.Length && dstAt + n <= dst.Length
    modifies dst
    ensures dst[..] == Overlay(old(dst[..]), dstAt, Reordered(src[srcAt..srcAt + n], BigEndian))
  {
    ghost var value, before := src[srcAt..srcAt + n], dst[..];
    assert Rearranged(before, before, value, dstAt, 0, BigEndian);
    hide Rearranged, Overlay, Reordered;
    for i := 0 to n
      invariant Rearranged(dst[..], before, value, dstAt, i, BigEndian)
    {
      OneMore(dst[..], before, value, dstAt, i, BigEndian, i);
      dst[dstAt + i] := src[srcAt + i];
    }
    AllDone(dst[..], before, value, dstAt, BigEndian);
  }

  method ReverseBytes(src: array<Byte>, srcAt: nat, dst: array<Byte>, dstAt: nat, n: nat)
    requires src != dst && n % 2 == 0 && srcAt + n <= src.Length && dstAt + n <= dst.Length
    modifies dst
    ensures dst[..] == Overlay(old(dst[..]), dstAt, Reordered(src[srcAt..srcAt + n], LittleEndian))
  {
    ghost var value, before := src[srcAt..srcAt + n], dst[..];
    assert Rearranged(before, before, value, dstAt, 0, LittleEndian);
    hide Rearranged, Overlay, Reordered;
    for i := 0 to n
      invariant Rearranged(dst[..], before, value, dstAt, i, LittleEndian)
    {
      OneMore(dst[..], before, value, dstAt, i, LittleEndian, n - 1 - i);
      dst[dstAt + i] := src[srcAt + n - 1 - i];
    }
    AllDone(dst[..], before, value, dstAt, LittleEndian);
  }

  lemma RegisterSource(r: nat, n: nat, nreg: nat)
    requires n == 2 * nreg && r < nreg
    ensures Source(2 * r, n, BigEndianSwap) == 2 * (nreg - 1 - r)
    ensures Source(2 * r + 1, n, BigEndianSwap) == 2 * (nreg - 1 - r) + 1
  {}

  /** Both bytes of one register. */
  method CopyRegister(src: array<Byte>, srcAt: nat, s: nat, dst: array<Byte>, dstAt: nat, d: nat, ghost value: seq<Byte>,
                      ghost before: seq<Byte>, o: ByteOrder)
    requires src != dst && |value| % 2 == 0 && srcAt + |value| <= src.Length && value == src[srcAt..srcAt + |value|]
    requires dstAt + |value| <= |before| == dst.Length && d + 2 <= |value| && s + 2 <= |value|
    requires Rearranged(dst[..], before, value, dstAt, d, o)
    requires Source(d, |value|, o) == s && Source(d + 1, |value|, o) == s + 1
    modifies dst
    ensures Rearranged(dst[..], before, value, dstAt, d + 2, o)
  {
    hide Rearranged, Overlay, Reordered, Source;
    OneMore(dst[..], before, value, dstAt, d, o, s);
    dst[dstAt + d] := src[srcAt + s];
    OneMore(dst[..], before, value, dstAt, d + 1, o, s + 1);
    dst[dstAt + d + 1] := src[srcAt + s + 1];
  }

  method ReverseRegisters(src: array<Byte>, srcAt: nat, dst: array<Byte>, dstAt: nat, n: nat)
    requires src != dst && n % 2 == 0 && srcAt + n <= src.Length && dstAt + n <= dst.Length
    modifies dst
    ensures dst[..] == Overlay(old(dst[..]), dstAt, Reordered(src[srcAt..srcAt + n], BigEndianSwap))
  {
    ghost var value, before := src[srcAt..srcAt + n], dst[..];
    assert Rearranged(before, before, value, dstAt, 0, BigEndianSwap);
    hide Rearranged, Overlay, Reordered, Source;
    var nreg := n / 2;
    for r := 0 to nreg
      invariant Rearranged(dst[..], before, value, dstAt, 2 * r, BigEndianSwap)
    {
      RegisterSource(r, n, nreg);
      CopyRegister(src, srcAt, 2 * (nreg - 1 - r), dst, dstAt, 2 * r, value, before, BigEndianSwap);
    }
    AllDone(dst[..], before, value, dstAt, BigEndianSwap);
  }

  method SwapWithinRegisters(src: array<Byte>, srcAt: nat, dst: array<Byte>, dstAt: nat, n: nat)
    requires src != dst && n % 2 == 0 && srcAt + n <= src.Length && dstAt + n <= dst.Length
    modifies dst
    ensures dst[..] == Overlay(old(dst[..]), dstAt, Reordered(src[srcAt..srcAt + n], LittleEndianSwap))
  {
    ghost var value, before := src[srcAt..srcAt + n], dst[..];
    assert Rearranged(before, before, value, dstAt, 0, LittleEndianSwap);
    hide Rearranged, Overlay, Reordered;
    for r := 0 to n / 2
      invariant Rearranged(dst[..], before, value, dstAt, 2 * r, LittleEndianSwap)
    {
      OneMore(dst[..], before, value, dstAt, 2 * r, LittleEndianSwap, 2 * r + 1);
      dst[dstAt + 2 * r] := src[srcAt + 2 * r + 1];
      OneMore(dst[..], before, value, dstAt, 2 * r + 1, LittleEndianSwap, 2 * r);
      dst[dstAt + 2 * r + 1] := src[srcAt + 2 * r];
    }
    AllDone(dst[..], before, value, dstAt, LittleEndianSwap);
  }

  /** dst[dstAt..] receives the n bytes at src[srcAt..] in the other order. */
  method Reorder(src: array<Byte>, srcAt: nat, dst: array<Byte>, dstAt: nat, n: nat, o: ByteOrder)
    requires src != dst && n % 2 == 0 && srcAt + n <= src.Length && dstAt + n <= dst.Length
    modifies dst
    ensures dst[..] == Overlay(old(dst[..]), dstAt, Reordered(src[srcAt..srcAt + n], o))
  {
    match o {
      case BigEndian => CopyBytes(src, srcAt, dst, dstAt, n);
      case LittleEndian => ReverseBytes(src, srcAt, dst, dstAt, n);
      case BigEndianSwap => ReverseRegisters(src, srcAt, dst, dstAt, n);
      case LittleEndianSwap => SwapWithinRegisters(src, srcAt, dst, dstAt, n);
    }
  }

  method BeToU64(p: array<Byte>, n: nat) returns (v: nat)
    requires n <= p.Length
    ensures v == FromBigEndian(p[..n])
  {
    v := 0;
    for i := 0 to n
      invariant v == FromBigEndian(p[..i])
    {
      v := 256 * v + p[i];
      assert p[..i + 1][..i] == p[..i];
    }
  }

  method U64ToBe(v: nat, p: array<Byte>, n: nat)
    requires n == p.Length
    modifies p
    ensures p[..] == ToBigEndian(v, n)
  {
    for i := 0 to n
      invariant p[n - i..] == ToBigEndian(v, i)
    {
      Pow256Positive(i);
      p[n - 1 - i] := v / Pow256(i) % 256;
      TopDigit(v, i);
      assert p[n - (i + 1)..] == [v / Pow256(i) % 256] + p[n - i..];
    }
  }

  lemma {:induction false} TopDigit(v: nat, i: nat)
    ensures Pow256(i) > 0 && ToBigEndian(v, i + 1) == [v / Pow256(i) % 256] + ToBigEndian(v, i)
  {
    Pow256Positive(i);
    if i > 0 {
      TopDigit(v / 256, i - 1);
      Pow256Positive(i - 1);
      DivideTwice(v, Pow256(i - 1));
      assert ToBigEndian(v, i + 1) == ToBigEndian(v / 256, i) + [v % 256];
    }
  }

  lemma DivideTwice(v: nat, p: nat)
    requires 0 < p
    ensures v / (256 * p) == v / 256 / p
  {
    var q, r := v / 256 / p, v / 256 % p;
    assert v == 256 * (p * q + r) + v % 256;
    assert v == (256 * p) * q + (256 * r + v % 256);
    UniqueRemainder(v, 256 * p, q, 256 * r + v % 256);
  }

  class ProcessImage {
    var buf: array<Byte>

    constructor (size: nat)
      ensures fresh(buf) && buf[..] == seq(size, _ => 0)
    {
      buf := new Byte[size](_ => 0);
    }

    method GetUnsigned(offset: nat, n: nat, o: ByteOrder) returns (v: nat)
      requires (n == 1 || n % 2 == 0) && offset + n <= buf.Length
      ensures v == FromBigEndian(Arranged(buf[offset..offset + n], o))
    {
      if n == 1 {
        v := buf[offset];
        assert FromBigEndian(buf[offset..offset + 1][..0]) == 0;
        assert FromBigEndian(buf[offset..offset + 1]) == 256 * FromBigEndian(buf[offset..offset + 1][..0]) + buf[offset];
      } else {
        var tmp := new Byte[n];
        Reorder(buf, offset, tmp, 0, n, o);
        assert tmp[..] == tmp[..n] == Reordered(buf[offset..offset + n], o);
        v := BeToU64(tmp, n);
      }
    }

    method SetUnsigned(offset: nat, v: nat, n: nat, o: ByteOrder)
      requires (n == 1 || n % 2 == 0) && offset + n <= buf.Length
      modifies buf
      ensures buf[..] == Overlay(old(buf[..]), offset, Arranged(ToBigEndian(v, n), o))
    {
      var be := new Byte[n];
      U64ToBe(v, be, n);
      if n == 1 {
        buf[offset] := be[0];
        assert buf[..] == Overlay(old(buf[..]), offset, be[..]);
      } else {
        Reorder(be, 0, buf, offset, n, o);
        assert be[0..0 + n] == be[..];
      }
    }

    method GetInt(t: Tag) returns (r: Result<int>)
      ensures r == ReadTag(buf[..], t)
    {
      hide FromBigEndian, Arranged, Reading, BitOf;
      if t.kind == Raw {
        return Err(InvalidArgument);
      }
      if buf.Length < t.offset + Size(t) || (t.kind == Bit && t.bit > 7) {
        return Err(OutOfRange);
      }
      if t.kind == Bit {
        return Ok(if BitOf(buf[t.offset], t.bit) then 1 else 0);
      }
      var u := GetUnsigned(t.offset, Size(t), t.order);
      assert buf[t.offset..t.offset + Size(t)] == Field(buf[..], t);
      r := Ok(Reading(t.kind, u));
    }

    method SetInt(t: Tag, raw: int) returns (done: Result<()>)
      modifies buf
      ensures done.Ok? <==> WriteTag(old(buf[..]), t, raw).Ok?
      ensures done.Ok? ==> buf[..] == WriteTag(old(buf[..]), t, raw).value
      ensures done.Err? ==> buf[..] == old(buf[..]) && done.error == WriteTag(old(buf[..]), t, raw).error
    {
      if t.kind == Raw {
        return Err(InvalidArgument);
      }
      if buf.Length < t.offset + Size(t) || (t.kind == Bit && t.bit > 7) {
        return Err(OutOfRange);
      }
      if t.kind == Bit {
        buf[t.offset] := WithBit(buf[t.offset], t.bit, raw != 0);
      } else {
        SetUnsigned(t.offset, Residue(t.kind, raw), Size(t), t.order);
      }
      done := Ok(());
    }

    method GetScaled(t: Tag) returns (r: Result<real>)
      ensures r == ReadScaled(buf[..], t)
    {
      var raw := GetInt(t);
      match raw
      case Ok(x) => r := Ok(Engineering(t, x));
      case Err(e) => r := Err(e);
    }

    method SetScaled(t: Tag, value: real) returns (done: Result<()>)
      modifies buf
      ensures done.Ok? <==> WriteScaled(old(buf[..]), t, value).Ok?
      ensures done.Ok? ==> buf[..] == WriteScaled(old(buf[..]), t, value).value
      ensures done.Err? ==> buf[..] == old(buf[..]) && done.error == WriteScaled(old(buf[..]), t, value).error
    {
      done := SetInt(t, Rounded(RawValue(t, value)));
    }

    method LoadFromRegisters(regs: seq<Word>, offset: nat) returns (done: Result<()>)
      modifies buf
      ensures done == if offset + 2 * |regs| <= buf.Length then Ok(()) else Err(OutOfRange)
      ensures done.Ok? ==> buf[..] == Overlay(old(buf[..]), offset, RegisterBytes(regs))
      ensures done.Err? ==> buf[..] == old(buf[..])
    {
      if buf.Length < offset + 2 * |regs| {
        return Err(OutOfRange);
      }
      ghost var bytes := RegisterBytes(regs);
      for i := 0 to |regs|
        invariant forall k: nat | k < 2 * i :: buf[offset + k] == bytes[k]
        invariant forall k: nat | k < buf.Length && !(offset <= k < offset + 2 * i) :: buf[k] == old(buf[k])
      {
        buf[offset + 2 * i] := HighByte(regs[i]);
        buf[offset + 2 * i + 1] := LowByte(regs[i]);
        assert (2 * i + 1) / 2 == i;
      }
      assert buf[..] == Overlay(old(buf[..]), offset, bytes);
      done := Ok(());
    }

    method StoreToRegisters(count: nat, offset: nat) returns (r: Result<seq<Word>>)
      ensures r.Ok? <==> offset + 2 * count <= buf.Length
      ensures r.Ok? ==> r.value == RegistersAt(buf[..], count, offset)
      ensures r.Err? ==> r.error == OutOfRange
    {
      if buf.Length < offset + 2 * count {
        return Err(OutOfRange);
      }
      var regs: seq<Word> := [];
      for i := 0 to count
        invariant regs == RegistersAt(buf[..], i, offset)
      {
        regs := regs + [JoinBytes(buf[offset + 2 * i], buf[offset + 2 * i + 1])];
      }
      r := Ok(regs);
    }
  }
}
