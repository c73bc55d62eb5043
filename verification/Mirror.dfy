/** The output image and the gateway's copy of it: what is staged, what the gateway holds, and the dirty
    span that says where they may differ. `Flush` is one run of flush_outputs() with the writes of other
    threads in between; the lemmas say when no write is ever forgotten. */
module Mirror {
  import opened Bytes

  const MAX_WRITE_REGISTERS := 123

  datatype Image = Image(staged: seq<Byte>, wire: seq<Byte>, lo: nat, hi: nat) {
    /** The area is whole registers, and the dirty span lies inside it. */
    predicate Valid() {
      |staged| == |wire| && |staged| % 2 == 0 && hi <= |staged|
    }

    predicate Dirty(k: nat) { lo <= k < hi }
  }

  /** Every byte where the gateway differs from the staged image lies inside the dirty span. */
  ghost predicate Mirrored(i: Image) {
    && i.Valid()
    && forall k: nat | k < |i.staged| && !i.Dirty(k) :: i.staged[k] == i.wire[k]
  }

  // ---------------------------------------------------------------- staging

  datatype Write = Write(offset: nat, bytes: seq<Byte>)

  predicate Inside(w: Write, size: nat) { w.offset + |w.bytes| <= size }

  predicate AllInside(writes: seq<Write>, size: nat) {
    forall n | 0 <= n < |writes| :: Inside(writes[n], size)
  }

  function Touch(i: Image, offset: nat, length: nat): Image {
    if i.lo >= i.hi then i.(lo := offset, hi := offset + length)
    else i.(lo := if offset < i.lo then offset else i.lo,
            hi := if i.hi < offset + length then offset + length else i.hi)
  }

  function Stage(i: Image, w: Write): (r: Image)
    requires i.Valid() && Inside(w, |i.staged|)
    ensures r.Valid() && |r.staged| == |i.staged|
  {
    Touch(i.(staged := Overlay(i.staged, w.offset, w.bytes)), w.offset, |w.bytes|)
  }

  function StageAll(i: Image, writes: seq<Write>): (r: Image)
    requires i.Valid() && AllInside(writes, |i.staged|)
    ensures r.Valid() && |r.staged| == |i.staged|
    decreases |writes|
  {
    if writes == [] then i else StageAll(Stage(i, writes[0]), writes[1..])
  }

  function MarkDirty(i: Image): Image { i.(lo := 0, hi := |i.staged|) }

  /** After a reconnect the gateway may hold anything. */
  function Reconnect(i: Image, wire: seq<Byte>): Image
    requires |wire| == |i.staged|
  {
    MarkDirty(i.(wire := wire))
  }

  // ---------------------------------------------------------------- sending

  /** What becomes of one chunk: applied and acknowledged, applied with the reply lost, or not applied. */
  datatype Outcome = Acknowledged | ReplyLost | NotApplied

  datatype Flushed = Flushed(ok: bool, image: Image)

  function ChunkSize(n: nat): nat { if n < MAX_WRITE_REGISTERS then n else MAX_WRITE_REGISTERS }

  function Land(i: Image, at: nat, regs: seq<Word>): (r: Image)
    requires i.Valid() && at + 2 * |regs| <= |i.wire|
    ensures r.Valid() && |r.wire| == |i.wire|
  {
    i.(wire := Overlay(i.wire, at, RegisterBytes(regs)))
  }

  /** Other threads' writes while the n-th chunk is on the wire. */
  function During(others: seq<seq<Write>>, n: nat): seq<Write> {
    if n < |others| then others[n] else []
  }

  predicate OthersInside(others: seq<seq<Write>>, size: nat) {
    forall n | 0 <= n < |others| :: AllInside(others[n], size)
  }

  /** Chunk n onwards; when the outcomes run out, the link is down. */
  function SendFrom(i: Image, regs: seq<Word>, at: nat, outcomes: seq<Outcome>, others: seq<seq<Write>>, n: nat)
    : (r: Flushed)
    requires i.Valid() && at + 2 * |regs| <= |i.wire| && OthersInside(others, |i.wire|)
    ensures r.image.Valid() && |r.image.staged| == |i.staged|
    decreases |regs|
  {
    if regs == [] then Flushed(true, i)
    else if n >= |outcomes| || outcomes[n] == NotApplied then Flushed(false, i)
    else
      var size := ChunkSize(|regs|);
      var landed := Land(i, at, regs[..size]);
      if outcomes[n] == ReplyLost then Flushed(false, landed)
      else SendFrom(StageAll(landed, During(others, n)), regs[size..], at + 2 * size, outcomes, others, n + 1)
  }

  /** The span after a flush in which every chunk was acknowledged. */
  function Clear(i: Image, lo: nat, hi: nat): Image {
    if i.lo >= lo && i.hi <= hi then i.(lo := 0, hi := 0)
    else if i.lo < hi && i.hi > hi then i.(lo := hi)
    else i
  }

  function SpanLo(i: Image, onlyDirty: bool): nat { if onlyDirty then i.lo else 0 }

  function SpanHi(i: Image, onlyDirty: bool): nat { if onlyDirty then i.hi else |i.staged| }

  predicate NothingToSend(i: Image, onlyDirty: bool) { i.staged == [] || (onlyDirty && i.lo >= i.hi) }

  /** The span grown to whole registers, as bytes. */
  function GrownLo(lo: nat): nat { lo / 2 * 2 }

  function GrownCount(lo: nat, hi: nat): nat
    requires lo <= hi
  {
    (hi + 1) / 2 - lo / 2
  }

  /** `before`: writes between taking the span and taking the snapshot. */
  function Flush(i: Image, onlyDirty: bool, before: seq<Write>, outcomes: seq<Outcome>, others: seq<seq<Write>>): (r: Flushed)
    requires i.Valid() && AllInside(before, |i.staged|) && OthersInside(others, |i.staged|)
    ensures r.image.Valid() && |r.image.staged| == |i.staged|
  {
    if NothingToSend(i, onlyDirty) then Flushed(true, i)
    else
      var lo, hi := SpanLo(i, onlyDirty), SpanHi(i, onlyDirty);
      var s := StageAll(i, before);
      var regs := RegistersAt(s.staged, GrownCount(lo, hi), GrownLo(lo));
      var r := SendFrom(s, regs, GrownLo(lo), outcomes, others, 0);
      if r.ok then Flushed(true, Clear(r.image, lo, hi)) else r
  }

  // ---------------------------------------------------------------- writes and reconnects

  lemma StageKeeps(i: Image, w: Write)
    requires Mirrored(i) && Inside(w, |i.staged|)
    ensures Mirrored(Stage(i, w))
  {}

  lemma ReconnectMirrors(i: Image, wire: seq<Byte>)
    requires i.Valid() && |wire| == |i.staged|
    ensures Mirrored(Reconnect(i, wire))
  {}

  /** What later writes may have done to a snapshot: every byte that differs from it is dirty, and the
      dirty span has only grown. */
  ghost predicate Since(snapshot: seq<Byte>, lo: nat, hi: nat, i: Image) {
    && i.Valid() && |snapshot| == |i.staged|
    && (forall k: nat | k < |snapshot| && !i.Dirty(k) :: i.staged[k] == snapshot[k])
    && (lo < hi ==> i.lo <= lo && hi <= i.hi)
  }

  lemma StageSince(snapshot: seq<Byte>, lo: nat, hi: nat, i: Image, w: Write)
    requires Since(snapshot, lo, hi, i) && Inside(w, |i.staged|)
    ensures Since(snapshot, lo, hi, Stage(i, w))
  {}

  lemma {:induction false} StageAllKeeps(snapshot: seq<Byte>, lo: nat, hi: nat, i: Image, writes: seq<Write>)
    requires Mirrored(i) && Since(snapshot, lo, hi, i) && AllInside(writes, |i.staged|)
    ensures Mirrored(StageAll(i, writes)) && Since(snapshot, lo, hi, StageAll(i, writes))
    ensures StageAll(i, writes).wire == i.wire
    decreases |writes|
  {
    if writes != [] {
      StageKeeps(i, writes[0]);
      StageSince(snapshot, lo, hi, i, writes[0]);
      hide Mirrored, Since;
      StageAllKeeps(snapshot, lo, hi, Stage(i, writes[0]), writes[1..]);
    }
  }

  // ---------------------------------------------------------------- chunks

  lemma LandKeeps(snapshot: seq<Byte>, lo: nat, hi: nat, i: Image, at: nat, regs: seq<Word>)
    requires Mirrored(i) && Since(snapshot, lo, hi, i) && at + 2 * |regs| <= |snapshot|
    requires RegisterBytes(regs) == snapshot[at..at + 2 * |regs|]
    ensures Mirrored(Land(i, at, regs)) && Since(snapshot, lo, hi, Land(i, at, regs))
  {
    hide RegisterBytes;
  }

  lemma ChunkBytes(regs: seq<Word>, n: nat)
    requires n <= |regs|
    ensures RegisterBytes(regs[..n]) == RegisterBytes(regs)[..2 * n]
    ensures RegisterBytes(regs[n..]) == RegisterBytes(regs)[2 * n..]
  {
    forall k: nat | 2 * n <= k < 2 * |regs| ensures RegisterBytes(regs[n..])[k - 2 * n] == RegisterBytes(regs)[k] {
      assert (k - 2 * n) / 2 == k / 2 - n && (k - 2 * n) % 2 == k % 2;
    }
  }

  lemma OverlayTwice(wire: seq<Byte>, at: nat, bytes: seq<Byte>, n: nat)
    requires at + |bytes| <= |wire| && n <= |bytes|
    ensures Overlay(Overlay(wire, at, bytes[..n]), at + n, bytes[n..]) == Overlay(wire, at, bytes)
  {}

  /** Wherever the sending stops, with whatever writes in between, the mirror holds; when every chunk is
      acknowledged the gateway holds the snapshot over the whole grown span. */
  lemma {:induction false} SendKeeps(snapshot: seq<Byte>, lo: nat, hi: nat, i: Image, regs: seq<Word>, at: nat,
                                     outcomes: seq<Outcome>, others: seq<seq<Write>>, n: nat)
    requires Mirrored(i) && Since(snapshot, lo, hi, i) && at + 2 * |regs| <= |snapshot|
    requires RegisterBytes(regs) == snapshot[at..at + 2 * |regs|] && OthersInside(others, |i.staged|)
    ensures var r := SendFrom(i, regs, at, outcomes, others, n);
      && Mirrored(r.image) && Since(snapshot, lo, hi, r.image)
      && (r.ok ==> r.image.wire == Overlay(i.wire, at, snapshot[at..at + 2 * |regs|]))
    decreases |regs|
  {
    if regs == [] {
      assert Overlay(i.wire, at, snapshot[at..at]) == i.wire;
    } else if n < |outcomes| && outcomes[n] != NotApplied {
      var size := ChunkSize(|regs|);
      ChunkBytes(regs, size);
      var bytes := snapshot[at..at + 2 * |regs|];
      assert bytes[..2 * size] == snapshot[at..at + 2 * size];
      assert bytes[2 * size..] == snapshot[at + 2 * size..(at + 2 * size) + 2 * |regs[size..]|];
      LandKeeps(snapshot, lo, hi, i, at, regs[..size]);
      var landed := Land(i, at, regs[..size]);
      hide Mirrored, Since, RegisterBytes;
      if outcomes[n] == Acknowledged {
        StageAllKeeps(snapshot, lo, hi, landed, During(others, n));
        SendKeeps(snapshot, lo, hi, StageAll(landed, During(others, n)), regs[size..], at + 2 * size, outcomes, others,
                  n + 1);
        OverlayTwice(i.wire, at, bytes, 2 * size);
      }
    }
  }

  // ---------------------------------------------------------------- one flush

  lemma GrownSpan(lo: nat, hi: nat, size: nat)
    requires lo <= hi <= size && size % 2 == 0
    ensures GrownLo(lo) <= lo && hi <= GrownLo(lo) + 2 * GrownCount(lo, hi) <= size
  {}

  lemma SnapshotBytes(staged: seq<Byte>, count: nat, at: nat)
    requires at + 2 * count <= |staged|
    ensures RegisterBytes(RegistersAt(staged, count, at)) == staged[at..at + 2 * count]
  {
    LoadOfStore(staged, count, at);
    hide RegistersAt, RegisterBytes;
    var bytes := RegisterBytes(RegistersAt(staged, count, at));
    assert Overlay(staged, at, bytes)[at..at + 2 * count] == bytes;
  }

  /** What the gateway holds once every chunk has been acknowledged. */
  function Transmitted(i: Image, onlyDirty: bool, before: seq<Write>): (wire: seq<Byte>)
    requires i.Valid() && AllInside(before, |i.staged|) && !NothingToSend(i, onlyDirty)
    ensures |wire| == |i.staged|
  {
    var lo, hi := SpanLo(i, onlyDirty), SpanHi(i, onlyDirty);
    GrownSpan(lo, hi, |i.staged|);
    var at, end := GrownLo(lo), GrownLo(lo) + 2 * GrownCount(lo, hi);
    Overlay(i.wire, at, StageAll(i, before).staged[at..end])
  }

  /** The image a flush has reached when it comes to clearing the span. */
  function BeforeClear(i: Image, onlyDirty: bool, before: seq<Write>, outcomes: seq<Outcome>, others: seq<seq<Write>>): Flushed
    requires i.Valid() && AllInside(before, |i.staged|) && OthersInside(others, |i.staged|)
    requires !NothingToSend(i, onlyDirty)
  {
    var lo, hi := SpanLo(i, onlyDirty), SpanHi(i, onlyDirty);
    GrownSpan(lo, hi, |i.staged|);
    var s := StageAll(i, before);
    SendFrom(s, RegistersAt(s.staged, GrownCount(lo, hi), GrownLo(lo)), GrownLo(lo), outcomes, others, 0)
  }

  lemma SendingKeeps(i: Image, onlyDirty: bool, before: seq<Write>, outcomes: seq<Outcome>, others: seq<seq<Write>>)
    requires Mirrored(i) && AllInside(before, |i.staged|) && OthersInside(others, |i.staged|)
    requires !NothingToSend(i, onlyDirty)
    ensures var b := BeforeClear(i, onlyDirty, before, outcomes, others);
      && Mirrored(b.image) && (onlyDirty ==> b.image.lo <= i.lo && i.hi <= b.image.hi)
      && (b.ok ==> b.image.wire == Transmitted(i, onlyDirty, before))
  {
    var lo, hi := SpanLo(i, onlyDirty), SpanHi(i, onlyDirty);
    var at, count := GrownLo(lo), GrownCount(lo, hi);
    GrownSpan(lo, hi, |i.staged|);
    StageAllKeeps(i.staged, i.lo, i.hi, i, before);
    var s := StageAll(i, before);
    SnapshotBytes(s.staged, count, at);
    assert Since(s.staged, s.lo, s.hi, s);
    SendKeeps(s.staged, s.lo, s.hi, s, RegistersAt(s.staged, count, at), at, outcomes, others, 0);
  }

  /** A flush that fails keeps the mirror, whichever chunk failed, whether or not it was applied, and
      whatever was written meanwhile. */
  lemma FailedFlushKeeps(i: Image, onlyDirty: bool, before: seq<Write>, outcomes: seq<Outcome>, others: seq<seq<Write>>)
    requires Mirrored(i) && AllInside(before, |i.staged|) && OthersInside(others, |i.staged|)
    requires !Flush(i, onlyDirty, before, outcomes, others).ok
    ensures Mirrored(Flush(i, onlyDirty, before, outcomes, others).image)
  {
    SendingKeeps(i, onlyDirty, before, outcomes, others);
  }

  lemma ClearExactly(b: Image, lo: nat, hi: nat)
    requires Mirrored(b) && hi <= |b.staged| && lo < hi
    requires (b.lo <= lo && hi <= b.hi) || (lo == 0 && hi == |b.staged|)
    ensures Mirrored(Clear(b, lo, hi))
            <==> (b.lo < lo && b.hi <= hi) || forall k: nat | b.lo <= k < hi && k < b.hi :: b.staged[k] == b.wire[k]
  {
    var c := Clear(b, lo, hi);
    if !(b.lo < lo && b.hi <= hi) && Mirrored(c) {
      forall k: nat | b.lo <= k < hi && k < b.hi ensures b.staged[k] == b.wire[k] {
        assert !c.Dirty(k);
      }
    }
  }

  lemma ClearedIff(i: Image, onlyDirty: bool, before: seq<Write>, outcomes: seq<Outcome>, others: seq<seq<Write>>)
    requires Mirrored(i) && AllInside(before, |i.staged|) && OthersInside(others, |i.staged|)
    requires !NothingToSend(i, onlyDirty) && Flush(i, onlyDirty, before, outcomes, others).ok
    ensures var b := BeforeClear(i, onlyDirty, before, outcomes, others).image;
      var sent := Transmitted(i, onlyDirty, before);
      Mirrored(Flush(i, onlyDirty, before, outcomes, others).image)
      <==> (b.lo < SpanLo(i, onlyDirty) && b.hi <= SpanHi(i, onlyDirty))
           || forall k: nat | b.lo <= k < SpanHi(i, onlyDirty) && k < b.hi :: b.staged[k] == sent[k]
  {
    SendingKeeps(i, onlyDirty, before, outcomes, others);
    var b := BeforeClear(i, onlyDirty, before, outcomes, others).image;
    hide Mirrored, SendFrom, StageAll;
    ClearExactly(b, SpanLo(i, onlyDirty), SpanHi(i, onlyDirty));
  }

  // ---------------------------------------------------------------- the writes of the other threads

  /** What the other threads write while `count` registers go out, chunk n onwards. */
  function Meanwhile(others: seq<seq<Write>>, count: nat, n: nat): seq<Write>
    decreases count
  {
    if count == 0 then [] else During(others, n) + Meanwhile(others, count - ChunkSize(count), n + 1)
  }

  lemma {:induction false} MeanwhileInside(others: seq<seq<Write>>, count: nat, n: nat, size: nat)
    requires OthersInside(others, size)
    ensures AllInside(Meanwhile(others, count, n), size)
    decreases count
  {
    if count > 0 {
      MeanwhileInside(others, count - ChunkSize(count), n + 1, size);
    }
  }

  lemma {:induction false} StageBoth(i: Image, first: seq<Write>, second: seq<Write>)
    requires i.Valid() && AllInside(first, |i.staged|) && AllInside(second, |i.staged|)
    ensures AllInside(first + second, |i.staged|)
    ensures StageAll(i, first + second) == StageAll(StageAll(i, first), second)
    decreases |first|
  {
    hide Stage;
    if first == [] {
      assert first + second == second;
    } else {
      assert (first + second)[1..] == first[1..] + second;
      StageBoth(Stage(i, first[0]), first[1..], second);
    }
  }

  /** Staging never looks at the gateway. */
  lemma {:induction false} StageOverWire(i: Image, wire: seq<Byte>, writes: seq<Write>)
    requires i.Valid() && |wire| == |i.wire| && AllInside(writes, |i.staged|)
    ensures StageAll(i.(wire := wire), writes) == StageAll(i, writes).(wire := wire)
    decreases |writes|
  {
    if writes != [] {
      assert Stage(i.(wire := wire), writes[0]) == Stage(i, writes[0]).(wire := wire);
      hide Stage;
      StageOverWire(Stage(i, writes[0]), wire, writes[1..]);
    }
  }

  /** Apart from the gateway's bytes, a flush whose chunks are all acknowledged has just let the writes land. */
  lemma {:induction false} SendLands(i: Image, regs: seq<Word>, at: nat, outcomes: seq<Outcome>, others: seq<seq<Write>>,
                                     n: nat)
    requires i.Valid() && at + 2 * |regs| <= |i.wire| && OthersInside(others, |i.wire|)
    ensures AllInside(Meanwhile(others, |regs|, n), |i.staged|)
    ensures var r := SendFrom(i, regs, at, outcomes, others, n);
      r.ok ==> r.image == StageAll(i, Meanwhile(others, |regs|, n)).(wire := r.image.wire)
    decreases |regs|
  {
    hide StageAll, Land;
    MeanwhileInside(others, |regs|, n, |i.staged|);
    var r := SendFrom(i, regs, at, outcomes, others, n);
    if regs == [] {
      StageNothing(i);
    } else if r.ok {
      var size := ChunkSize(|regs|);
      var landed, now := Land(i, at, regs[..size]), During(others, n);
      LandWire(i, at, regs[..size]);
      StageOverWire(i, landed.wire, now);
      var rest := Meanwhile(others, |regs| - size, n + 1);
      SendLands(StageAll(landed, now), regs[size..], at + 2 * size, outcomes, others, n + 1);
      StageOverWire(StageAll(i, now), landed.wire, rest);
      StageBoth(i, now, rest);
    }
  }

  lemma StageNothing(i: Image)
    requires i.Valid()
    ensures StageAll(i, []) == i
  {}

  lemma LandWire(i: Image, at: nat, regs: seq<Word>)
    requires i.Valid() && at + 2 * |regs| <= |i.wire|
    ensures Land(i, at, regs) == i.(wire := Land(i, at, regs).wire)
  {}

  /** Every write that lands between taking the span and clearing it. */
  function Landing(i: Image, onlyDirty: bool, before: seq<Write>, others: seq<seq<Write>>): (writes: seq<Write>)
    requires i.Valid() && AllInside(before, |i.staged|) && OthersInside(others, |i.staged|)
    requires !NothingToSend(i, onlyDirty)
    ensures AllInside(writes, |i.staged|)
  {
    var count := GrownCount(SpanLo(i, onlyDirty), SpanHi(i, onlyDirty));
    MeanwhileInside(others, count, 0, |i.staged|);
    before + Meanwhile(others, count, 0)
  }

  /** The writes that land during the flush reach only below the span, or leave every dirty byte below its
      end as it was transmitted. */
  predicate NothingForgotten(i: Image, onlyDirty: bool, before: seq<Write>, others: seq<seq<Write>>)
    requires i.Valid() && AllInside(before, |i.staged|) && OthersInside(others, |i.staged|)
    requires !NothingToSend(i, onlyDirty)
  {
    var lo, hi := SpanLo(i, onlyDirty), SpanHi(i, onlyDirty);
    var d, sent := StageAll(i, Landing(i, onlyDirty, before, others)), Transmitted(i, onlyDirty, before);
    (d.lo < lo && d.hi <= hi) || forall k: nat | d.lo <= k < hi && k < d.hi :: d.staged[k] == sent[k]
  }

  lemma LandingReached(i: Image, onlyDirty: bool, before: seq<Write>, outcomes: seq<Outcome>, others: seq<seq<Write>>)
    requires i.Valid() && AllInside(before, |i.staged|) && OthersInside(others, |i.staged|)
    requires !NothingToSend(i, onlyDirty) && BeforeClear(i, onlyDirty, before, outcomes, others).ok
    ensures var b := BeforeClear(i, onlyDirty, before, outcomes, others).image;
      b == StageAll(i, Landing(i, onlyDirty, before, others)).(wire := b.wire)
  {
    hide StageAll, SendFrom, RegistersAt;
    var lo, hi := SpanLo(i, onlyDirty), SpanHi(i, onlyDirty);
    GrownSpan(lo, hi, |i.staged|);
    var s, count := StageAll(i, before), GrownCount(lo, hi);
    MeanwhileInside(others, count, 0, |i.staged|);
    SendLands(s, RegistersAt(s.staged, count, GrownLo(lo)), GrownLo(lo), outcomes, others, 0);
    StageBoth(i, before, Meanwhile(others, count, 0));
  }

  /** A flush that succeeds keeps the mirror exactly when its writes, wherever and whenever they land, make
      none of themselves forgotten. */
  lemma SuccessfulFlushKeepsIff(i: Image, onlyDirty: bool, before: seq<Write>, outcomes: seq<Outcome>,
                                others: seq<seq<Write>>)
    requires Mirrored(i) && AllInside(before, |i.staged|) && OthersInside(others, |i.staged|)
    requires !NothingToSend(i, onlyDirty) && Flush(i, onlyDirty, before, outcomes, others).ok
    ensures Mirrored(Flush(i, onlyDirty, before, outcomes, others).image)
            <==> NothingForgotten(i, onlyDirty, before, others)
  {
    ClearedIff(i, onlyDirty, before, outcomes, others);
    FlushOf(i, onlyDirty, before, outcomes, others);
    hide StageAll, BeforeClear, Flush, Transmitted, Mirrored, Landing, NothingToSend;
    LandingReached(i, onlyDirty, before, outcomes, others);
  }

  /** Over the span, what is transmitted is the snapshot; elsewhere the gateway keeps what it had. */
  lemma TransmittedBytes(i: Image, onlyDirty: bool, before: seq<Write>, k: nat)
    requires i.Valid() && AllInside(before, |i.staged|) && !NothingToSend(i, onlyDirty) && k < |i.staged|
    ensures var sent := Transmitted(i, onlyDirty, before)[k];
      && (SpanLo(i, onlyDirty) <= k < SpanHi(i, onlyDirty) ==> sent == StageAll(i, before).staged[k])
      && (sent == StageAll(i, before).staged[k] || sent == i.wire[k])
  {
    hide StageAll, Overlay;
    var lo, hi := SpanLo(i, onlyDirty), SpanHi(i, onlyDirty);
    GrownSpan(lo, hi, |i.staged|);
    hide GrownLo, GrownCount;
    var at, end := GrownLo(lo), GrownLo(lo) + 2 * GrownCount(lo, hi);
    OverlayAt(i.wire, at, StageAll(i, before).staged[at..end], k);
  }

  lemma OverlayAt(wire: seq<Byte>, at: nat, bytes: seq<Byte>, k: nat)
    requires at + |bytes| <= |wire| && k < |wire|
    ensures Overlay(wire, at, bytes)[k] == if at <= k < at + |bytes| then bytes[k - at] else wire[k]
  {}

  lemma QuietlyTransmitted(i: Image, onlyDirty: bool)
    requires Mirrored(i) && !NothingToSend(i, onlyDirty)
    ensures Transmitted(i, onlyDirty, []) == i.staged
  {
    hide Transmitted;
    forall k: nat | k < |i.staged| ensures Transmitted(i, onlyDirty, [])[k] == i.staged[k] {
      TransmittedBytes(i, onlyDirty, [], k);
    }
  }

  lemma FlushOf(i: Image, onlyDirty: bool, before: seq<Write>, outcomes: seq<Outcome>, others: seq<seq<Write>>)
    requires i.Valid() && AllInside(before, |i.staged|) && OthersInside(others, |i.staged|)
    requires !NothingToSend(i, onlyDirty)
    ensures var b := BeforeClear(i, onlyDirty, before, outcomes, others);
      Flush(i, onlyDirty, before, outcomes, others)
      == if b.ok then Flushed(true, Clear(b.image, SpanLo(i, onlyDirty), SpanHi(i, onlyDirty))) else b
  {}

  /** With no write meanwhile a successful flush leaves the gateway equal to the staged image everywhere
      and nothing dirty; in whole-area mode whatever the dirty span was. */
  lemma QuietFlush(i: Image, onlyDirty: bool, outcomes: seq<Outcome>)
    requires Mirrored(i)
    ensures var r := Flush(i, onlyDirty, [], outcomes, []);
      && Mirrored(r.image) && r.image.staged == i.staged
      && (r.ok ==> r.image.wire == r.image.staged && r.image.lo >= r.image.hi)
  {
    if NothingToSend(i, onlyDirty) {
      assert i.lo < i.hi ==> i.staged != [];
    } else {
      QuietSend(i, onlyDirty, outcomes);
      SendingKeeps(i, onlyDirty, [], outcomes, []);
      FlushOf(i, onlyDirty, [], outcomes, []);
      QuietlyTransmitted(i, onlyDirty);
      hide Flush, BeforeClear, Transmitted, NothingToSend;
    }
  }

  lemma {:induction false} QuietSendFrom(i: Image, regs: seq<Word>, at: nat, outcomes: seq<Outcome>, n: nat)
    requires i.Valid() && at + 2 * |regs| <= |i.wire|
    ensures var r := SendFrom(i, regs, at, outcomes, [], n).image; r.staged == i.staged && r.lo == i.lo && r.hi == i.hi
    decreases |regs|
  {
    if regs != [] && n < |outcomes| && outcomes[n] == Acknowledged {
      var size := ChunkSize(|regs|);
      QuietSendFrom(Land(i, at, regs[..size]), regs[size..], at + 2 * size, outcomes, n + 1);
    }
  }

  lemma QuietSend(i: Image, onlyDirty: bool, outcomes: seq<Outcome>)
    requires i.Valid() && !NothingToSend(i, onlyDirty)
    ensures var b := BeforeClear(i, onlyDirty, [], outcomes, []).image; b.staged == i.staged && b.lo == i.lo && b.hi == i.hi
  {
    var lo, hi := SpanLo(i, onlyDirty), SpanHi(i, onlyDirty);
    GrownSpan(lo, hi, |i.staged|);
    QuietSendFrom(i, RegistersAt(i.staged, GrownCount(lo, hi), GrownLo(lo)), GrownLo(lo), outcomes, 0);
  }

  /** In whole-area mode each successful flush leaves the gateway equal to the snapshot, dirty or not. */
  lemma WholeAreaFlush(i: Image, before: seq<Write>, outcomes: seq<Outcome>, others: seq<seq<Write>>)
    requires Mirrored(i) && AllInside(before, |i.staged|) && OthersInside(others, |i.staged|)
    requires Flush(i, false, before, outcomes, others).ok
    ensures i.staged != [] ==> Flush(i, false, before, outcomes, others).image.wire == StageAll(i, before).staged
  {
    if i.staged != [] {
      SendingKeeps(i, false, before, outcomes, others);
      FlushOf(i, false, before, outcomes, others);
      hide Flush, BeforeClear, Transmitted, StageAll;
      forall k: nat | k < |i.staged| ensures Transmitted(i, false, before)[k] == StageAll(i, before).staged[k] {
        TransmittedBytes(i, false, before, k);
      }
    }
  }

  // ---------------------------------------------------------------- writes that land mid-flush

  predicate AtOrAbove(writes: seq<Write>, bound: nat) {
    forall n | 0 <= n < |writes| :: bound <= writes[n].offset
  }

  predicate OthersAtOrAbove(others: seq<seq<Write>>, bound: nat) {
    forall n | 0 <= n < |others| :: AtOrAbove(others[n], bound)
  }

  /** The bytes below `bound` are those of `was`, and the dirty span starts where it did. */
  ghost predicate Below(i: Image, was: seq<Byte>, lo: nat, bound: nat) {
    && i.Valid() && |i.staged| == |was| && bound <= |was| && i.lo == lo && lo < i.hi
    && forall k: nat | k < bound :: i.staged[k] == was[k]
  }

  lemma {:induction false} StageAbove(i: Image, writes: seq<Write>, was: seq<Byte>, lo: nat, bound: nat)
    requires Below(i, was, lo, bound) && lo <= bound && AllInside(writes, |i.staged|) && AtOrAbove(writes, bound)
    ensures Below(StageAll(i, writes), was, lo, bound)
    decreases |writes|
  {
    if writes != [] {
      assert Below(Stage(i, writes[0]), was, lo, bound);
      hide Below;
      StageAbove(Stage(i, writes[0]), writes[1..], was, lo, bound);
    }
  }

  lemma {:induction false} SendAbove(i: Image, regs: seq<Word>, at: nat, outcomes: seq<Outcome>, others: seq<seq<Write>>,
                                     n: nat, was: seq<Byte>, lo: nat, bound: nat)
    requires Below(i, was, lo, bound) && lo <= bound && at + 2 * |regs| <= |i.wire|
    requires OthersInside(others, |i.staged|) && OthersAtOrAbove(others, bound)
    ensures Below(SendFrom(i, regs, at, outcomes, others, n).image, was, lo, bound)
    decreases |regs|
  {
    if regs != [] && n < |outcomes| && outcomes[n] != NotApplied {
      var size := ChunkSize(|regs|);
      var landed := Land(i, at, regs[..size]);
      assert Below(landed, was, lo, bound);
      hide Below, StageAll;
      if outcomes[n] == Acknowledged {
        StageAbove(landed, During(others, n), was, lo, bound);
        SendAbove(StageAll(landed, During(others, n)), regs[size..], at + 2 * size, outcomes, others, n + 1, was, lo, bound);
      }
    }
  }

  /** Writes that land mid-flush wholly at or above the span's end are kept for the next flush. */
  lemma WritesAboveAreKept(i: Image, outcomes: seq<Outcome>, others: seq<seq<Write>>)
    requires Mirrored(i) && OthersInside(others, |i.staged|) && OthersAtOrAbove(others, i.hi)
    ensures Mirrored(Flush(i, true, [], outcomes, others).image)
  {
    if !NothingToSend(i, true) {
      SendAboveSpan(i, outcomes, others);
      if Flush(i, true, [], outcomes, others).ok {
        ClearedIff(i, true, [], outcomes, others);
        var b := BeforeClear(i, true, [], outcomes, others).image;
        hide BeforeClear, Flush, Transmitted, Mirrored, NothingToSend, OthersAtOrAbove, OthersInside;
        forall k: nat | b.lo <= k < i.hi && k < b.hi ensures b.staged[k] == Transmitted(i, true, [])[k] {
          TransmittedBytes(i, true, [], k);
        }
      } else {
        FailedFlushKeeps(i, true, [], outcomes, others);
      }
    }
  }

  lemma SendAboveSpan(i: Image, outcomes: seq<Outcome>, others: seq<seq<Write>>)
    requires i.Valid() && !NothingToSend(i, true)
    requires OthersInside(others, |i.staged|) && OthersAtOrAbove(others, i.hi)
    ensures Below(BeforeClear(i, true, [], outcomes, others).image, i.staged, i.lo, i.hi)
  {
    GrownSpan(i.lo, i.hi, |i.staged|);
    hide SendFrom;
    SendAbove(i, RegistersAt(i.staged, GrownCount(i.lo, i.hi), GrownLo(i.lo)), GrownLo(i.lo), outcomes, others, 0,
              i.staged, i.lo, i.hi);
  }

  lemma SendOne(i: Image, reg: Word, at: nat, writes: seq<Write>)
    requires i.Valid() && at + 2 <= |i.wire| && AllInside(writes, |i.wire|)
    ensures SendFrom(i, [reg], at, [Acknowledged], [writes], 0) == Flushed(true, StageAll(Land(i, at, [reg]), writes))
  {
    assert [reg][..1] == [reg] && [reg][1..] == [];
    assert During([writes], 0) == writes;
  }

  /** A write inside the span being sent is forgotten: the flush succeeds, nothing is dirty, and the
      gateway still holds the old byte. */
  lemma WriteInsideIsLost()
    ensures var i := Image([7, 0], [0, 0], 0, 1);
      var r := Flush(i, true, [], [Acknowledged], [[Write(0, [9])]]);
      Mirrored(i) && r.ok && r.image.lo == r.image.hi && r.image.staged[0] == 9 && r.image.wire[0] == 7
  {
    var i, w := Image([7, 0], [0, 0], 0, 1), Write(0, [9]);
    SendOne(i, 1792, 0, [w]);
    assert JoinBytes(7, 0) == 1792;
    assert RegistersAt(i.staged, 1, 0) == [1792];
    assert RegisterBytes([1792]) == [7, 0];
    var landed := Land(i, 0, [1792]);
    assert landed.wire == [7, 0] && landed.staged == [7, 0];
    assert [w][1..] == [];
    assert StageAll(landed, [w]) == Stage(landed, w);
    hide SendFrom, RegistersAt, RegisterBytes, StageAll, Land;
    assert StageAll(i, []) == i;
    FlushOf(i, true, [], [Acknowledged], [[w]]);
  }

  /** So is a write below the span when another lands above its end: the span's end becomes its start. */
  lemma WriteBelowIsLost()
    ensures var i := Image([0, 0, 7, 0, 0, 0], [0, 0, 0, 0, 0, 0], 2, 4);
      var r := Flush(i, true, [], [Acknowledged], [[Write(0, [5]), Write(4, [1])]]);
      && Mirrored(i) && r.ok && r.image.lo == 4 && r.image.staged[0] == 5 && r.image.wire[0] == 0
  {
    var i, below, above := Image([0, 0, 7, 0, 0, 0], [0, 0, 0, 0, 0, 0], 2, 4), Write(0, [5]), Write(4, [1]);
    SendOne(i, 1792, 2, [below, above]);
    SevenZero(i.staged, i.wire);
    StageNothing(i);
    var landed := i.(wire := [0, 0, 7, 0, 0, 0]);
    StagePair(landed, below, above);
    hide SendFrom, RegistersAt, StageAll, Land, Overlay;
    OverlayPair([0, 0, 7, 0, 0, 0], 0, 5, 4, 1);
    FlushOf(i, true, [], [Acknowledged], [[below, above]]);
  }

  lemma SevenZero(staged: seq<Byte>, wire: seq<Byte>)
    requires staged == [0, 0, 7, 0, 0, 0] && wire == [0, 0, 0, 0, 0, 0]
    ensures RegistersAt(staged, 1, 2) == [1792]
    ensures Land(Image(staged, wire, 2, 4), 2, [1792]) == Image(staged, [0, 0, 7, 0, 0, 0], 2, 4)
  {
    assert JoinBytes(7, 0) == 1792;
    assert RegistersAt(staged, 1, 2) == [JoinBytes(7, 0)];
    assert RegisterBytes([1792]) == [7, 0];
    assert Overlay(wire, 2, [7, 0]) == [0, 0, 7, 0, 0, 0];
  }

  lemma StagePair(i: Image, first: Write, second: Write)
    requires i.Valid() && Inside(first, |i.staged|) && Inside(second, |i.staged|)
    ensures StageAll(i, [first, second]) == Stage(Stage(i, first), second)
  {
    hide Stage;
    assert [first, second][1..] == [second] && [second][1..] == [];
    assert StageAll(Stage(i, first), [second]) == StageAll(Stage(Stage(i, first), second), []);
  }

  lemma OverlayPair(bytes: seq<Byte>, j: nat, x: Byte, k: nat, y: Byte)
    requires j < |bytes| && k < |bytes| && j != k
    ensures Overlay(Overlay(bytes, j, [x]), k, [y])[j] == x
  {}

  // ---------------------------------------------------------------- over runs

  datatype Event =
    | Written(write: Write)
    | AllMarked
    | Reconnected(wire: seq<Byte>)
    | FlushRun(before: seq<Write>, outcomes: seq<Outcome>, others: seq<seq<Write>>)

  /** Writes lie inside the area; nothing else is asked of an event. */
  predicate Possible(i: Image, e: Event) {
    match e
    case Written(w) => Inside(w, |i.staged|)
    case AllMarked => true
    case Reconnected(wire) => |wire| == |i.staged|
    case FlushRun(before, _, others) => AllInside(before, |i.staged|) && OthersInside(others, |i.staged|)
  }

  function After(i: Image, e: Event, onlyDirty: bool): Image
    requires i.Valid() && Possible(i, e)
  {
    match e
    case Written(w) => Stage(i, w)
    case AllMarked => MarkDirty(i)
    case Reconnected(wire) => Reconnect(i, wire)
    case FlushRun(before, outcomes, others) => Flush(i, onlyDirty, before, outcomes, others).image
  }

  /** A flush whose chunks are all acknowledged and whose writes get forgotten. */
  predicate Forgets(i: Image, e: Event, onlyDirty: bool)
    requires i.Valid() && Possible(i, e)
  {
    && e.FlushRun? && !NothingToSend(i, onlyDirty)
    && Flush(i, onlyDirty, e.before, e.outcomes, e.others).ok
    && !NothingForgotten(i, onlyDirty, e.before, e.others)
  }

  ghost predicate MirrorRun(images: seq<Image>, events: seq<Event>, onlyDirty: bool) {
    && |images| == |events| + 1 && Mirrored(images[0])
    && forall n | 0 <= n < |events| ::
         images[n].Valid() && Possible(images[n], events[n]) && images[n + 1] == After(images[n], events[n], onlyDirty)
  }

  /** A single event breaks the mirror exactly when it is a flush that forgets. */
  lemma MirrorStep(i: Image, e: Event, onlyDirty: bool)
    requires Mirrored(i) && Possible(i, e)
    ensures Mirrored(After(i, e, onlyDirty)) <==> !Forgets(i, e, onlyDirty)
  {
    match e
    case Written(w) => StageKeeps(i, w);
    case AllMarked =>
    case Reconnected(wire) => ReconnectMirrors(i, wire);
    case FlushRun(before, outcomes, others) => FlushStep(i, onlyDirty, before, outcomes, others);
  }

  lemma FlushStep(i: Image, onlyDirty: bool, before: seq<Write>, outcomes: seq<Outcome>, others: seq<seq<Write>>)
    requires Mirrored(i) && Possible(i, FlushRun(before, outcomes, others))
    ensures Mirrored(Flush(i, onlyDirty, before, outcomes, others).image)
            <==> !Forgets(i, FlushRun(before, outcomes, others), onlyDirty)
  {
    if NothingToSend(i, onlyDirty) {
      assert Flush(i, onlyDirty, before, outcomes, others).image == i;
    } else {
      hide Mirrored, Flush, NothingForgotten, NothingToSend;
      if Flush(i, onlyDirty, before, outcomes, others).ok {
        SuccessfulFlushKeepsIff(i, onlyDirty, before, outcomes, others);
      } else {
        FailedFlushKeeps(i, onlyDirty, before, outcomes, others);
      }
    }
  }

  /** Through any sequence of writes, reconnects and flushes, failed at any point or not and with writes
      landing at any time, the gateway differs from the staged image only inside the dirty span, unless
      some flush along the way forgot a write in the sense of NothingForgotten. */
  lemma {:induction false} MirrorAlways(images: seq<Image>, events: seq<Event>, onlyDirty: bool, n: nat) returns (m: nat)
    requires MirrorRun(images, events, onlyDirty) && n < |images|
    ensures Mirrored(images[n])
            || (m < n && images[m].Valid() && Possible(images[m], events[m]) && Forgets(images[m], events[m], onlyDirty))
  {
    m := 0;
    if n > 0 {
      hide Mirrored, Forgets, Possible, After;
      m := MirrorAlways(images, events, onlyDirty, n - 1);
      if Mirrored(images[n - 1]) {
        MirrorStep(images[n - 1], events[n - 1], onlyDirty);
        m := n - 1;
      }
    }
  }
}
