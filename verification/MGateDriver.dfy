/** The cyclic driver object: staged outputs and input image, one exchange per poll cycle. The gateway's
    copy of the output area is ghost. What the network and the other threads do during an exchange comes
    in as arguments: the outcome of every chunk and the writes made while it was under way. */
module MGateDriver {
  import opened Options
  import opened Bytes
  import opened ChunkedReads
  import opened Mirror
  import opened Modbus
  import Tags

  datatype GatewayConfig = GatewayConfig(inputBase: Word, inputWords: Word, outputBase: Word, outputWords: Word,
                                         statusBase: Word, statusWords: Word, inputUsesFc4: bool, statusUsesFc4: bool,
                                         onlyDirty: bool)

  /** The output area ends within the 16-bit register range. */
  type Config = c: GatewayConfig | c.outputBase + c.outputWords <= 65536
    witness GatewayConfig(0, 0, 0, 0, 0, 0, false, false, false)

  // ---------------------------------------------------------------- a chunk at the server

  /** The output area of the gateway as bytes. */
  function AreaBytes(m: Memory, base: Word, words: nat): (bytes: seq<Byte>)
    requires base + words <= 65536
    ensures |bytes| == 2 * words
  {
    RegisterBytes(m.holding[base..base + words])
  }

  /** Laying registers over registers lays their bytes over the bytes: what the mirror calls landing is
      what the server does with the request for a chunk, FC 16 or, for a single register, FC 6. */
  lemma ChunkLands(m: Memory, base: Word, words: nat, at: nat, regs: seq<Word>)
    requires base + words <= 65536 && at + |regs| <= words && 1 <= |regs| <= MAX_WRITE
    ensures AreaBytes(Serve(m, WriteRequest(base + at, regs)).memory, base, words)
            == Overlay(AreaBytes(m, base, words), 2 * at, RegisterBytes(regs))
  {
    hide Serve, WriteMultipleRequest, WriteSingleRequest;
    if |regs| == 1 {
      assert regs == [regs[0]];
      WriteSingleIdentity(m, base + at, regs[0]);
    } else {
      WriteMultipleIdentity(m, base + at, regs);
    }
    OverlaySlice(m.holding, base, words, at, regs);
    OverlayBytes(m.holding[base..base + words], at, regs);
  }

  lemma OverlaySlice(holding: seq<Word>, base: nat, words: nat, at: nat, regs: seq<Word>)
    requires base + words <= |holding| && at + |regs| <= words
    ensures Overlay(holding, base + at, regs)[base..base + words] == Overlay(holding[base..base + words], at, regs)
  {}

  lemma OverlayBytes(area: seq<Word>, at: nat, regs: seq<Word>)
    requires at + |regs| <= |area|
    ensures RegisterBytes(Overlay(area, at, regs)) == Overlay(RegisterBytes(area), 2 * at, RegisterBytes(regs))
  {
    var a, b := RegisterBytes(Overlay(area, at, regs)), Overlay(RegisterBytes(area), 2 * at, RegisterBytes(regs));
    forall k: nat | k < |a| ensures a[k] == b[k] {
      if 2 * at <= k < 2 * at + 2 * |regs| {
        assert (k - 2 * at) / 2 == k / 2 - at && (k - 2 * at) % 2 == k % 2;
      }
    }
  }

  // ---------------------------------------------------------------- the object

  class MGateDriver {
    const config: Config
    var outBytes: seq<Byte>
    var inBytes: seq<Byte>
    var status: seq<Word>
    var dirtyLo: nat
    var dirtyHi: nat
    var connected: bool
    var online: bool
    var haveData: bool
    ghost var memory: Memory

    ghost function Outputs(): Image
      reads this
    {
      Image(outBytes, Wire(), dirtyLo, dirtyHi)
    }

    /** The gateway's copy of the output area. */
    ghost function Wire(): seq<Byte>
      reads this
    {
      AreaBytes(memory, config.outputBase, config.outputWords)
    }

    ghost predicate Valid()
      reads this
    {
      && Outputs().Valid() && |outBytes| == 2 * config.outputWords && |inBytes| == 2 * config.inputWords
    }

    /** Everything but the outputs is as it was. */
    twostate predicate InputsKept()
      reads this
    {
      inBytes == old(inBytes) && status == old(status) && online == old(online) && haveData == old(haveData)
    }

    constructor (c: Config, ghost gateway: Memory)
      ensures Valid() && config == c && outBytes == seq(2 * c.outputWords, _ => 0) && !connected && !online
    {
      config := c;
      outBytes, inBytes := seq(2 * c.outputWords, _ => 0), seq(2 * c.inputWords, _ => 0);
      status := seq(c.statusWords, _ => 0);
      dirtyLo, dirtyHi := 0, 0;
      connected, online, haveData := false, false, false;
      memory := gateway;
    }

    method TouchSpan(offset: nat, length: nat)
      modifies this`dirtyLo, this`dirtyHi
      ensures Outputs() == Touch(old(Outputs()), offset, length)
    {
      if dirtyLo >= dirtyHi {
        dirtyLo, dirtyHi := offset, offset + length;
      } else {
        dirtyLo := if offset < dirtyLo then offset else dirtyLo;
        dirtyHi := if dirtyHi < offset + length then offset + length else dirtyHi;
      }
    }

    method WriteRaw(w: Write)
      requires Valid() && Inside(w, |outBytes|)
      modifies this`outBytes, this`dirtyLo, this`dirtyHi
      ensures Valid() && Outputs() == Stage(old(Outputs()), w)
    {
      outBytes := outBytes[..w.offset] + w.bytes + outBytes[w.offset + |w.bytes|..];
      TouchSpan(w.offset, |w.bytes|);
    }

    /** A typed write is a write of the tag's own bytes. */
    method WriteInt(t: Tags.Tag, raw: int) returns (done: Tags.Result<()>)
      requires Valid()
      modifies this`outBytes, this`dirtyLo, this`dirtyHi
      ensures Valid()
      ensures var r := Tags.WriteTag(old(outBytes), t, raw);
        if r.Err? then done == Tags.Err(r.error) && Outputs() == old(Outputs())
        else done.Ok? && outBytes == r.value
             && t.offset + Tags.Size(t) <= |outBytes|
             && Outputs() == Stage(old(Outputs()), Write(t.offset, r.value[t.offset..t.offset + Tags.Size(t)]))
    {
      var r := Tags.WriteTag(outBytes, t, raw);
      if r.Err? {
        return Tags.Err(r.error);
      }
      forall k: nat | k < |outBytes| && !(t.offset <= k < t.offset + Tags.Size(t)) ensures r.value[k] == outBytes[k] {
        Tags.OnlyOwnBytes(outBytes, t, raw, k, 0);
      }
      ghost var bytes := r.value[t.offset..t.offset + Tags.Size(t)];
      assert r.value == Overlay(outBytes, t.offset, bytes);
      outBytes := r.value;
      TouchSpan(t.offset, Tags.Size(t));
      done := Tags.Ok(());
    }

    method MarkOutputsDirty()
      requires Valid()
      modifies this`dirtyLo, this`dirtyHi
      ensures Valid() && Outputs() == MarkDirty(old(Outputs()))
    {
      dirtyLo, dirtyHi := 0, |outBytes|;
    }

    /** The writes other threads make while this one is on the wire. */
    method OtherThreads(writes: seq<Write>)
      requires Valid() && AllInside(writes, |outBytes|)
      modifies this`outBytes, this`dirtyLo, this`dirtyHi
      ensures Valid() && Outputs() == StageAll(old(Outputs()), writes)
    {
      for n := 0 to |writes|
        invariant Valid() && AllInside(writes[n..], |outBytes|)
        invariant StageAll(Outputs(), writes[n..]) == StageAll(old(Outputs()), writes)
      {
        WriteRaw(writes[n]);
        assert writes[n..][1..] == writes[n + 1..];
      }
      assert writes[|writes|..] == [];
    }

    /** A new connection finds whatever that gateway holds; otherwise nothing has changed. */
    ghost function AfterConnecting(i: Image, same: bool, gateway: Memory): (r: Image)
      requires i.Valid() && |i.staged| == 2 * config.outputWords
      ensures r.Valid() && r.staged == i.staged
    {
      if same then i else Reconnect(i, AreaBytes(gateway, config.outputBase, config.outputWords))
    }

    /** `gateway`: what a gateway reached anew holds. */
    method EnsureConnected(connects: bool, ghost gateway: Memory) returns (ok: bool)
      requires Valid()
      modifies this
      ensures Valid() && ok == (old(connected) || connects) && connected == ok
      ensures inBytes == old(inBytes) && status == old(status) && haveData == old(haveData)
      ensures online == (old(online) && ok)
      ensures Outputs() == AfterConnecting(old(Outputs()), old(connected) || !connects, gateway)
    {
      if connected {
        return true;
      }
      if !connects {
        online := false;
        return false;
      }
      connected := true;
      memory := gateway;
      MarkOutputsDirty();
      ok := true;
    }

    /** `drops`: whether the error that ends a failed exchange also drops the connection. */
    method FlushOutputs(before: seq<Write>, outcomes: seq<Outcome>, others: seq<seq<Write>>, drops: bool)
      returns (ok: bool)
      requires Valid() && AllInside(before, |outBytes|) && OthersInside(others, |outBytes|)
      modifies this
      ensures Valid() && InputsKept() && (ok ==> connected == old(connected))
      ensures Flushed(ok, Outputs()) == Flush(old(Outputs()), config.onlyDirty, before, outcomes, others)
    {
      if outBytes == [] || (config.onlyDirty && dirtyLo >= dirtyHi) {
        return true;
      }
      hide StageAll, SendFrom, RegistersAt, Flush, Clear;
      FlushOf(Outputs(), config.onlyDirty, before, outcomes, others);
      var lo, hi := if config.onlyDirty then dirtyLo else 0, if config.onlyDirty then dirtyHi else |outBytes|;
      GrownSpan(lo, hi, |outBytes|);
      ok := SendSpan(lo, hi, before, outcomes, others, drops);
      if ok {
        ClearSpan(lo, hi);
      }
    }

    /** Snapshot of the span, grown to whole registers, sent chunk by chunk. */
    method SendSpan(lo: nat, hi: nat, before: seq<Write>, outcomes: seq<Outcome>, others: seq<seq<Write>>, drops: bool)
      returns (ok: bool)
      requires Valid() && AllInside(before, |outBytes|) && OthersInside(others, |outBytes|)
      requires lo <= hi && GrownLo(lo) + 2 * GrownCount(lo, hi) <= |outBytes|
      modifies this`outBytes, this`dirtyLo, this`dirtyHi, this`memory, this`connected
      ensures Valid() && (ok ==> connected == old(connected))
      ensures var s := StageAll(old(Outputs()), before);
        Flushed(ok, Outputs())
        == SendFrom(s, RegistersAt(s.staged, GrownCount(lo, hi), GrownLo(lo)), GrownLo(lo), outcomes, others, 0)
    {
      hide StageAll, SendFrom, RegistersAt;
      OtherThreads(before);
      var firstWord := lo / 2;
      var regs := RegistersAt(outBytes, (hi + 1) / 2 - firstWord, firstWord * 2);
      ok := SendChunks(regs, firstWord, outcomes, others, drops);
    }

    method ClearSpan(lo: nat, hi: nat)
      modifies this`dirtyLo, this`dirtyHi
      ensures Outputs() == Clear(old(Outputs()), lo, hi)
    {
      if dirtyLo >= lo && dirtyHi <= hi {
        dirtyLo, dirtyHi := 0, 0;
      } else if dirtyLo < hi && dirtyHi > hi {
        dirtyLo := hi;
      }
    }

    method SendChunks(regs: seq<Word>, firstWord: nat, outcomes: seq<Outcome>, others: seq<seq<Write>>, drops: bool)
      returns (ok: bool)
      requires Valid() && 2 * (firstWord + |regs|) <= |outBytes| && OthersInside(others, |outBytes|)
      modifies this`outBytes, this`dirtyLo, this`dirtyHi, this`memory, this`connected
      ensures Valid() && (ok ==> connected == old(connected))
      ensures Flushed(ok, Outputs()) == SendFrom(old(Outputs()), regs, 2 * firstWord, outcomes, others, 0)
    {
      hide SendFrom, StageAll, Overlay, RegisterBytes, ChunkSize, Land;
      var sent, n := 0, 0;
      ghost var whole := SendFrom(Outputs(), regs, 2 * firstWord, outcomes, others, 0);
      assert regs[0..] == regs;
      while sent < |regs|
        invariant Valid() && sent <= |regs| && connected == old(connected) && |outBytes| == |old(outBytes)|
        invariant SendFrom(Outputs(), regs[sent..], 2 * (firstWord + sent), outcomes, others, n) == whole
      {
        SendStep(Outputs(), regs[sent..], 2 * (firstWord + sent), outcomes, others, n);
        if n >= |outcomes| || outcomes[n] == NotApplied {
          connected := connected && !drops;
          return false;
        }
        var chunk := ChunkSize(|regs| - sent);
        SliceOfSlice(regs, sent, chunk);
        LandChunk(firstWord + sent, regs[sent..sent + chunk]);
        if outcomes[n] == ReplyLost {
          connected := connected && !drops;
          return false;
        }
        OtherThreads(During(others, n));
        sent, n := sent + chunk, n + 1;
      }
      SendEnd(Outputs(), regs[sent..], 2 * (firstWord + sent), outcomes, others, n);
      ok := true;
    }

    /** The request for a chunk goes to its 16-bit address, and the gateway applies it. */
    method LandChunk(word: nat, regs: seq<Word>)
      requires Valid() && 2 * (word + |regs|) <= |outBytes| && 1 <= |regs| <= MAX_WRITE
      modifies this`memory
      ensures Valid() && Outputs() == Land(old(Outputs()), 2 * word, regs)
    {
      hide Serve, Overlay, RegisterBytes, AreaBytes, WriteRequest;
      ghost var address := (config.outputBase + word) % 65536;
      SmallAddress(config.outputBase + word);
      ChunkLands(memory, config.outputBase, config.outputWords, word, regs);
      memory := Serve(memory, WriteRequest(address, regs)).memory;
    }

    /** The chunk loop shared by the input and the status area. */
    method ReadArea(m: Memory, fc: Byte, base: Word, count: nat, answered: seq<bool>, drops: bool)
      returns (r: Option<seq<Word>>)
      requires fc == READ_HOLDING || fc == READ_INPUT
      modifies this`connected
      ensures r == ReadFrom(m, fc, base, count, 0, answered, 0) && (r.Some? ==> connected == old(connected))
    {
      hide ReadFrom, Prefixed, Part, ReadChunk;
      var got, n := 0, 0;
      var regs: seq<Word> := [];
      ghost var whole := ReadFrom(m, fc, base, count, 0, answered, 0);
      PrefixedNothing(whole);
      while got < count
        invariant got <= count && connected == old(connected)
        invariant whole == Prefixed(regs, ReadFrom(m, fc, base, count, got, answered, n))
      {
        ReadStep(m, fc, base, count, got, answered, n, regs);
        var chunk := ReadChunk(count - got);
        var part := Part(m, fc, (base + got) % 65536, chunk, n < |answered| && answered[n]);
        if part.None? {
          connected := connected && !drops;
          return None;
        }
        regs := regs + part.value;
        got, n := got + chunk, n + 1;
      }
      ReadEnd(m, fc, base, count, answered, n, regs);
      r := Some(regs);
    }

    function InputCode(): (fc: Byte)
      ensures fc == 0x03 || fc == 0x04
      ensures fc == 0x04 <==> config.inputUsesFc4
    {
      if config.inputUsesFc4 then READ_INPUT else READ_HOLDING
    }

    function StatusCode(): (fc: Byte)
      ensures fc == 0x03 || fc == 0x04
      ensures fc == 0x04 <==> config.statusUsesFc4
    {
      if config.statusUsesFc4 then READ_INPUT else READ_HOLDING
    }

    /** The input image becomes the registers read, high byte first, or stays exactly as it was; for an
        area within the 16-bit register range that is the gateway's whole byte buffer. */
    method ReadInputs(m: Memory, answered: seq<bool>, drops: bool) returns (ok: bool)
      requires Valid()
      modifies this`connected, this`inBytes, this`haveData
      ensures Valid() && (ok ==> connected == old(connected))
      ensures ok <==> config.inputWords == 0
                      || ReadFrom(m, InputCode(), config.inputBase, config.inputWords, 0, answered, 0).Some?
      ensures ok && config.inputWords > 0 ==>
              inBytes == RegisterBytes(
                ReadFrom(m, InputCode(), config.inputBase, config.inputWords, 0, answered, 0).value)
      ensures !ok ==> inBytes == old(inBytes) && haveData == old(haveData)
      ensures config.inputBase + config.inputWords <= 65536 ==>
              && (ok ==> inBytes == RegisterBytes(Area(m, InputCode(), config.inputBase, config.inputWords)))
              && (AllAnswered(answered, config.inputWords) ==> ok)
    {
      hide ReadFrom, AllAnswered, Area;
      if inBytes == [] {
        return true;
      }
      if config.inputBase + config.inputWords <= 65536 {
        AreaRead(m, InputCode(), config.inputBase, config.inputWords, answered);
      }
      var regs := ReadArea(m, InputCode(), config.inputBase, config.inputWords, answered, drops);
      if regs.None? {
        return false;
      }
      inBytes := RegisterBytes(regs.value);
      haveData := true;
      ok := true;
    }

    method ReadStatus(m: Memory, answered: seq<bool>, drops: bool) returns (ok: bool)
      modifies this`connected, this`status
      ensures ok ==> connected == old(connected)
      ensures ok <==> config.statusWords == 0
                      || ReadFrom(m, StatusCode(), config.statusBase, config.statusWords, 0, answered, 0).Some?
      ensures ok && config.statusWords > 0 ==>
              status == ReadFrom(m, StatusCode(), config.statusBase, config.statusWords, 0, answered, 0).value
      ensures !ok || config.statusWords == 0 ==> status == old(status)
      ensures ok && config.statusWords > 0 && config.statusBase + config.statusWords <= 65536 ==>
              status == Area(m, StatusCode(), config.statusBase, config.statusWords)
    {
      hide ReadFrom, AllAnswered, Area;
      if config.statusWords == 0 {
        return true;
      }
      if config.statusBase + config.statusWords <= 65536 {
        AreaRead(m, StatusCode(), config.statusBase, config.statusWords, answered);
      }
      var regs := ReadArea(m, StatusCode(), config.statusBase, config.statusWords, answered, drops);
      if regs.None? {
        return false;
      }
      status := regs.value;
      ok := true;
    }

    /** One poll cycle: outputs first, then inputs, then status; it is online exactly when all succeeded.
        The cycle breaks the mirror exactly when it connects, or is connected, and its flush forgets a
        write that landed meanwhile. */
    method PollCycle(connects: bool, ghost gateway: Memory, before: seq<Write>, outcomes: seq<Outcome>,
                     others: seq<seq<Write>>, m: Memory, answered: seq<bool>, statusAnswered: seq<bool>, drops: bool)
      returns (ok: bool)
      requires Valid() && Mirrored(Outputs()) && AllInside(before, |outBytes|) && OthersInside(others, |outBytes|)
      modifies this
      ensures Valid() && online == ok && (ok ==> connected)
      ensures var i := AfterConnecting(old(Outputs()), old(connected) || !connects, gateway);
        Mirrored(Outputs())
        <==> !((old(connected) || connects) && Forgets(i, FlushRun(before, outcomes, others), config.onlyDirty))
      ensures before == [] && others == [] ==> Mirrored(Outputs()) && outBytes == old(outBytes)
      ensures before == [] && others == [] && ok ==> Wire() == outBytes
      ensures ok && config.inputBase + config.inputWords <= 65536 ==>
              inBytes == RegisterBytes(Area(m, InputCode(), config.inputBase, config.inputWords))
    {
      hide Flush, Mirrored, Forgets, ReadFrom, Area, AllAnswered, AreaBytes, Reconnect;
      ok := EnsureConnected(connects, gateway);
      if !ok {
        haveData := false;
        return;
      }
      ghost var i := Outputs();
      MirroredAfterConnecting(old(Outputs()), old(connected), gateway);
      FlushStep(i, config.onlyDirty, before, outcomes, others);
      QuietFlush(i, config.onlyDirty, outcomes);
      ok := FlushOutputs(before, outcomes, others, drops);
      if ok {
        ok := ReadInputs(m, answered, drops);
      }
      if ok {
        ok := ReadStatus(m, statusAnswered, drops);
      }
      online := ok;
    }

    lemma MirroredAfterConnecting(i: Image, same: bool, gateway: Memory)
      requires Mirrored(i) && |i.staged| == 2 * config.outputWords
      ensures Mirrored(AfterConnecting(i, same, gateway))
    {
      if !same {
        ReconnectMirrors(i, AreaBytes(gateway, config.outputBase, config.outputWords));
      }
    }
  }

  lemma SliceOfSlice<T>(s: seq<T>, a: nat, n: nat)
    requires a + n <= |s|
    ensures s[a..][..n] == s[a..a + n] && s[a..][n..] == s[a + n..]
  {}

  lemma SendEnd(i: Image, regs: seq<Word>, at: nat, outcomes: seq<Outcome>, others: seq<seq<Write>>, n: nat)
    requires i.Valid() && regs == [] && at <= |i.wire| && OthersInside(others, |i.wire|)
    ensures SendFrom(i, regs, at, outcomes, others, n) == Flushed(true, i)
  {}

  lemma SendStep(i: Image, regs: seq<Word>, at: nat, outcomes: seq<Outcome>, others: seq<seq<Write>>, n: nat)
    requires i.Valid() && regs != [] && at + 2 * |regs| <= |i.wire| && OthersInside(others, |i.wire|)
    ensures 1 <= ChunkSize(|regs|) <= MAX_WRITE && ChunkSize(|regs|) <= |regs| && AllInside(During(others, n), |i.wire|)
    ensures var size := ChunkSize(|regs|);
      SendFrom(i, regs, at, outcomes, others, n)
      == if n >= |outcomes| || outcomes[n] == NotApplied then Flushed(false, i)
         else if outcomes[n] == ReplyLost then Flushed(false, Land(i, at, regs[..size]))
         else SendFrom(StageAll(Land(i, at, regs[..size]), During(others, n)), regs[size..], at + 2 * size, outcomes,
                       others, n + 1)
  {}
}
