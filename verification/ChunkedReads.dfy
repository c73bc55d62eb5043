/** Reading an area of the gateway chunk by chunk: what the loop of read_inputs() and read_status()
    amounts to, for areas inside the 16-bit register range and for areas that run past it. */
module ChunkedReads {
  import opened Options
  import opened Bytes
  import opened Modbus

  const MAX_READ_REGISTERS := 125

  /** What the client makes of the gateway's answer to one chunk. */
  function ServedChunk(m: Memory, fc: Byte, address: Word, count: Word): (r: Option<seq<Word>>)
    requires fc == READ_HOLDING || fc == READ_INPUT
    ensures r.Some? ==> |r.value| == count
  {
    var reply := Serve(m, ReadRequest(fc, address, count)).reply;
    if reply == [] || reply[0] != fc then None
    else
      var r := DecodeRegisters(reply[1..], count);
      if r.0 == Status.Ok then Some(r.1) else None
  }

  function Bank(m: Memory, fc: Byte): Registers { if fc == READ_HOLDING then m.holding else m.inputs }

  /** The registers of one area of the gateway. */
  function Area(m: Memory, fc: Byte, base: Word, count: nat): (registers: seq<Word>)
    requires base + count <= 65536
    ensures |registers| == count
  {
    Bank(m, fc)[base..base + count]
  }

  lemma ServedChunkIs(m: Memory, fc: Byte, address: Word, count: Word)
    requires fc == READ_HOLDING || fc == READ_INPUT
    requires 1 <= count <= MAX_READ_REGISTERS && address + count <= 65536
    ensures ServedChunk(m, fc, address, count) == Some(Bank(m, fc)[address..address + count])
  {
    hide Serve, DecodeRegisters;
    ReadIdentity(m, fc, address, count);
  }

  /** The chunks from `got` on; `answered[n]` says whether chunk n is answered at all. Addresses are 16 bits. */
  function ReadFrom(m: Memory, fc: Byte, base: Word, count: nat, got: nat, answered: seq<bool>, n: nat): (r: Option<seq<Word>>)
    requires (fc == READ_HOLDING || fc == READ_INPUT) && got <= count
    ensures r.Some? ==> |r.value| == count - got
    decreases count - got
  {
    if got == count then Some([])
    else
      var chunk := ReadChunk(count - got);
      if n >= |answered| || !answered[n] then None
      else
        var part := ServedChunk(m, fc, (base + got) % 65536, chunk);
        if part.None? then None
        else
          var rest := ReadFrom(m, fc, base, count, got + chunk, answered, n + 1);
          if rest.None? then None else Some(part.value + rest.value)
  }

  function ReadChunk(left: nat): (chunk: nat)
    requires left > 0
    ensures 1 <= chunk <= left && chunk <= MAX_READ_REGISTERS
  {
    if left < MAX_READ_REGISTERS then left else MAX_READ_REGISTERS
  }

  predicate AllAnswered(answered: seq<bool>, chunks: nat) {
    |answered| >= chunks && forall k | 0 <= k < |answered| :: answered[k]
  }

  lemma JoinSlices<T>(s: seq<T>, a: nat, b: nat, c: nat)
    requires a <= b <= c <= |s|
    ensures s[a..b] + s[b..c] == s[a..c]
  {}

  /** For any area that ends within the 16-bit address range, the chunks read amount to the whole area;
      and if every chunk is answered, they are read. */
  lemma {:induction false} ReadsWholeArea(m: Memory, fc: Byte, base: Word, count: nat, got: nat, answered: seq<bool>, n: nat)
    requires (fc == READ_HOLDING || fc == READ_INPUT) && got <= count && base + count <= 65536
    ensures var r := ReadFrom(m, fc, base, count, got, answered, n);
      && (r.Some? ==> r.value == Bank(m, fc)[base + got..base + count])
      && (AllAnswered(answered, n + (count - got)) ==> r.Some?)
    decreases count - got
  {
    hide ServedChunk, Bank, ReadChunk;
    if got < count {
      var chunk := ReadChunk(count - got);
      SmallAddress(base + got);
      ServedChunkIs(m, fc, base + got, chunk);
      ReadsWholeArea(m, fc, base, count, got + chunk, answered, n + 1);
      JoinSlices(Bank(m, fc), base + got, base + got + chunk, base + count);
    }
  }

  lemma AreaRead(m: Memory, fc: Byte, base: Word, count: nat, answered: seq<bool>)
    requires (fc == READ_HOLDING || fc == READ_INPUT) && base + count <= 65536
    ensures var r := ReadFrom(m, fc, base, count, 0, answered, 0);
      && (r.Some? ==> r.value == Area(m, fc, base, count))
      && (AllAnswered(answered, count) ==> r.Some?)
  {
    hide ReadFrom, AllAnswered, Bank;
    ReadsWholeArea(m, fc, base, count, 0, answered, 0);
  }

  lemma SmallAddress(a: nat)
    requires a < 65536
    ensures a % 65536 == a
  {}

  function Prefixed(regs: seq<Word>, rest: Option<seq<Word>>): Option<seq<Word>> {
    if rest.None? then None else Some(regs + rest.value)
  }

  function Part(m: Memory, fc: Byte, address: Word, chunk: Word, answered: bool): Option<seq<Word>>
    requires fc == READ_HOLDING || fc == READ_INPUT
  {
    if answered then ServedChunk(m, fc, address, chunk) else None
  }

  lemma PrefixedNothing(r: Option<seq<Word>>)
    ensures Prefixed([], r) == r
  {
    assert r.Some? ==> [] + r.value == r.value;
  }

  lemma ReadEnd(m: Memory, fc: Byte, base: Word, count: nat, answered: seq<bool>, n: nat, regs: seq<Word>)
    requires fc == READ_HOLDING || fc == READ_INPUT
    ensures Prefixed(regs, ReadFrom(m, fc, base, count, count, answered, n)) == Some(regs)
  {
    assert regs + [] == regs;
  }

  lemma ReadStep(m: Memory, fc: Byte, base: Word, count: nat, got: nat, answered: seq<bool>, n: nat, regs: seq<Word>)
    requires (fc == READ_HOLDING || fc == READ_INPUT) && got < count
    ensures var chunk := ReadChunk(count - got);
      var part := Part(m, fc, (base + got) % 65536, chunk, n < |answered| && answered[n]);
      Prefixed(regs, ReadFrom(m, fc, base, count, got, answered, n))
      == if part.None? then None
         else Prefixed(regs + part.value, ReadFrom(m, fc, base, count, got + chunk, answered, n + 1))
  {
    hide ServedChunk, ReadChunk;
    var chunk := ReadChunk(count - got);
    var part := Part(m, fc, (base + got) % 65536, chunk, n < |answered| && answered[n]);
    var rest := ReadFrom(m, fc, base, count, got + chunk, answered, n + 1);
    if part.Some? && rest.Some? {
      assert regs + (part.value + rest.value) == (regs + part.value) + rest.value;
    }
  }

  // ---------------------------------------------------------------- areas that run past the last register

  /** A chunk that would run past register 65535 is refused by the gateway. */
  lemma StraddlingChunkFails(m: Memory, fc: Byte, address: Word, count: Word)
    requires fc == READ_HOLDING || fc == READ_INPUT
    requires 1 <= count <= MAX_READ_REGISTERS && address + count > 65536
    ensures ServedChunk(m, fc, address, count).None?
  {
    ReadRequestWords(fc, address, count);
    hide ReadRequest, WordAt, Serve, DecodeRegisters, RegisterReply;
    Dispatch(m, ReadRequest(fc, address, count));
  }

  /** Only the address of the next chunk and what is left matter. */
  lemma {:induction false} SameRest(m: Memory, fc: Byte, base: Word, count: nat, got: nat, count2: nat,
                                    got2: nat, base2: Word, answered: seq<bool>, n: nat)
    requires (fc == READ_HOLDING || fc == READ_INPUT) && got <= count && got2 <= count2
    requires count - got == count2 - got2 && (base + got == base2 + got2 || base + got == 65536 + base2 + got2)
    ensures ReadFrom(m, fc, base, count, got, answered, n) == ReadFrom(m, fc, base2, count2, got2, answered, n)
    decreases count - got
  {
    hide ServedChunk, ReadChunk;
    if got < count {
      var chunk := ReadChunk(count - got);
      assert (base + got) % 65536 == (base2 + got2) % 65536;
      SameRest(m, fc, base, count, got + chunk, count2, got2 + chunk, base2, answered, n + 1);
    }
  }

  /** An area that runs past register 65535 can be read only when a chunk happens to end exactly there;
      what follows is then read from register 0 on. Then, if every chunk is answered, it is read. */
  lemma {:induction false} ReadsPastTheEnd(m: Memory, fc: Byte, base: Word, count: nat, got: nat, answered: seq<bool>,
                                           n: nat)
    requires (fc == READ_HOLDING || fc == READ_INPUT) && got <= count && count < 65536
    requires base + got <= 65536 < base + count
    ensures var r, bank := ReadFrom(m, fc, base, count, got, answered, n), Bank(m, fc);
      && (r.Some? ==> (65536 - base - got) % MAX_READ_REGISTERS == 0)
      && (r.Some? ==> r.value == bank[base + got..65536] + bank[..base + count - 65536])
      && (AllAnswered(answered, n + (count - got)) && (65536 - base - got) % MAX_READ_REGISTERS == 0 ==> r.Some?)
    decreases count - got
  {
    hide ServedChunk, Bank;
    var bank := Bank(m, fc);
    if base + got == 65536 {
      SameRest(m, fc, base, count, got, count - got, 0, 0, answered, n);
      ReadsWholeArea(m, fc, 0, count - got, 0, answered, n);
      assert bank[base + got..65536] == [] && [] + bank[..base + count - 65536] == bank[..base + count - 65536];
    } else {
      var chunk := ReadChunk(count - got);
      SmallAddress(base + got);
      if base + got + chunk > 65536 {
        StraddlingChunkFails(m, fc, base + got, chunk);
      } else {
        ServedChunkIs(m, fc, base + got, chunk);
        assert chunk == MAX_READ_REGISTERS || base + got + chunk == base + count;
        ReadsPastTheEnd(m, fc, base, count, got + chunk, answered, n + 1);
        JoinSlices(bank, base + got, base + got + chunk, 65536);
        Regroup(bank[base + got..base + got + chunk], bank[base + got + chunk..65536], bank[..base + count - 65536]);
      }
    }
  }

  lemma Regroup(a: seq<Word>, b: seq<Word>, c: seq<Word>)
    ensures a + (b + c) == (a + b) + c
  {}
}
