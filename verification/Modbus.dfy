/** Modbus over TCP: the requests the client encodes, the MBAP framing, and a server that answers as the
    MODBUS Application Protocol Specification V1.1b3 prescribes (sections 6.3, 6.4, 6.6, 6.12 and 6.17,
    exceptions per section 7). The lemmas run one through the other. */
module Modbus {
  import opened Bytes

  const READ_HOLDING: Byte := 0x03
  const READ_INPUT: Byte := 0x04
  const WRITE_SINGLE: Byte := 0x06
  const WRITE_MULTIPLE: Byte := 0x10
  const READ_WRITE: Byte := 0x17

  const MAX_READ := 125
  const MAX_WRITE := 123
  const MAX_READ_WRITE := 121

  // ---------------------------------------------------------------- requests

  function WordAt(bytes: seq<Byte>, i: nat): Word
    requires i + 2 <= |bytes|
  {
    JoinBytes(bytes[i], bytes[i + 1])
  }

  function ReadRequest(fc: Byte, address: Word, count: Word): seq<Byte> {
    [fc, HighByte(address), LowByte(address), HighByte(count), LowByte(count)]
  }

  function WriteSingleRequest(address: Word, value: Word): seq<Byte> {
    [WRITE_SINGLE, HighByte(address), LowByte(address), HighByte(value), LowByte(value)]
  }

  function WriteMultipleRequest(address: Word, values: seq<Word>): seq<Byte>
    requires |values| <= MAX_WRITE
  {
    WriteMultipleHead(address, |values|) + RegisterBytes(values)
  }

  function WriteMultipleHead(address: Word, count: Word): (head: seq<Byte>)
    requires count <= MAX_WRITE
    ensures |head| == 6
  {
    [WRITE_MULTIPLE, HighByte(address), LowByte(address), HighByte(count), LowByte(count), 2 * count]
  }

  /** FC 6 for a single register, FC 16 for more. */
  function WriteRequest(address: Word, values: seq<Word>): (pdu: seq<Byte>)
    requires 1 <= |values| <= MAX_WRITE
    ensures pdu != [] && pdu[0] < 128
  {
    if |values| == 1 then WriteSingleRequest(address, values[0]) else WriteMultipleRequest(address, values)
  }

  function ReadWriteRequest(readAddress: Word, readCount: Word, writeAddress: Word, values: seq<Word>): seq<Byte>
    requires |values| <= MAX_READ_WRITE
  {
    ReadWriteHead(readAddress, readCount, writeAddress, |values|) + RegisterBytes(values)
  }

  function ReadWriteHead(readAddress: Word, readCount: Word, writeAddress: Word, writeCount: Word): (head: seq<Byte>)
    requires writeCount <= MAX_READ_WRITE
    ensures |head| == 10
  {
    [READ_WRITE, HighByte(readAddress), LowByte(readAddress), HighByte(readCount), LowByte(readCount),
     HighByte(writeAddress), LowByte(writeAddress), HighByte(writeCount), LowByte(writeCount), 2 * writeCount]
  }

  // ---------------------------------------------------------------- the server

  type Registers = r: seq<Word> | |r| == 65536 witness seq(65536, _ => 0)

  datatype Memory = Memory(holding: Registers, inputs: Registers)

  datatype Served = Served(memory: Memory, reply: seq<Byte>)

  const ILLEGAL_FUNCTION: Byte := 1
  const ILLEGAL_ADDRESS: Byte := 2
  const ILLEGAL_VALUE: Byte := 3

  function Exception(m: Memory, fc: Byte, code: Byte): Served
    requires fc < 128
  {
    Served(m, [fc + 128, code])
  }

  /** The reply to a read: a byte count, then the registers high byte first. */
  function RegisterReply(fc: Byte, registers: seq<Word>): (reply: seq<Byte>)
    requires |registers| <= MAX_READ
    ensures |reply| == 2 + 2 * |registers| && reply[0] == fc
  {
    [fc, 2 * |registers|] + RegisterBytes(registers)
  }

  function ServeRead(m: Memory, fc: Byte, registers: Registers, pdu: seq<Byte>): Served
    requires fc < 128
  {
    if |pdu| != 5 then Exception(m, fc, ILLEGAL_VALUE)
    else
      var address, count := WordAt(pdu, 1), WordAt(pdu, 3);
      if !(1 <= count <= MAX_READ) then Exception(m, fc, ILLEGAL_VALUE)
      else if address + count > 65536 then Exception(m, fc, ILLEGAL_ADDRESS)
      else Served(m, RegisterReply(fc, registers[address..address + count]))
  }

  function ServeWriteSingle(m: Memory, pdu: seq<Byte>): Served {
    if |pdu| != 5 then Exception(m, WRITE_SINGLE, ILLEGAL_VALUE)
    else Served(m.(holding := m.holding[WordAt(pdu, 1) := WordAt(pdu, 3)]), pdu)
  }

  function ServeWriteMultiple(m: Memory, pdu: seq<Byte>): Served {
    if |pdu| < 6 then Exception(m, WRITE_MULTIPLE, ILLEGAL_VALUE)
    else
      var address, count := WordAt(pdu, 1), WordAt(pdu, 3);
      if !(1 <= count <= MAX_WRITE) || pdu[5] != 2 * count || |pdu| != 6 + 2 * count then
        Exception(m, WRITE_MULTIPLE, ILLEGAL_VALUE)
      else if address + count > 65536 then Exception(m, WRITE_MULTIPLE, ILLEGAL_ADDRESS)
      else Served(m.(holding := Overlay(m.holding, address, RegistersAt(pdu, count, 6))), pdu[..5])
  }

  /** The write is performed before the read. */
  function ServeReadWrite(m: Memory, pdu: seq<Byte>): Served {
    if |pdu| < 10 then Exception(m, READ_WRITE, ILLEGAL_VALUE)
    else
      var readAddress, readCount := WordAt(pdu, 1), WordAt(pdu, 3);
      var writeAddress, writeCount := WordAt(pdu, 5), WordAt(pdu, 7);
      if !(1 <= readCount <= MAX_READ) || !(1 <= writeCount <= MAX_READ_WRITE) || pdu[9] != 2 * writeCount
         || |pdu| != 10 + 2 * writeCount then Exception(m, READ_WRITE, ILLEGAL_VALUE)
      else if readAddress + readCount > 65536 || writeAddress + writeCount > 65536 then
        Exception(m, READ_WRITE, ILLEGAL_ADDRESS)
      else
        var holding := Overlay(m.holding, writeAddress, RegistersAt(pdu, writeCount, 10));
        Served(m.(holding := holding), RegisterReply(READ_WRITE, holding[readAddress..readAddress + readCount]))
  }

  function Serve(m: Memory, pdu: seq<Byte>): Served
    requires pdu != [] && pdu[0] < 128
  {
    if pdu[0] == READ_HOLDING then ServeRead(m, READ_HOLDING, m.holding, pdu)
    else if pdu[0] == READ_INPUT then ServeRead(m, READ_INPUT, m.inputs, pdu)
    else if pdu[0] == WRITE_SINGLE then ServeWriteSingle(m, pdu)
    else if pdu[0] == WRITE_MULTIPLE then ServeWriteMultiple(m, pdu)
    else if pdu[0] == READ_WRITE then ServeReadWrite(m, pdu)
    else Exception(m, pdu[0], ILLEGAL_FUNCTION)
  }

  // ---------------------------------------------------------------- decoding a reply

  datatype Status = Ok | NotConnected | SocketError | Timeout | ProtocolError | ModbusException(code: Byte) | BadArgument

  /** The registers in the payload of a read reply: a byte count, then high byte first. */
  function DecodeRegisters(payload: seq<Byte>, count: nat): (r: (Status, seq<Word>)) {
    if |payload| < 1 + 2 * count || payload[0] != 2 * count then (ProtocolError, [])
    else (Status.Ok, RegistersAt(payload, count, 1))
  }

  lemma WordSplit(w: Word)
    ensures JoinBytes(HighByte(w), LowByte(w)) == w
  {}

  lemma DecodeOfReply(fc: Byte, registers: seq<Word>)
    requires |registers| <= MAX_READ
    ensures DecodeRegisters(RegisterReply(fc, registers)[1..], |registers|) == (Status.Ok, registers)
  {
    var bytes := RegisterBytes(registers);
    var payload := [2 * |registers|] + bytes;
    assert RegisterReply(fc, registers)[1..] == payload;
    assert Overlay(payload, 1, bytes) == payload;
    StoreOfLoad(payload, registers, 1);
  }

  /** The function code decides which service answers. */
  lemma Dispatch(m: Memory, pdu: seq<Byte>)
    requires pdu != [] && pdu[0] < 128
    ensures pdu[0] == READ_HOLDING ==> Serve(m, pdu) == ServeRead(m, READ_HOLDING, m.holding, pdu)
    ensures pdu[0] == READ_INPUT ==> Serve(m, pdu) == ServeRead(m, READ_INPUT, m.inputs, pdu)
    ensures pdu[0] == WRITE_SINGLE ==> Serve(m, pdu) == ServeWriteSingle(m, pdu)
    ensures pdu[0] == WRITE_MULTIPLE ==> Serve(m, pdu) == ServeWriteMultiple(m, pdu)
    ensures pdu[0] == READ_WRITE ==> Serve(m, pdu) == ServeReadWrite(m, pdu)
  {
    hide ServeRead, ServeWriteSingle, ServeWriteMultiple, ServeReadWrite;
  }

  lemma ReadRequestWords(fc: Byte, address: Word, count: Word)
    ensures var pdu := ReadRequest(fc, address, count);
      |pdu| == 5 && pdu[0] == fc && WordAt(pdu, 1) == address && WordAt(pdu, 3) == count
  {
    WordSplit(address);
    WordSplit(count);
  }

  /** Reading: for every legal count and address the registers decoded from the server's reply are the
      server's registers, and nothing is written. */
  lemma ReadIdentity(m: Memory, fc: Byte, address: Word, count: Word)
    requires fc == READ_HOLDING || fc == READ_INPUT
    requires 1 <= count <= 125 && address + count <= 65536
    ensures var served := Serve(m, ReadRequest(fc, address, count));
      && served.memory == m && |served.reply| == 2 + 2 * count && served.reply[0] == fc
      && DecodeRegisters(served.reply[1..], count)
         == (Status.Ok, (if fc == READ_HOLDING then m.holding else m.inputs)[address..address + count])
  {
    ReadRequestWords(fc, address, count);
    hide ReadRequest, WordAt, RegisterReply, DecodeRegisters, Serve;
    Dispatch(m, ReadRequest(fc, address, count));
    DecodeOfReply(fc, (if fc == READ_HOLDING then m.holding else m.inputs)[address..address + count]);
  }

  lemma WriteSingleIdentity(m: Memory, address: Word, value: Word)
    ensures Serve(m, WriteSingleRequest(address, value))
            == Served(m.(holding := Overlay(m.holding, address, [value])), WriteSingleRequest(address, value))
  {
    WordSplit(address);
    WordSplit(value);
    Dispatch(m, WriteSingleRequest(address, value));
    assert Overlay(m.holding, address, [value]) == m.holding[address := value];
  }

  lemma RegistersInRequest(head: seq<Byte>, values: seq<Word>)
    ensures RegistersAt(head + RegisterBytes(values), |values|, |head|) == values
  {
    var pdu := head + RegisterBytes(values);
    assert Overlay(pdu, |head|, RegisterBytes(values)) == pdu;
    StoreOfLoad(pdu, values, |head|);
  }

  lemma HeadWords(head: seq<Byte>, tail: seq<Byte>, i: nat, w: Word)
    requires i + 2 <= |head| && head[i] == HighByte(w) && head[i + 1] == LowByte(w)
    ensures WordAt(head + tail, i) == w
  {}

  lemma WriteMultipleWords(address: Word, values: seq<Word>)
    requires |values| <= MAX_WRITE
    ensures var pdu := WriteMultipleRequest(address, values);
      && |pdu| == 6 + 2 * |values| && pdu[0] == WRITE_MULTIPLE && pdu[5] == 2 * |values|
      && WordAt(pdu, 1) == address && WordAt(pdu, 3) == |values| && RegistersAt(pdu, |values|, 6) == values
  {
    var head := WriteMultipleHead(address, |values|);
    RegistersInRequest(head, values);
    HeadWords(head, RegisterBytes(values), 1, address);
    HeadWords(head, RegisterBytes(values), 3, |values|);
    hide WordAt, RegistersAt, RegisterBytes;
  }

  /** Writing: the server's registers at the address become exactly the values, and no other changes. */
  lemma WriteMultipleIdentity(m: Memory, address: Word, values: seq<Word>)
    requires 1 <= |values| <= 123 && address + |values| <= 65536
    ensures var served := Serve(m, WriteMultipleRequest(address, values));
      && served.memory == m.(holding := Overlay(m.holding, address, values))
      && |served.reply| == 5 && served.reply[0] == WRITE_MULTIPLE
  {
    WriteMultipleWords(address, values);
    hide WordAt, RegistersAt, RegisterBytes, Overlay, WriteMultipleRequest, Serve;
    Dispatch(m, WriteMultipleRequest(address, values));
  }

  lemma ReadWriteWords(readAddress: Word, readCount: Word, writeAddress: Word, values: seq<Word>)
    requires |values| <= MAX_READ_WRITE
    ensures var pdu := ReadWriteRequest(readAddress, readCount, writeAddress, values);
      && |pdu| == 10 + 2 * |values| && pdu[0] == READ_WRITE && pdu[9] == 2 * |values|
      && WordAt(pdu, 1) == readAddress && WordAt(pdu, 3) == readCount
      && WordAt(pdu, 5) == writeAddress && WordAt(pdu, 7) == |values| && RegistersAt(pdu, |values|, 10) == values
  {
    var head, bytes := ReadWriteHead(readAddress, readCount, writeAddress, |values|), RegisterBytes(values);
    RegistersInRequest(head, values);
    HeadWords(head, bytes, 1, readAddress);
    HeadWords(head, bytes, 3, readCount);
    HeadWords(head, bytes, 5, writeAddress);
    HeadWords(head, bytes, 7, |values|);
    hide WordAt, RegistersAt, RegisterBytes;
  }

  /** Reading and writing in one exchange: the write is as above, the registers decoded are those after it. */
  lemma ReadWriteIdentity(m: Memory, readAddress: Word, readCount: Word, writeAddress: Word, values: seq<Word>)
    requires 1 <= readCount <= 125 && readAddress + readCount <= 65536
    requires 1 <= |values| <= 121 && writeAddress + |values| <= 65536
    ensures var served := Serve(m, ReadWriteRequest(readAddress, readCount, writeAddress, values));
      && served.memory == m.(holding := Overlay(m.holding, writeAddress, values))
      && |served.reply| == 2 + 2 * readCount && served.reply[0] == READ_WRITE
      && DecodeRegisters(served.reply[1..], readCount)
         == (Status.Ok, served.memory.holding[readAddress..readAddress + readCount])
  {
    hide Overlay, Serve, RegisterReply, DecodeRegisters, ReadWriteRequest;
    ReadWriteServed(m, readAddress, readCount, writeAddress, values);
    DecodeOfReply(READ_WRITE, Overlay(m.holding, writeAddress, values)[readAddress..readAddress + readCount]);
  }

  lemma ReadWriteServed(m: Memory, readAddress: Word, readCount: Word, writeAddress: Word, values: seq<Word>)
    requires 1 <= readCount <= 125 && readAddress + readCount <= 65536
    requires 1 <= |values| <= 121 && writeAddress + |values| <= 65536
    ensures var holding := Overlay(m.holding, writeAddress, values);
      Serve(m, ReadWriteRequest(readAddress, readCount, writeAddress, values))
      == Served(m.(holding := holding), RegisterReply(READ_WRITE, holding[readAddress..readAddress + readCount]))
  {
    ReadWriteWords(readAddress, readCount, writeAddress, values);
    hide Overlay, Serve, RegisterReply, WordAt, RegistersAt, ReadWriteRequest;
    Dispatch(m, ReadWriteRequest(readAddress, readCount, writeAddress, values));
  }

  /** The server answers an address range past register 65535 with exception 2, and a count that its PDU
      cannot hold with exception 3, and changes nothing. */
  lemma ReadRefusals(m: Memory, fc: Byte, pdu: seq<Byte>)
    requires (fc == 0x03 || fc == 0x04) && |pdu| == 5 && pdu[0] == fc
    ensures WordAt(pdu, 3) == 0 || 125 < WordAt(pdu, 3) ==> Serve(m, pdu) == Served(m, [fc + 0x80, 3])
    ensures 1 <= WordAt(pdu, 3) <= 125 && 65536 < WordAt(pdu, 1) + WordAt(pdu, 3) ==>
              Serve(m, pdu) == Served(m, [fc + 0x80, 2])
  {
    hide WordAt, RegisterReply;
    Dispatch(m, pdu);
  }

  lemma WriteRefusals(m: Memory, pdu: seq<Byte>)
    requires |pdu| >= 6 && pdu[0] == 0x10
    ensures WordAt(pdu, 3) == 0 || 123 < WordAt(pdu, 3) ==> Serve(m, pdu) == Served(m, [0x90, 3])
    ensures (&& 1 <= WordAt(pdu, 3) <= 123 && pdu[5] == 2 * WordAt(pdu, 3) && |pdu| == 6 + 2 * WordAt(pdu, 3)
             && 65536 < WordAt(pdu, 1) + WordAt(pdu, 3)) ==> Serve(m, pdu) == Served(m, [0x90, 2])
  {
    hide WordAt, RegistersAt;
    Dispatch(m, pdu);
  }

  lemma ReadWriteRefusals(m: Memory, pdu: seq<Byte>)
    requires |pdu| >= 10 && pdu[0] == 0x17
    ensures WordAt(pdu, 3) == 0 || 125 < WordAt(pdu, 3) || WordAt(pdu, 7) == 0 || 121 < WordAt(pdu, 7)
            ==> Serve(m, pdu) == Served(m, [0x97, 3])
    ensures (&& 1 <= WordAt(pdu, 3) <= 125 && 1 <= WordAt(pdu, 7) <= 121 && pdu[9] == 2 * WordAt(pdu, 7)
             && |pdu| == 10 + 2 * WordAt(pdu, 7)
             && (65536 < WordAt(pdu, 1) + WordAt(pdu, 3) || 65536 < WordAt(pdu, 5) + WordAt(pdu, 7)))
            ==> Serve(m, pdu) == Served(m, [0x97, 2])
  {
    hide WordAt, RegistersAt;
    Dispatch(m, pdu);
  }

  // ---------------------------------------------------------------- MBAP frames

  /** One application data unit (section 3.1.3 of the Messaging Implementation Guide): the PDU of at
      least one and at most 253 bytes behind a seven-byte header. */
  datatype Frame = Frame(tid: Word, unit: Byte, pdu: seq<Byte>) {
    predicate Valid() { 1 <= |pdu| <= 253 }
  }

  function FrameBytes(f: Frame): (bytes: seq<Byte>)
    requires f.Valid()
    ensures |bytes| == 7 + |f.pdu|
  {
    Header(f.tid, |f.pdu| + 1, f.unit) + f.pdu
  }

  function Header(tid: Word, length: Word, unit: Byte): (header: seq<Byte>)
    ensures |header| == 7
  {
    [HighByte(tid), LowByte(tid), 0, 0, HighByte(length), LowByte(length), unit]
  }

  predicate AllValid(frames: seq<Frame>) { forall i | 0 <= i < |frames| :: frames[i].Valid() }

  function Stream(frames: seq<Frame>): seq<Byte>
    requires AllValid(frames)
  {
    if frames == [] then [] else FrameBytes(frames[0]) + Stream(frames[1..])
  }

  datatype Parsed = Whole(frame: Frame, rest: seq<Byte>) | Incomplete | Malformed(rest: seq<Byte>)

  predicate HeaderOk(stream: seq<Byte>)
    requires |stream| >= 7
  {
    WordAt(stream, 2) == 0 && 2 <= WordAt(stream, 4) <= 254
  }

  /** Take one frame off the front of the stream. */
  function ParseFrame(stream: seq<Byte>): (p: Parsed)
    ensures p.Whole? ==> p.frame.Valid() && |p.rest| < |stream|
  {
    if |stream| < 7 then Incomplete
    else if !HeaderOk(stream) then Malformed(stream[7..])
    else
      var size := WordAt(stream, 4) - 1;
      if |stream| < 7 + size then Incomplete
      else Whole(Frame(WordAt(stream, 0), stream[6], stream[7..7 + size]), stream[7 + size..])
  }

  /** Fewer than seven bytes, or fewer than a sound header announces, are an incomplete frame; a header with
      another protocol, or a length that no PDU has, is dropped as broken. */
  lemma OtherThanWhole(stream: seq<Byte>)
    ensures |stream| < 7 ==> ParseFrame(stream) == Incomplete
    ensures |stream| >= 7 ==>
              var length := 256 * (stream[4] as nat) + stream[5];
              if stream[2] != 0 || stream[3] != 0 || length < 2 || 254 < length
              then ParseFrame(stream) == Malformed(stream[7..])
              else ParseFrame(stream) == Incomplete <==> |stream| < 6 + length
  {}

  lemma HeaderWords(tid: Word, length: Word, unit: Byte, tail: seq<Byte>)
    ensures var s := Header(tid, length, unit) + tail;
      WordAt(s, 0) == tid && WordAt(s, 2) == 0 && WordAt(s, 4) == length && s[6] == unit && s[7..] == tail
  {
    var header := Header(tid, length, unit);
    HeadWords(header, tail, 0, tid);
    HeadWords(header, tail, 4, length);
    HeadWords(header, tail, 2, 0);
  }

  lemma Behind(h: seq<Byte>, p: seq<Byte>, r: seq<Byte>)
    ensures (h + p) + r == h + (p + r) && |h + (p + r)| == |h| + |p| + |r|
    ensures (h + (p + r))[|h|..|h| + |p|] == p && (h + (p + r))[|h| + |p|..] == r
  {}

  lemma ParseOfFrame(f: Frame, rest: seq<Byte>)
    requires f.Valid()
    ensures ParseFrame(FrameBytes(f) + rest) == Whole(f, rest)
  {
    HeaderWords(f.tid, |f.pdu| + 1, f.unit, f.pdu + rest);
    Behind(Header(f.tid, |f.pdu| + 1, f.unit), f.pdu, rest);
    ParseByWords(Header(f.tid, |f.pdu| + 1, f.unit) + (f.pdu + rest), |f.pdu|);
  }

  lemma ParseByWords(stream: seq<Byte>, size: nat)
    requires |stream| >= 7 + size && WordAt(stream, 2) == 0 && WordAt(stream, 4) == size + 1 && 1 <= size <= 253
    ensures ParseFrame(stream) == Whole(Frame(WordAt(stream, 0), stream[6], stream[7..7 + size]), stream[7 + size..])
  {
    hide WordAt;
  }

  lemma JoinSplit(high: Byte, low: Byte)
    ensures HighByte(JoinBytes(high, low)) == high && LowByte(JoinBytes(high, low)) == low
  {}

  lemma ZeroWord(high: Byte, low: Byte)
    requires JoinBytes(high, low) == 0
    ensures high == 0 && low == 0
  {}

  lemma HeaderOfWords(stream: seq<Byte>)
    requires |stream| >= 7 && WordAt(stream, 2) == 0
    ensures stream[..7] == Header(WordAt(stream, 0), WordAt(stream, 4), stream[6])
  {
    FirstSeven(stream);
    JoinSplit(stream[0], stream[1]);
    JoinSplit(stream[4], stream[5]);
    ZeroWord(stream[2], stream[3]);
    hide HighByte, LowByte, JoinBytes;
  }

  lemma FirstSeven(stream: seq<Byte>)
    requires |stream| >= 7
    ensures stream[..7] == [stream[0], stream[1], stream[2], stream[3], stream[4], stream[5], stream[6]]
  {}

  lemma Cut(stream: seq<Byte>, n: nat)
    requires 7 + n <= |stream|
    ensures stream == (stream[..7] + stream[7..7 + n]) + stream[7 + n..]
  {}

  lemma FrameOfParse(stream: seq<Byte>)
    requires ParseFrame(stream).Whole?
    ensures stream == FrameBytes(ParseFrame(stream).frame) + ParseFrame(stream).rest
  {
    hide WordAt, Header;
    HeaderOfWords(stream);
    Cut(stream, WordAt(stream, 4) - 1);
  }

  /** The bytes of one request on the wire, as the Messaging Implementation Guide (section 3.1.3) lays them
      out: transaction id, protocol 0, length, unit, then the function code and what follows it. */
  function Wire(tid: Word, unit: Byte, body: seq<Byte>): seq<Byte>
    requires |body| <= 253
  {
    [tid / 256, tid % 256, 0, 0, (|body| + 1) / 256, (|body| + 1) % 256, unit] + body
  }

  /** Every request goes out with its own function code, and with its words most significant byte first. */
  lemma WireOfRequests(tid: Word, unit: Byte, a: Word, b: Word)
    ensures FrameBytes(Frame(tid, unit, ReadRequest(READ_HOLDING, a, b)))
            == Wire(tid, unit, [0x03, a / 256, a % 256, b / 256, b % 256])
    ensures FrameBytes(Frame(tid, unit, ReadRequest(READ_INPUT, a, b)))
            == Wire(tid, unit, [0x04, a / 256, a % 256, b / 256, b % 256])
    ensures FrameBytes(Frame(tid, unit, WriteSingleRequest(a, b)))
            == Wire(tid, unit, [0x06, a / 256, a % 256, b / 256, b % 256])
  {}

  lemma WireOfMultiple(tid: Word, unit: Byte, address: Word, values: seq<Word>)
    requires |values| <= MAX_WRITE
    ensures FrameBytes(Frame(tid, unit, WriteMultipleRequest(address, values)))
            == Wire(tid, unit, [0x10, address / 256, address % 256, 0, |values|, 2 * |values|] + RegisterBytes(values))
  {}

  lemma WireOfReadWrite(tid: Word, unit: Byte, readAddress: Word, readCount: Word, writeAddress: Word, values: seq<Word>)
    requires |values| <= MAX_READ_WRITE
    ensures FrameBytes(Frame(tid, unit, ReadWriteRequest(readAddress, readCount, writeAddress, values)))
            == Wire(tid, unit, [0x17, readAddress / 256, readAddress % 256, readCount / 256, readCount % 256,
                                writeAddress / 256, writeAddress % 256, 0, |values|, 2 * |values|] + RegisterBytes(values))
  {}

  // ---------------------------------------------------------------- waiting for the reply

  const ATTEMPTS := 4

  datatype Reply = Reply(status: Status, payload: seq<Byte>, rest: seq<Byte>, connected: bool)

  /** What transact() makes of the bytes that arrive: frames with another transaction id are skipped,
      and a broken frame or a closed peer drops the connection. When the stream runs dry, whatever was
      read of a frame is gone. */
  function Receive(stream: seq<Byte>, closes: bool, tid: Word, fc: Byte, capacity: nat, attempts: nat): Reply
    requires fc < 128
    decreases attempts
  {
    if attempts == 0 then Reply(ProtocolError, [], stream, true)
    else
      match ParseFrame(stream)
      case Incomplete => Reply(if closes then SocketError else Timeout, [], [], !closes)
      case Malformed(rest) => Reply(ProtocolError, [], rest, false)
      case Whole(frame, rest) =>
        if frame.tid != tid then Receive(rest, closes, tid, fc, capacity, attempts - 1)
        else Accept(frame.pdu, rest, fc, capacity)
  }

  function Accept(pdu: seq<Byte>, rest: seq<Byte>, fc: Byte, capacity: nat): Reply
    requires fc < 128 && pdu != []
  {
    if pdu[0] == fc + 128 then Reply(ModbusException(if |pdu| >= 2 then pdu[1] else 0), [], rest, true)
    else if pdu[0] != fc || |pdu| - 1 > capacity then Reply(ProtocolError, [], rest, false)
    else Reply(Status.Ok, pdu[1..], rest, true)
  }

  /** On any bytes whatsoever: Ok means that whole frames were consumed, at most three stale ones and
      then one with our transaction id and function code whose payload is the one returned. */
  lemma {:induction false} OkIsOurReply(stream: seq<Byte>, closes: bool, tid: Word, fc: Byte, capacity: nat, attempts: nat)
    returns (frames: seq<Frame>)
    requires fc < 128 && Receive(stream, closes, tid, fc, capacity, attempts).status == Status.Ok
    ensures 1 <= |frames| <= attempts && AllValid(frames)
    ensures var r := Receive(stream, closes, tid, fc, capacity, attempts); var last := frames[|frames| - 1];
      && stream == Stream(frames) + r.rest
      && last.tid == tid && last.pdu == [fc] + r.payload && |r.payload| <= capacity && r.connected
      && forall i | 0 <= i < |frames| - 1 :: frames[i].tid != tid
    decreases attempts
  {
    hide ParseFrame, FrameBytes;
    FrameOfParse(stream);
    var p := ParseFrame(stream);
    if p.frame.tid == tid {
      frames := [p.frame];
      assert Stream(frames) == FrameBytes(p.frame) + Stream([]);
    } else {
      var later := OkIsOurReply(p.rest, closes, tid, fc, capacity, attempts - 1);
      frames := [p.frame] + later;
      assert frames[1..] == later;
    }
  }

  lemma ReceiveStep(frames: seq<Frame>, closes: bool, tid: Word, fc: Byte, capacity: nat, attempts: nat)
    requires fc < 128 && AllValid(frames) && frames != [] && attempts > 0
    ensures Receive(Stream(frames), closes, tid, fc, capacity, attempts)
            == if frames[0].tid == tid then Accept(frames[0].pdu, Stream(frames[1..]), fc, capacity)
               else Receive(Stream(frames[1..]), closes, tid, fc, capacity, attempts - 1)
  {
    hide ParseFrame, FrameBytes, Accept;
    ParseOfFrame(frames[0], Stream(frames[1..]));
  }

  lemma ReceiveNothing(stream: seq<Byte>, closes: bool, tid: Word, fc: Byte, capacity: nat, attempts: nat)
    requires fc < 128
    ensures stream == [] || attempts == 0 ==> Receive(stream, closes, tid, fc, capacity, attempts).rest == stream
  {}

  lemma StreamOfNothing(frames: seq<Frame>)
    requires AllValid(frames)
    ensures frames == [] ==> Stream(frames) == []
  {}

  lemma AcceptKeepsRest(pdu: seq<Byte>, rest: seq<Byte>, fc: Byte, capacity: nat)
    requires fc < 128 && pdu != []
    ensures Accept(pdu, rest, fc, capacity).rest == rest
  {}

  /** On a stream of whole frames exactly whole frames are consumed, at most `attempts`, whatever the outcome. */
  lemma {:induction false} WholeFramesOnly(frames: seq<Frame>, closes: bool, tid: Word, fc: Byte, capacity: nat,
                                           attempts: nat) returns (used: nat)
    requires fc < 128 && AllValid(frames)
    ensures used <= |frames| && used <= attempts
    ensures Receive(Stream(frames), closes, tid, fc, capacity, attempts).rest == Stream(frames[used..])
    decreases attempts
  {
    hide Receive, Accept, Stream;
    used := 0;
    assert frames[0..] == frames;
    if frames == [] || attempts == 0 {
      ReceiveNothing(Stream(frames), closes, tid, fc, capacity, attempts);
      assert frames == [] ==> Stream(frames) == [] by { StreamOfNothing(frames); }
    } else {
      ReceiveStep(frames, closes, tid, fc, capacity, attempts);
      if frames[0].tid == tid {
        AcceptKeepsRest(frames[0].pdu, Stream(frames[1..]), fc, capacity);
        used := 1;
      } else {
        var n := WholeFramesOnly(frames[1..], closes, tid, fc, capacity, attempts - 1);
        used := n + 1;
        assert frames[1..][n..] == frames[used..];
      }
    }
  }

  /** The other direction: behind at most three stale replies, ours is found and returned. */
  lemma {:induction false} OurReplyIsFound(stale: seq<Frame>, reply: Frame, later: seq<Frame>, closes: bool,
                                           fc: Byte, capacity: nat, attempts: nat)
    requires fc < 128 && AllValid(stale) && reply.Valid() && AllValid(later) && |stale| < attempts
    requires forall i | 0 <= i < |stale| :: stale[i].tid != reply.tid
    ensures AllValid(stale + [reply] + later)
    ensures Receive(Stream(stale + [reply] + later), closes, reply.tid, fc, capacity, attempts)
            == Accept(reply.pdu, Stream(later), fc, capacity)
    decreases attempts
  {
    hide ParseFrame, FrameBytes;
    var frames := stale + [reply] + later;
    ParseOfFrame(frames[0], Stream(frames[1..]));
    if stale == [] {
      assert frames[1..] == later;
    } else {
      assert frames[1..] == stale[1..] + [reply] + later;
      OurReplyIsFound(stale[1..], reply, later, closes, fc, capacity, attempts - 1);
    }
  }

  /** What a reply with our transaction id comes to: the payload under our function code, if it fits; the
      code of an exception, 0 if it carries none; anything else drops the connection. */
  lemma ReplyOutcome(reply: Frame, later: seq<Frame>, closes: bool, fc: Byte, capacity: nat, attempts: nat)
    requires fc < 128 && reply.Valid() && AllValid(later) && 0 < attempts
    ensures AllValid([reply] + later)
    ensures var r := Receive(Stream([reply] + later), closes, reply.tid, fc, capacity, attempts);
      && r.rest == Stream(later)
      && (if reply.pdu[0] == fc && |reply.pdu| <= 1 + capacity then
            r.status == Status.Ok && r.payload == reply.pdu[1..] && r.connected
          else if reply.pdu[0] == fc + 0x80 then
            r.status == ModbusException(if |reply.pdu| == 1 then 0 else reply.pdu[1]) && r.connected
          else r.status == ProtocolError && !r.connected)
  {
    hide Stream, Receive;
    assert [] + [reply] + later == [reply] + later;
    OurReplyIsFound([], reply, later, closes, fc, capacity, attempts);
  }

  /** Four replies to other requests are the most that is skipped: then the request fails, and the connection
      is kept. */
  lemma FourStaleGiveUp(frames: seq<Frame>, closes: bool, tid: Word, fc: Byte, capacity: nat)
    requires fc < 128 && AllValid(frames) && |frames| >= 4
    requires frames[0].tid != tid && frames[1].tid != tid && frames[2].tid != tid && frames[3].tid != tid
    ensures Receive(Stream(frames), closes, tid, fc, capacity, ATTEMPTS)
            == Reply(ProtocolError, [], Stream(frames[4..]), true)
  {
    StaleSkipped(frames, 4, closes, tid, fc, capacity, ATTEMPTS);
    ReceiveNothing(Stream(frames[4..]), closes, tid, fc, capacity, 0);
  }

  lemma {:induction false} StaleSkipped(frames: seq<Frame>, n: nat, closes: bool, tid: Word, fc: Byte, capacity: nat,
                                        attempts: nat)
    requires fc < 128 && AllValid(frames) && n <= |frames| && n <= attempts
    requires forall i | 0 <= i < n :: frames[i].tid != tid
    ensures Receive(Stream(frames), closes, tid, fc, capacity, attempts)
            == Receive(Stream(frames[n..]), closes, tid, fc, capacity, attempts - n)
    decreases n
  {
    hide Receive, Stream;
    if n == 0 {
      assert frames[0..] == frames;
    } else {
      ReceiveStep(frames, closes, tid, fc, capacity, attempts);
      StaleSkipped(frames[1..], n - 1, closes, tid, fc, capacity, attempts - 1);
      assert frames[1..][n - 1..] == frames[n..];
    }
  }

  // ---------------------------------------------------------------- transaction ids over a session

  /** The id of the n-th request of a client. */
  function RequestId(n: nat): Word { n % 65536 }

  /** If every reply that can still arrive answers one of the last 65535 requests, Ok delivers the
      payload of a reply to the current request, never of an older one. `answers[i]` is the number of
      the request that frame i answers. */
  lemma NeverAnOlderReply(frames: seq<Frame>, answers: seq<nat>, n: nat, closes: bool, fc: Byte, capacity: nat)
    returns (k: nat)
    requires fc < 128 && AllValid(frames) && |answers| == |frames|
    requires forall i | 0 <= i < |frames| :: frames[i].tid == RequestId(answers[i]) && n - 65536 < answers[i] <= n
    requires Receive(Stream(frames), closes, RequestId(n), fc, capacity, ATTEMPTS).status == Status.Ok
    ensures k < |frames| && answers[k] == n
    ensures frames[k].pdu == [fc] + Receive(Stream(frames), closes, RequestId(n), fc, capacity, ATTEMPTS).payload
  {
    k := FirstMatch(frames, closes, RequestId(n), fc, capacity, ATTEMPTS);
    DistinctIds(answers[k], n);
  }

  lemma DistinctIds(k: nat, n: nat)
    requires RequestId(k) == RequestId(n) && n - 65536 < k <= n
    ensures k == n
  {}

  lemma {:induction false} FirstMatch(frames: seq<Frame>, closes: bool, tid: Word, fc: Byte, capacity: nat, attempts: nat)
    returns (k: nat)
    requires fc < 128 && AllValid(frames)
    requires Receive(Stream(frames), closes, tid, fc, capacity, attempts).status == Status.Ok
    ensures k < |frames| && frames[k].tid == tid
    ensures frames[k].pdu == [fc] + Receive(Stream(frames), closes, tid, fc, capacity, attempts).payload
    decreases attempts
  {
    hide ParseFrame, FrameBytes;
    ParseOfFrame(frames[0], Stream(frames[1..]));
    if frames[0].tid == tid {
      k := 0;
    } else {
      k := FirstMatch(frames[1..], closes, tid, fc, capacity, attempts - 1);
      k := k + 1;
    }
  }
}
