/** The Modbus client object on a byte stream. The socket is three things: the bytes still to arrive, in
    the pieces in which recv() will hand them over; whether the peer then closes or merely stays silent;
    and whether sends succeed. */
module ModbusClient {
  import opened Bytes
  import opened Modbus

  function Flatten(pieces: seq<seq<Byte>>): seq<Byte> {
    if pieces == [] then [] else pieces[0] + Flatten(pieces[1..])
  }

  predicate NoneEmpty(pieces: seq<seq<Byte>>) { forall i | 0 <= i < |pieces| :: pieces[i] != [] }

  lemma FlattenTaken(pieces: seq<seq<Byte>>, k: nat, left: seq<seq<Byte>>)
    requires pieces != [] && k <= |pieces[0]|
    requires left == if k == |pieces[0]| then pieces[1..] else [pieces[0][k..]] + pieces[1..]
    ensures Flatten(pieces) == pieces[0][..k] + Flatten(left)
  {
    SplitPiece(pieces[0], k, Flatten(pieces[1..]));
    if k < |pieces[0]| {
      assert left[1..] == pieces[1..];
    }
  }

  lemma SplitPiece(piece: seq<Byte>, k: nat, rest: seq<Byte>)
    requires k <= |piece|
    ensures piece + rest == piece[..k] + (piece[k..] + rest)
    ensures k == |piece| ==> piece[..k] == piece
  {}

  /** What one attempt to read a frame came to. */
  datatype Got = Silent | Closed | BadHeader | Got(frame: Frame)

  predicate Reads(got: Got, parsed: Parsed, closes: bool, rest: seq<Byte>) {
    match parsed
    case Incomplete => got == (if closes then Closed else Silent) && rest == []
    case Malformed(after) => got == BadHeader && rest == after
    case Whole(frame, after) => got == Got(frame) && rest == after
  }

  lemma OneAttempt(stream: seq<Byte>, got: Got, rest: seq<Byte>, closes: bool, tid: Word, fc: Byte, capacity: nat,
                   attempts: nat)
    requires fc < 128 && attempts > 0 && Reads(got, ParseFrame(stream), closes, rest)
    ensures Receive(stream, closes, tid, fc, capacity, attempts)
            == match got
               case Silent => Reply(Timeout, [], rest, true)
               case Closed => Reply(SocketError, [], rest, false)
               case BadHeader => Reply(ProtocolError, [], rest, false)
               case Got(frame) =>
                 if frame.tid != tid then Receive(rest, closes, tid, fc, capacity, attempts - 1)
                 else Accept(frame.pdu, rest, fc, capacity)
    ensures got.Got? ==> got.frame.Valid()
  {
    hide Accept;
  }

  class ModbusTcpClient {
    var connected: bool
    var tid: Word
    var unit: Byte
    var pieces: seq<seq<Byte>>
    var closes: bool
    var sendable: bool
    var sent: seq<Byte>

    constructor (unit: Byte)
      ensures !connected && tid == 0 && this.unit == unit && sent == []
    {
      connected, tid, this.unit := false, 0, unit;
      pieces, closes, sendable, sent := [], false, false, [];
    }

    ghost predicate Valid()
      reads this
    {
      NoneEmpty(pieces)
    }

    ghost function Arriving(): seq<Byte>
      reads this
    {
      Flatten(pieces)
    }

    /** recv(): up to n bytes of the next piece; 0 when the peer has closed, -1 when nothing came in time. */
    method Recv(p: array<Byte>, at: nat, n: nat) returns (r: int)
      requires Valid() && 0 < n && at + n <= p.Length
      modifies this`pieces, p
      ensures Valid() && r <= n
      ensures old(pieces) == [] ==> r == (if closes then 0 else -1) && pieces == [] && p[..] == old(p[..])
      ensures old(pieces) != [] ==>
              && 1 <= r <= |old(Arriving())| && Arriving() == old(Arriving())[r..]
              && p[..at + r] == old(p[..at]) + old(Arriving())[..r]
    {
      if pieces == [] {
        return if closes then 0 else -1;
      }
      var piece := pieces[0];
      var k := if |piece| <= n then |piece| else n;
      forall i | 0 <= i < k {
        p[at + i] := piece[i];
      }
      ghost var before := pieces;
      pieces := if k == |piece| then pieces[1..] else [piece[k..]] + pieces[1..];
      FlattenTaken(before, k, pieces);
      r := k;
    }

    /** The first n bytes of the stream, however it is cut into pieces; all that is left when it is shorter. */
    method RecvExact(p: array<Byte>, n: nat) returns (r: int)
      requires Valid() && n <= p.Length
      modifies this`pieces, p
      ensures Valid()
      ensures n <= |old(Arriving())| ==> r == 1 && p[..n] == old(Arriving())[..n] && Arriving() == old(Arriving())[n..]
      ensures |old(Arriving())| < n ==> r == (if closes then -1 else 0) && Arriving() == []
    {
      ghost var stream := Arriving();
      var got := 0;
      while got < n
        invariant Valid() && got <= n && got <= |stream|
        invariant p[..got] == stream[..got] && Arriving() == stream[got..]
      {
        assert pieces == [] ==> Arriving() == [];
        var k := Recv(p, got, n - got);
        if k > 0 {
          assert stream[..got] + stream[got..][..k] == stream[..got + k];
          assert stream[got..][k..] == stream[got + k..];
          got := got + k;
        } else if k == 0 {
          return -1;
        } else {
          return 0;
        }
      }
      r := 1;
    }

    /** What the bytes still to arrive amount to for the next request. */
    ghost function NextReply(fc: Byte, capacity: nat): Reply
      requires fc < 128
      reads this
    {
      Receive(Arriving(), closes, (tid + 1) % 65536, fc, capacity, ATTEMPTS)
    }

    method BuildFrame(pdu: array<Byte>, size: nat) returns (frame: seq<Byte>)
      requires 1 <= size <= 253 && size <= pdu.Length
      ensures frame == FrameBytes(Frame(tid, unit, pdu[..size]))
    {
      var buffer := new Byte[260];
      buffer[0], buffer[1], buffer[2], buffer[3] := HighByte(tid), LowByte(tid), 0, 0;
      buffer[4], buffer[5], buffer[6] := HighByte(size + 1), LowByte(size + 1), unit;
      forall i | 0 <= i < size {
        buffer[7 + i] := pdu[i];
      }
      frame := buffer[..7 + size];
      assert frame[..7] == Header(tid, size + 1, unit);
      assert frame == frame[..7] + pdu[..size];
    }

    /** Sends one request and waits for its reply. */
    method Transact(pdu: array<Byte>, size: nat, fc: Byte, resp: array<Byte>) returns (status: Status, n: nat)
      requires Valid() && size <= pdu.Length && fc < 128 && resp != pdu
      modifies this, resp
      ensures Valid() && unit == old(unit) && closes == old(closes) && sendable == old(sendable)
      ensures !old(connected) || !(1 <= size <= 253) ==>
              && status == (if old(connected) then BadArgument else NotConnected)
              && tid == old(tid) && sent == old(sent) && Arriving() == old(Arriving()) && connected == old(connected)
      ensures old(connected) && 1 <= size <= 253 ==> tid == (old(tid) + 1) % 65536
      ensures old(connected) && 1 <= size <= 253 && !sendable ==> status == SocketError && !connected && sent == old(sent)
      ensures old(connected) && 1 <= size <= 253 && sendable ==>
              && sent == old(sent) + FrameBytes(Frame(tid, unit, old(pdu[..size])))
              && Answers(status, n, resp, old(NextReply(fc, resp.Length)))
    {
      n := 0;
      if !connected {
        return NotConnected, n;
      }
      if size == 0 || size > 253 {
        return BadArgument, n;
      }
      tid := (tid + 1) % 65536;
      var frame := BuildFrame(pdu, size);
      if !sendable {
        connected := false;
        return SocketError, n;
      }
      sent := sent + frame;
      status, n := Await(fc, resp);
    }

    /** Skips replies to earlier requests until ours arrives. */
    method Await(fc: Byte, resp: array<Byte>) returns (status: Status, n: nat)
      requires Valid() && fc < 128 && connected
      modifies this`pieces, this`connected, resp
      ensures Valid()
      ensures Answers(status, n, resp, Receive(old(Arriving()), closes, tid, fc, resp.Length, ATTEMPTS))
    {
      ghost var reply := Receive(Arriving(), closes, tid, fc, resp.Length, ATTEMPTS);
      var attempt := 0;
      while attempt < ATTEMPTS
        invariant Valid() && attempt <= ATTEMPTS && connected
        invariant Receive(Arriving(), closes, tid, fc, resp.Length, ATTEMPTS - attempt) == reply
      {
        var stale;
        stale, status, n := Attempt(fc, resp, ATTEMPTS - attempt);
        if !stale {
          return;
        }
        attempt := attempt + 1;
      }
      status, n := ProtocolError, 0;
    }

    /** The outcome is the given reply, and the object is left where the reply leaves it. */
    ghost predicate Answers(status: Status, n: nat, resp: array<Byte>, reply: Reply)
      reads this, resp
    {
      && status == reply.status && Arriving() == reply.rest && connected == reply.connected
      && (status == Status.Ok ==> n <= resp.Length && resp[..n] == reply.payload)
    }

    method Attempt(fc: Byte, resp: array<Byte>, ghost left: nat) returns (stale: bool, status: Status, n: nat)
      requires Valid() && fc < 128 && connected && left > 0
      modifies this`pieces, this`connected, resp
      ensures Valid() && (stale ==> connected)
      ensures var reply := Receive(old(Arriving()), closes, tid, fc, resp.Length, left);
        if stale then Receive(Arriving(), closes, tid, fc, resp.Length, left - 1) == reply
        else Answers(status, n, resp, reply)
    {
      hide Flatten, Accept, Receive, Reads;
      ghost var before := Arriving();
      var got := ReadFrame();
      OneAttempt(before, got, Arriving(), closes, tid, fc, resp.Length, left);
      stale, n := false, 0;
      match got
      case Silent => status := Timeout;
      case Closed => connected, status := false, SocketError;
      case BadHeader => connected, status := false, ProtocolError;
      case Got(frame) =>
        if frame.tid != tid {
          stale, status := true, Timeout;
        } else {
          status, n := Deliver(frame.pdu, fc, resp);
        }
    }

    /** One header and, if it is sound, the body it announces. */
    method ReadFrame() returns (got: Got)
      requires Valid()
      modifies this`pieces
      ensures Valid() && Reads(got, ParseFrame(old(Arriving())), closes, Arriving())
    {
      hide Flatten;
      ghost var stream := Arriving();
      var hdr := new Byte[7];
      var r := RecvExact(hdr, 7);
      if r != 1 {
        return if r == 0 then Silent else Closed;
      }
      assert hdr[..] == hdr[..7] == stream[..7];
      var length := JoinBytes(hdr[4], hdr[5]);
      if JoinBytes(hdr[2], hdr[3]) != 0 || length < 2 || length > 254 {
        return BadHeader;
      }
      var body := new Byte[256];
      r := RecvExact(body, length - 1);
      if r != 1 {
        return if r == 0 then Silent else Closed;
      }
      assert stream[7..][..length - 1] == stream[7..7 + (length - 1)];
      assert stream[7..][length - 1..] == stream[7 + (length - 1)..];
      got := Got(Frame(JoinBytes(hdr[0], hdr[1]), hdr[6], body[..length - 1]));
    }

    method Deliver(body: seq<Byte>, fc: Byte, resp: array<Byte>) returns (status: Status, n: nat)
      requires fc < 128 && body != [] && connected
      modifies this`connected, resp
      ensures Answers(status, n, resp, Accept(body, Arriving(), fc, resp.Length))
    {
      n := 0;
      if body[0] == fc + 128 {
        return ModbusException(if |body| >= 2 then body[1] else 0), n;
      }
      if body[0] != fc || |body| - 1 > resp.Length {
        connected := false;
        return ProtocolError, n;
      }
      n := |body| - 1;
      forall i | 0 <= i < n {
        resp[i] := body[1 + i];
      }
      assert resp[..n] == body[1..];
      status := Status.Ok;
    }

    /** The outcome every request shares: what is refused, what is sent, and what the stream answers. */
    ghost predicate Sent(request: seq<Byte>, before: seq<Byte>)
      requires 1 <= |request| <= 253
      reads this
    {
      sent == before + FrameBytes(Frame(tid, unit, request))
    }

    method ReadRegisters(fc: Byte, address: Word, count: Word) returns (status: Status, registers: seq<Word>)
      requires Valid() && (fc == 0x03 || fc == 0x04)
      modifies this
      ensures Valid() && unit == old(unit)
      ensures count == 0 || count > 125 ==> status == BadArgument && sent == old(sent) && tid == old(tid)
      ensures 1 <= count <= 125 && !(old(connected) && old(sendable)) ==>
              status == (if old(connected) then SocketError else NotConnected) && sent == old(sent)
      ensures 1 <= count <= 125 && old(connected) && old(sendable) ==>
              && Sent(ReadRequest(fc, address, count), old(sent))
              && sent == old(sent) + Wire(tid, unit, [fc, address / 256, address % 256, count / 256, count % 256])
              && var reply := old(NextReply(fc, 256));
              && Arriving() == reply.rest && connected == reply.connected
              && (if reply.status == Status.Ok then (status, registers) == DecodeRegisters(reply.payload, count)
                  else status == reply.status && registers == [])
    {
      registers := [];
      if count == 0 || count > MAX_READ {
        return BadArgument, registers;
      }
      var pdu := new Byte[5] [fc, HighByte(address), LowByte(address), HighByte(count), LowByte(count)];
      assert pdu[..5] == ReadRequest(fc, address, count);
      WireOfRequests((tid + 1) % 65536, unit, address, count);
      var resp := new Byte[256];
      var n;
      status, n := Transact(pdu, 5, fc, resp);
      if status == Status.Ok {
        status, registers := TakeRegisters(resp, n, count);
      }
    }

    method TakeRegisters(resp: array<Byte>, n: nat, count: nat) returns (status: Status, registers: seq<Word>)
      requires n <= resp.Length
      ensures (status, registers) == DecodeRegisters(resp[..n], count)
    {
      registers := [];
      if n < 1 + 2 * count || resp[0] != 2 * count {
        return ProtocolError, registers;
      }
      for i := 0 to count
        invariant registers == RegistersAt(resp[..n], i, 1)
      {
        registers := registers + [JoinBytes(resp[1 + 2 * i], resp[2 + 2 * i])];
      }
      status := Status.Ok;
    }

    method WriteSingleRegister(address: Word, value: Word) returns (status: Status)
      requires Valid()
      modifies this
      ensures Valid() && unit == old(unit)
      ensures !(old(connected) && old(sendable)) ==>
              status == (if old(connected) then SocketError else NotConnected) && sent == old(sent)
      ensures old(connected) && old(sendable) ==>
              && Sent(WriteSingleRequest(address, value), old(sent))
              && sent == old(sent) + Wire(tid, unit, [0x06, address / 256, address % 256, value / 256, value % 256])
              && var reply := old(NextReply(WRITE_SINGLE, 8));
              && status == reply.status && Arriving() == reply.rest && connected == reply.connected
    {
      var pdu := new Byte[5] [WRITE_SINGLE, HighByte(address), LowByte(address), HighByte(value), LowByte(value)];
      assert pdu[..5] == WriteSingleRequest(address, value);
      WireOfRequests((tid + 1) % 65536, unit, address, value);
      var resp := new Byte[8];
      var n;
      status, n := Transact(pdu, 5, WRITE_SINGLE, resp);
    }

    /** Lay the values into the request, high byte first. */
    method PutValues(pdu: array<Byte>, at: nat, values: seq<Word>)
      requires at + 2 * |values| <= pdu.Length
      modifies pdu
      ensures pdu[..at + 2 * |values|] == old(pdu[..at]) + RegisterBytes(values)
    {
      ghost var head, bytes := pdu[..at], RegisterBytes(values);
      for i := 0 to |values|
        invariant pdu[..at] == head
        invariant forall k: nat | k < 2 * i :: pdu[at + k] == bytes[k]
      {
        pdu[at + 2 * i] := HighByte(values[i]);
        pdu[at + 2 * i + 1] := LowByte(values[i]);
        assert (2 * i + 1) / 2 == i;
      }
    }

    method BuildWriteMultiple(address: Word, values: seq<Word>) returns (pdu: array<Byte>)
      requires |values| <= MAX_WRITE
      ensures fresh(pdu) && pdu.Length == 256 && pdu[..6 + 2 * |values|] == WriteMultipleRequest(address, values)
    {
      var count := |values|;
      pdu := new Byte[256];
      pdu[0], pdu[1], pdu[2] := WRITE_MULTIPLE, HighByte(address), LowByte(address);
      pdu[3], pdu[4], pdu[5] := HighByte(count), LowByte(count), 2 * count;
      assert pdu[..6] == WriteMultipleHead(address, count);
      PutValues(pdu, 6, values);
    }

    method WriteMultipleRegisters(address: Word, values: seq<Word>) returns (status: Status)
      requires Valid()
      modifies this
      ensures Valid() && unit == old(unit)
      ensures |values| == 0 || |values| > 123 ==> status == BadArgument && sent == old(sent) && tid == old(tid)
      ensures 1 <= |values| <= 123 && !(old(connected) && old(sendable)) ==>
              status == (if old(connected) then SocketError else NotConnected) && sent == old(sent)
      ensures 1 <= |values| <= 123 && old(connected) && old(sendable) ==>
              && Sent(WriteMultipleRequest(address, values), old(sent))
              && sent == old(sent) + Wire(tid, unit, [0x10, address / 256, address % 256, 0, |values|, 2 * |values|]
                                                     + RegisterBytes(values))
              && var reply := old(NextReply(WRITE_MULTIPLE, 8));
              && status == reply.status && Arriving() == reply.rest && connected == reply.connected
    {
      var count := |values|;
      if count == 0 || count > MAX_WRITE {
        return BadArgument;
      }
      hide WriteMultipleRequest, Flatten, Receive, FrameBytes, Wire;
      status := WriteMultipleLegal(address, values);
      WireOfMultiple(tid, unit, address, values);
    }

    method WriteMultipleLegal(address: Word, values: seq<Word>) returns (status: Status)
      requires Valid() && 1 <= |values| <= MAX_WRITE
      modifies this
      ensures Valid() && unit == old(unit)
      ensures !(old(connected) && old(sendable)) ==>
              status == (if old(connected) then SocketError else NotConnected) && sent == old(sent)
      ensures old(connected) && old(sendable) ==>
              && Sent(WriteMultipleRequest(address, values), old(sent))
              && var reply := old(NextReply(WRITE_MULTIPLE, 8));
              && status == reply.status && Arriving() == reply.rest && connected == reply.connected
    {
      hide WriteMultipleRequest, Flatten, Receive, FrameBytes;
      var pdu := BuildWriteMultiple(address, values);
      var resp := new Byte[8];
      var n;
      status, n := Transact(pdu, 6 + 2 * |values|, WRITE_MULTIPLE, resp);
    }

    method BuildReadWrite(readAddress: Word, readCount: Word, writeAddress: Word, values: seq<Word>)
      returns (pdu: array<Byte>)
      requires |values| <= MAX_READ_WRITE
      ensures fresh(pdu) && pdu.Length == 256
      ensures pdu[..10 + 2 * |values|] == ReadWriteRequest(readAddress, readCount, writeAddress, values)
    {
      var count := |values|;
      pdu := new Byte[256];
      pdu[0], pdu[1], pdu[2] := READ_WRITE, HighByte(readAddress), LowByte(readAddress);
      pdu[3], pdu[4] := HighByte(readCount), LowByte(readCount);
      pdu[5], pdu[6] := HighByte(writeAddress), LowByte(writeAddress);
      pdu[7], pdu[8], pdu[9] := HighByte(count), LowByte(count), 2 * count;
      assert pdu[..10] == ReadWriteHead(readAddress, readCount, writeAddress, count);
      PutValues(pdu, 10, values);
    }

    method ReadWriteMultipleRegisters(readAddress: Word, readCount: Word, writeAddress: Word, values: seq<Word>)
      returns (status: Status, registers: seq<Word>)
      requires Valid()
      modifies this
      ensures Valid() && unit == old(unit)
      ensures readCount == 0 || readCount > 125 || |values| == 0 || |values| > 121 ==>
              status == BadArgument && sent == old(sent) && tid == old(tid)
      ensures 1 <= readCount <= 125 && 1 <= |values| <= 121 && !(old(connected) && old(sendable)) ==>
              status == (if old(connected) then SocketError else NotConnected) && sent == old(sent)
      ensures 1 <= readCount <= 125 && 1 <= |values| <= 121 && old(connected) && old(sendable) ==>
              && Sent(ReadWriteRequest(readAddress, readCount, writeAddress, values), old(sent))
              && sent == old(sent)
                 + Wire(tid, unit, [0x17, readAddress / 256, readAddress % 256, readCount / 256, readCount % 256,
                                    writeAddress / 256, writeAddress % 256, 0, |values|, 2 * |values|]
                                   + RegisterBytes(values))
              && var reply := old(NextReply(READ_WRITE, 256));
              && Arriving() == reply.rest && connected == reply.connected
              && (if reply.status == Status.Ok then (status, registers) == DecodeRegisters(reply.payload, readCount)
                  else status == reply.status && registers == [])
    {
      registers := [];
      var count := |values|;
      if readCount == 0 || readCount > MAX_READ || count == 0 || count > MAX_READ_WRITE {
        return BadArgument, registers;
      }
      hide ReadWriteRequest, Flatten, Receive, FrameBytes, DecodeRegisters, Wire;
      status, registers := ReadWriteLegal(readAddress, readCount, writeAddress, values);
      WireOfReadWrite(tid, unit, readAddress, readCount, writeAddress, values);
    }

    method ReadWriteLegal(readAddress: Word, readCount: Word, writeAddress: Word, values: seq<Word>)
      returns (status: Status, registers: seq<Word>)
      requires Valid() && 1 <= readCount <= MAX_READ && 1 <= |values| <= MAX_READ_WRITE
      modifies this
      ensures Valid() && unit == old(unit)
      ensures !(old(connected) && old(sendable)) ==>
              status == (if old(connected) then SocketError else NotConnected) && sent == old(sent)
      ensures old(connected) && old(sendable) ==>
              && Sent(ReadWriteRequest(readAddress, readCount, writeAddress, values), old(sent))
              && var reply := old(NextReply(READ_WRITE, 256));
              && Arriving() == reply.rest && connected == reply.connected
              && (if reply.status == Status.Ok then (status, registers) == DecodeRegisters(reply.payload, readCount)
                  else status == reply.status && registers == [])
    {
      hide ReadWriteRequest, Flatten, Receive, FrameBytes, DecodeRegisters, Wire;
      registers := [];
      var pdu := BuildReadWrite(readAddress, readCount, writeAddress, values);
      var resp := new Byte[256];
      var n;
      status, n := Transact(pdu, 10 + 2 * |values|, READ_WRITE, resp);
      if status == Status.Ok {
        status, registers := TakeRegisters(resp, n, readCount);
      }
    }
  }

  // ---------------------------------------------------------------- client and server together

  /** Behind at most three late replies to earlier requests, and before anything later. */
  predicate Delivered(stream: seq<Byte>, stale: seq<Frame>, reply: Frame, later: seq<Frame>) {
    && |stale| <= 3 && AllValid(stale) && reply.Valid() && AllValid(later) && AllValid(stale + [reply] + later)
    && (forall i | 0 <= i < |stale| :: stale[i].tid != reply.tid)
    && stream == Stream(stale + [reply] + later)
  }

  /** Encoding a read, having the specified server answer it and decoding what arrives gives exactly the
      server's registers, for every legal count. */
  lemma ReadFromServer(m: Memory, fc: Byte, address: Word, count: Word, stream: seq<Byte>, stale: seq<Frame>,
                       reply: Frame, later: seq<Frame>, closes: bool)
    requires fc == READ_HOLDING || fc == READ_INPUT
    requires 1 <= count <= 125 && address + count <= 65536
    requires reply.pdu == Serve(m, ReadRequest(fc, address, count)).reply && Delivered(stream, stale, reply, later)
    ensures var r := Receive(stream, closes, reply.tid, fc, 256, ATTEMPTS);
      && r.status == Status.Ok && r.rest == Stream(later) && r.connected
      && DecodeRegisters(r.payload, count)
         == (Status.Ok, (if fc == READ_HOLDING then m.holding else m.inputs)[address..address + count])
  {
    hide Serve, Receive, DecodeRegisters, Stream;
    ReadIdentity(m, fc, address, count);
    OurReplyIsFound(stale, reply, later, closes, fc, 256, ATTEMPTS);
  }

  /** A write that returns Ok has left the server's registers equal to the values; an FC 6 write too. */
  lemma WriteToServer(m: Memory, address: Word, values: seq<Word>, stream: seq<Byte>, stale: seq<Frame>,
                      reply: Frame, later: seq<Frame>, closes: bool)
    requires 1 <= |values| <= 123 && address + |values| <= 65536
    requires reply.pdu == Serve(m, WriteRequest(address, values)).reply && Delivered(stream, stale, reply, later)
    ensures Serve(m, WriteRequest(address, values)).memory == m.(holding := Overlay(m.holding, address, values))
    ensures var r := Receive(stream, closes, reply.tid, WriteRequest(address, values)[0], 8, ATTEMPTS);
      r.status == Status.Ok && r.rest == Stream(later) && r.connected
  {
    hide Serve, Receive, Stream, Overlay;
    if |values| == 1 {
      assert values == [values[0]];
      WriteSingleIdentity(m, address, values[0]);
    } else {
      WriteMultipleIdentity(m, address, values);
    }
    OurReplyIsFound(stale, reply, later, closes, WriteRequest(address, values)[0], 8, ATTEMPTS);
  }

  lemma ReadWriteWithServer(m: Memory, readAddress: Word, readCount: Word, writeAddress: Word, values: seq<Word>,
                            stream: seq<Byte>, stale: seq<Frame>, reply: Frame, later: seq<Frame>, closes: bool)
    requires 1 <= readCount <= 125 && readAddress + readCount <= 65536
    requires 1 <= |values| <= 121 && writeAddress + |values| <= 65536
    requires reply.pdu == Serve(m, ReadWriteRequest(readAddress, readCount, writeAddress, values)).reply
    requires Delivered(stream, stale, reply, later)
    ensures var r := Receive(stream, closes, reply.tid, READ_WRITE, 256, ATTEMPTS);
      && r.status == Status.Ok && r.rest == Stream(later) && r.connected
      && DecodeRegisters(r.payload, readCount)
         == (Status.Ok, Overlay(m.holding, writeAddress, values)[readAddress..readAddress + readCount])
  {
    hide Serve, Receive, DecodeRegisters, Stream, Overlay;
    ReadWriteIdentity(m, readAddress, readCount, writeAddress, values);
    OurReplyIsFound(stale, reply, later, closes, READ_WRITE, 256, ATTEMPTS);
  }
}
