/** The drive protocol read off the wire: what the status bits and the bytes of the gateway's status area
    do to the command side, and which control bits come back. */
module IndraDriveBits {
  import opened Bytes
  import opened RealMath
  import opened Tags
  import opened Steps = IndraDrive

  // ---------------------------------------------------------------- words as bits

  lemma Powers()
    ensures Pow2(0) == 1 && Pow2(1) == 2 && Pow2(3) == 8 && Pow2(5) == 0x20 && Pow2(7) == 0x80
    ensures Pow2(13) == 0x2000 && Pow2(14) == 0x4000 && Pow2(15) == 0x8000
  {
    assert Pow2(3) == 2 * Pow2(2) && Pow2(2) == 2 * Pow2(1);
    assert Pow2(5) == 2 * Pow2(4) && Pow2(4) == 2 * Pow2(3);
    assert Pow2(7) == 2 * Pow2(6) && Pow2(6) == 2 * Pow2(5);
    assert Pow2(9) == 2 * Pow2(8) && Pow2(8) == 2 * Pow2(7);
    assert Pow2(11) == 2 * Pow2(10) && Pow2(10) == 2 * Pow2(9);
    assert Pow2(13) == 2 * Pow2(12) && Pow2(12) == 2 * Pow2(11);
    assert Pow2(15) == 2 * Pow2(14) && Pow2(14) == 2 * Pow2(13);
  }

  lemma LowBits(x: nat)
    ensures x % 4 == x % 2 + 2 * (x / 2 % 2)
  {}

  lemma ModeBits(status: Word)
    ensures InOperatingMode(status) <==> BitOf(status, 1) && !BitOf(status, 0)
  {
    Powers();
    BitIsDigit(status, 0);
    BitIsDigit(status, 1);
    LowBits(status);
    hide BitOf, Pow2;
  }

  lemma HighBits(x: Word)
    ensures x / 0x4000 == x / 0x4000 % 2 + 2 * (x / 0x8000) && x / 0x8000 % 2 == x / 0x8000
  {}

  lemma ReadyBits(status: Word)
    ensures PowerReady(status) <==> BitOf(status, 15)
    ensures WithTorque(status) <==> BitOf(status, 15) && BitOf(status, 14)
  {
    Powers();
    BitIsDigit(status, 14);
    BitIsDigit(status, 15);
    HighBits(status);
    hide BitOf, Pow2;
  }

  /** The conditions that enable(), disable() and clear_errors() wait for, as bits of the status word. */
  lemma StatusBits(status: Word)
    ensures InOperatingMode(status) <==> BitOf(status, 1) && !BitOf(status, 0)
    ensures PowerReady(status) <==> BitOf(status, 15)
    ensures WithTorque(status) <==> BitOf(status, 15) && BitOf(status, 14)
    ensures Following(status) <==> !BitOf(status, 7)
    ensures Standstill(status) <==> BitOf(status, 3)
    ensures Class1Error(status) <==> BitOf(status, 13)
  {
    Powers();
    ModeBits(status);
    ReadyBits(status);
    BitIsDigit(status, 3);
    BitIsDigit(status, 7);
    BitIsDigit(status, 13);
    hide BitOf, Pow2, InOperatingMode, PowerReady, WithTorque;
  }

  /** The control bits: mode, clear, start and on are bits 1, 5, 13 and 15. */
  lemma ControlBits(control: Word)
    ensures HasOn(control) <==> BitOf(control, 15)
    ensures HasStart(control) <==> BitOf(control, 13)
    ensures HasClear(control) <==> BitOf(control, 5)
  {
    Powers();
    BitIsDigit(control, 5);
    BitIsDigit(control, 13);
    BitIsDigit(control, 15);
    HighBits(control);
    hide BitOf, Pow2;
  }

  /** Setting a clear bit adds its weight; the word the commands build are sets of bits. */
  lemma {:induction false} AddBit(x: nat, b: nat, c: nat)
    requires !BitOf(x, b)
    ensures SetBit(x, b, true) == x + Pow2(b)
    ensures BitOf(x + Pow2(b), c) <==> c == b || BitOf(x, c)
  {
    SetBitBits(x, b, true, c);
    AddedBit(x, b);
  }

  lemma {:induction false} AddedBit(x: nat, b: nat)
    requires !BitOf(x, b)
    ensures SetBit(x, b, true) == x + Pow2(b)
  {
    if b > 0 {
      AddedBit(x / 2, b - 1);
    }
  }

  lemma {:induction false} ZeroBits(c: nat)
    ensures !BitOf(0, c)
  {
    if c > 0 {
      ZeroBits(c - 1);
    }
  }

  /** The three control words of the enable sequence, bit by bit. */
  lemma ControlWordBits(c: nat)
    ensures BitOf(OPERATING_MODE, c) <==> c == 1
    ensures BitOf(OPERATING_MODE + DRIVE_ON, c) <==> c == 1 || c == 15
    ensures BitOf(OPERATING_MODE + DRIVE_ON + DRIVE_START, c) <==> c == 1 || c == 15 || c == 13
  {
    Powers();
    ZeroBits(c);
    ZeroBits(1);
    AddBit(0, 1, c);
    ZeroBits(15);
    AddBit(0, 1, 15);
    AddBit(2, 15, c);
    ZeroBits(13);
    AddBit(0, 1, 13);
    AddBit(2, 15, 13);
    AddBit(0x8002, 13, c);
    hide BitOf, Pow2;
  }

  /** Clearing and setting the clear-errors bit touches no other bit. */
  lemma ClearWordBits(control: Word, c: nat)
    ensures BitOf(WithoutClear(control), c) <==> c != 5 && BitOf(control, c)
    ensures BitOf(WithoutClear(control) + CLEAR_ERRORS, c) <==> c == 5 || BitOf(control, c)
  {
    Powers();
    ControlBits(control);
    var base := WithoutClear(control);
    if HasClear(control) {
      RemoveBit(control, 5, c);
      RemoveBit(control, 5, 5);
    }
    AddBit(base, 5, c);
    hide BitOf, Pow2;
  }

  lemma {:induction false} RemoveBit(x: nat, b: nat, c: nat)
    requires BitOf(x, b)
    ensures Pow2(b) <= x && (BitOf(x - Pow2(b), c) <==> c != b && BitOf(x, c))
  {
    if b > 0 {
      RemoveBit(x / 2, b - 1, if c > 0 then c - 1 else 0);
      assert (x - Pow2(b)) / 2 == x / 2 - Pow2(b - 1) && (x - Pow2(b)) % 2 == x % 2;
    }
  }

  // ---------------------------------------------------------------- one cycle

  /** What a cycle reads says that all is well: no class 1 error, the gateway operating, and the slave in
      its live list, which starts at byte 2 of the status area. */
  ghost predicate Healthy(address: nat, status: Word, registers: seq<Word>) {
    var area := RegisterBytes(registers);
    && !BitOf(status, 13)
    && 2 + address / 8 < |area|
    && BitOf(area[1], 0) && BitOf(area[1], 1)
    && BitOf(area[2 + address / 8], address % 8)
  }

  lemma LowTwoBits(x: nat)
    ensures BitOf(x, 0) && BitOf(x, 1) <==> x % 4 == 3
  {
    LowBits(x);
  }

  lemma AreaByte(registers: seq<Word>, k: nat)
    requires k < 2 * |registers|
    ensures RegisterBytes(registers)[k] == if k % 2 == 0 then HighByte(registers[k / 2]) else LowByte(registers[k / 2])
  {}

  lemma OperateBits(register: Word)
    ensures BitOf(LowByte(register), 0) && BitOf(LowByte(register), 1) <==> register % 4 == 3
  {
    LowTwoBits(LowByte(register));
    assert register % 4 == register % 256 % 4;
  }

  lemma LiveIffHealthy(address: nat, online: bool, status: Word, registers: seq<Word>)
    ensures online && Healthy(address, status, registers)
            <==> SlaveLive(address, online, registers) && !Class1Error(status)
  {
    StatusBits(status);
    var b := 2 + address / 8;
    if registers != [] {
      OperateBits(registers[0]);
      AreaByte(registers, 1);
    }
    if b < 2 * |registers| {
      AreaByte(registers, b);
    }
    assert b / 2 < |registers| <==> b < 2 * |registers|;
    hide BitOf, Class1Error, RegisterBytes, HighByte, LowByte;
  }

  /** A successful cycle only takes over what it read, except that on an enabled drive anything unhealthy
      latches the fault, clears the control word and ends the enabling. */
  lemma GoodCycle(c: Config, d: Drive, status: Word, position: Int32, registers: seq<Word>)
    ensures var read := d.(status := status, position := position, registers := registers, online := true);
      PollCycle(c, d, Succeeded(status, position, registers))
      == if d.enabled && !Healthy(c.address, status, registers)
         then read.(control := 0, enabled := false, fault := true) else read
  {
    LiveIffHealthy(c.address, true, status, registers);
    hide SlaveLive, Class1Error, Healthy;
  }

  /** A failed cycle always clears the control word, and is a fault exactly when the drive was enabled. */
  lemma BadCycle(c: Config, d: Drive, cycle: Cycle)
    requires cycle.Failed?
    ensures var e := PollCycle(c, d, cycle);
      && e.control == 0 && !e.enabled && !e.online && (e.fault <==> d.fault || d.enabled)
      && e.status == (if cycle.inputs.Some? then cycle.inputs.value.0 else d.status)
      && e.position == (if cycle.inputs.Some? then cycle.inputs.value.1 else d.position)
      && e.target == d.target && e.velocity == d.velocity && e.registers == d.registers
      && e.abort == d.abort && e.at == d.at && e.issued == d.issued
  {}

  // ---------------------------------------------------------------- what is staged

  /** Degrees and rpm that 32 bits can hold in steps of a ten-thousandth. */
  predicate Representable(value: real) { -214748.3648 <= value <= 214748.3647 }

  /** The number staged is the one whose ten-thousandths come nearest. */
  lemma StagedNear(t: Tag, value: real)
    requires (t == TARGET_POSITION || t == POS_VELOCITY) && Representable(value)
    ensures Abs(Staged(t, value) as real * 0.0001 - value) <= 0.00005
  {
    hide Rounded;
    var x := RawValue(t, value);
    RoundedNear(x, -0x8000_0000, 0x7FFF_FFFF);
    WrappedMeaning(t.kind, Rounded(x));
  }

  /** Parking, and holding where the drive stands, stage the very integer that was read. */
  lemma StagedReading(position: Int32)
    ensures Staged(TARGET_POSITION, position as real * 0.0001) == position
  {
    hide Rounded;
    RoundedExact(position);
    WrappedMeaning(I32, position);
  }
}
