// The Azduino MAX38903 regulator control (AzduinoMAX38903.h). A setting
// byte 0bBA00DC00 describes the regulator's two three-level select inputs:
// A and B say whether SELA (PG6) and SELB (PG7) are driven, C and D give
// the level driven; 0xFF turns the regulator off. `setMAX38903Voltage`
// checks the byte, takes the enable pin PE6 low, sets up PG6 and PG7, and
// raises PE6 again.

module Max38903 {
  /** What a select input sees: an undriven pin, or a pin driven low or high. */
  datatype Level = Floating | Low | High

  const REG_OFF: bv8 := 0xFF
  const REG_1V2: bv8 := 0x44
  const REG_1V5: bv8 := 0x88
  const REG_1V8: bv8 := 0x40
  const REG_2V5: bv8 := 0x00
  const REG_3V0: bv8 := 0xC0
  const REG_3V1: bv8 := 0xC4
  const REG_3V3: bv8 := 0x80
  const REG_4V0: bv8 := 0xC8
  const REG_5V0: bv8 := 0xCC

  /** The AVR `swap` instruction: the two nibbles exchanged. */
  function NibbleSwap(x: bv8): (y: bv8)
    ensures (y << 4) | (y >> 4) == x
  {
    (x << 4) | (x >> 4)
  }

  /** The checks as written: no bit of 0x33 set (unless OFF), and the byte not below its nibble swap. */
  predicate AcceptedAsWritten(setting: bv8)
  {
    !(setting & 0x33 != 0 && setting != REG_OFF) && !(setting < NibbleSwap(setting))
  }

  /**
   * A meaningful setting: OFF, or a byte using only the A, B, C and D bits
   * in which C is set only with A and D only with B.
   */
  predicate ValidSetting(setting: bv8)
  {
    setting == REG_OFF ||
    (setting & 0x33 == 0 && (setting & 0x04 == 0 || setting & 0x40 != 0) && (setting & 0x08 == 0 || setting & 0x80 != 0))
  }

  /**
   * Comparing the byte with its nibble swap compares BA with DC as two-bit
   * numbers, which is weaker than "C only with A, D only with B": the check
   * lets through 0x84 (B and C without A) and nothing else that is not valid.
   */
  lemma AcceptedAsWrittenLetsThrough(setting: bv8)
    ensures AcceptedAsWritten(setting) <==> ValidSetting(setting) || setting == 0x84
  {
  }

  /** The level a select input gets from its enable bit and its level bit. */
  function SelLevel(setting: bv8, enableBit: bv8, levelBit: bv8): Level
  {
    if setting & enableBit == 0 then Floating
    else if setting & levelBit != 0 then High
    else Low
  }

  /** What SELA should see: driven when A (bit 6) is set, at the level of C (bit 2). */
  function SelA(setting: bv8): Level
  {
    SelLevel(setting, 0x40, 0x04)
  }

  /** What SELB should see: driven when B (bit 7) is set, at the level of D (bit 3). */
  function SelB(setting: bv8): Level
  {
    SelLevel(setting, 0x80, 0x08)
  }

  /** The setting byte for a pair of select levels. */
  function Encode(a: Level, b: Level): (setting: bv8)
    ensures ValidSetting(setting) && setting != REG_OFF
  {
    (match a case Floating => 0x00 case Low => 0x40 case High => 0x44) |
    (match b case Floating => 0x00 case Low => 0x80 case High => 0x88)
  }

  /** Every pair of levels has exactly one valid setting: encoding and decoding are inverse. */
  lemma EncodeRoundTrip(a: Level, b: Level, setting: bv8)
    ensures SelA(Encode(a, b)) == a && SelB(Encode(a, b)) == b
    ensures ValidSetting(setting) && setting != REG_OFF ==> Encode(SelA(setting), SelB(setting)) == setting
  {
  }

  /** The REG_* names are the encodings of the select levels their comments give. */
  lemma RegConstants()
    ensures REG_1V2 == Encode(High, Floating) && REG_1V5 == Encode(Floating, High)
    ensures REG_1V8 == Encode(Low, Floating) && REG_2V5 == Encode(Floating, Floating)
    ensures REG_3V0 == Encode(Low, Low) && REG_3V1 == Encode(High, Low)
    ensures REG_3V3 == Encode(Floating, Low) && REG_4V0 == Encode(Low, High)
    ensures REG_5V0 == Encode(High, High)
  {
  }

  /** What PG6 gets as written: the direction test on bit 6 is negated, so A set leaves PG6 undriven. */
  function SelAAsWritten(setting: bv8): Level
  {
    if setting & 0x40 != 0 then Floating
    else if setting & 0x04 != 0 then High
    else Low
  }

  /**
   * As written, REG_1V2 and REG_1V8 leave both select inputs floating, as
   * REG_2V5 should; REG_2V5 drives SELA low; and no accepted setting gives
   * SELA high with SELB floating, the 1.2 V state.
   */
  lemma SelAAsWrittenMisdecodes(setting: bv8)
    ensures SelAAsWritten(REG_1V2) == SelAAsWritten(REG_1V8) == Floating
    ensures SelAAsWritten(REG_2V5) == Low
    ensures AcceptedAsWritten(setting) ==> !(SelAAsWritten(setting) == High && SelB(setting) == Floating)
  {
  }

  /** The four VPORT registers the routine touches. */
  datatype Register = PortEOut | PortEDir | PortGOut | PortGDir

  /** One `sbi` or `cbi`: a bit of a VPORT register set or cleared. */
  datatype BitWrite = BitWrite(register: Register, bit: nat, value: bool)

  /** The level a pin shows, from its DIR and OUT bits. */
  function PinLevel(dir: bool, out: bool): Level
  {
    if !dir then Floating else if out then High else Low
  }

  /** The writes after the first stay off PORTE.OUT until the last: the enable pin PE6 is held low meanwhile. */
  predicate EnableHeldLow(writes: seq<BitWrite>)
  {
    |writes| >= 2 && writes[0] == BitWrite(PortEOut, 6, false) && writes[|writes| - 1] == BitWrite(PortEOut, 6, true) &&
    forall i :: 0 < i < |writes| - 1 ==> writes[i].register != PortEOut
  }

  /**
   * VPORTE and VPORTG, bit by bit (bit n of a register is element n), with
   * the `sbi`/`cbi` writes made so far.
   */
  class Regulator {
    var eOut: seq<bool>
    var eDir: seq<bool>
    var gOut: seq<bool>
    var gDir: seq<bool>
    var writes: seq<BitWrite>

    /** Each register has eight bits. */
    predicate Valid()
      reads this
    {
      |eOut| == |eDir| == |gOut| == |gDir| == 8
    }

    constructor (eOut0: seq<bool>, eDir0: seq<bool>, gOut0: seq<bool>, gDir0: seq<bool>)
      requires |eOut0| == |eDir0| == |gOut0| == |gDir0| == 8
      ensures Valid()
      ensures eOut == eOut0 && eDir == eDir0 && gOut == gOut0 && gDir == gDir0 && writes == []
    {
      eOut, eDir, gOut, gDir := eOut0, eDir0, gOut0, gDir0;
      writes := [];
    }

    /** One `sbi` (value true) or `cbi` (value false) on a register bit; the rest of the registers stay. */
    method WriteBit(register: Register, bit: nat, value: bool)
      requires Valid() && bit < 8
      modifies this
      ensures Valid() && writes == old(writes) + [BitWrite(register, bit, value)]
      ensures eOut == if register == PortEOut then old(eOut)[bit := value] else old(eOut)
      ensures eDir == if register == PortEDir then old(eDir)[bit := value] else old(eDir)
      ensures gOut == if register == PortGOut then old(gOut)[bit := value] else old(gOut)
      ensures gDir == if register == PortGDir then old(gDir)[bit := value] else old(gDir)
    {
      match register {
        case PortEOut => eOut := eOut[bit := value];
        case PortEDir => eDir := eDir[bit := value];
        case PortGOut => gOut := gOut[bit := value];
        case PortGDir => gDir := gDir[bit := value];
      }
      writes := writes + [BitWrite(register, bit, value)];
    }

    /**
     * One select pin of PORTG set to a level: an undriven pin has its DIR
     * bit cleared; a driven one has DIR set, then OUT set or cleared. No
     * other bit changes and PORTE is not written.
     */
    method DriveSelect(bit: nat, level: Level)
      requires Valid() && (bit == 6 || bit == 7)
      modifies this
      ensures Valid() && PinLevel(gDir[bit], gOut[bit]) == level
      ensures forall j :: 0 <= j < 8 && j != bit ==> gDir[j] == old(gDir)[j] && gOut[j] == old(gOut)[j]
      ensures eOut == old(eOut) && eDir == old(eDir)
      ensures |writes| > |old(writes)| && writes[..|old(writes)|] == old(writes)
      ensures forall i :: |old(writes)| <= i < |writes| ==> writes[i].register != PortEOut
    {
      ghost var w0 := writes;
      if level != Floating {
        WriteBit(PortGDir, bit, true);
        WriteBit(PortGOut, bit, level == High);
        assert writes == w0 + [BitWrite(PortGDir, bit, true), BitWrite(PortGOut, bit, level == High)];
      } else {
        WriteBit(PortGDir, bit, false);
      }
    }

    /**
     * The end of a voltage setting: SELB (PG7), then SELA (PG6), set to their
     * levels without writing PORTE.OUT, then PE6 raised.
     */
    method SelectAndEnable(a: Level, b: Level)
      requires Valid()
      modifies this
      ensures Valid() && eOut == old(eOut)[6 := true] && eDir == old(eDir)
      ensures PinLevel(gDir[6], gOut[6]) == a && PinLevel(gDir[7], gOut[7]) == b
      ensures gDir[..6] == old(gDir)[..6] && gOut[..6] == old(gOut)[..6]
      ensures |writes| > |old(writes)| + 1 && writes[..|old(writes)|] == old(writes)
      ensures forall i :: |old(writes)| <= i < |writes| - 1 ==> writes[i].register != PortEOut
      ensures writes[|writes| - 1] == BitWrite(PortEOut, 6, true)
    {
      DriveSelect(7, b);
      DriveSelect(6, a);
      WriteBit(PortEOut, 6, true);
    }

    /**
     * `setMAX38903Voltage` with the select test on bit 6 the right way round
     * and the validity check meaning what the encoding says. An invalid
     * setting returns -1 and touches nothing. Otherwise PE6 is made an output
     * and driven low; OFF stops there and returns 0. A voltage setting then
     * gives SELA (PG6) and SELB (PG7) the levels the setting encodes, SELB
     * first, with PE6 held low all the while, raises PE6 and returns 1. No
     * other pin changes.
     */
    method SetVoltage(setting: bv8) returns (r: int)
      requires Valid()
      modifies this
      ensures Valid()
      ensures !ValidSetting(setting) ==> r == -1 && unchanged(this)
      ensures ValidSetting(setting) ==> eDir == old(eDir)[6 := true] && PinLevel(eDir[6], eOut[6]) != Floating
      ensures ValidSetting(setting) ==> forall j :: 0 <= j < 8 && j != 6 ==> eOut[j] == old(eOut)[j]
      ensures ValidSetting(setting) && setting == REG_OFF ==>
        r == 0 && eOut == old(eOut)[6 := false] && gOut == old(gOut) && gDir == old(gDir) &&
        writes == old(writes) + [BitWrite(PortEOut, 6, false), BitWrite(PortEDir, 6, true)]
      ensures ValidSetting(setting) && setting != REG_OFF ==>
        r == 1 && PinLevel(eDir[6], eOut[6]) == High &&
        PinLevel(gDir[6], gOut[6]) == SelA(setting) && PinLevel(gDir[7], gOut[7]) == SelB(setting) &&
        gDir[..6] == old(gDir)[..6] && gOut[..6] == old(gOut)[..6] &&
        |writes| > |old(writes)| && writes[..|old(writes)|] == old(writes) &&
        EnableHeldLow(writes[|old(writes)|..])
    {
      if !ValidSetting(setting) {
        return -1;
      }
      ghost var n := |writes|;
      WriteBit(PortEOut, 6, false);
      WriteBit(PortEDir, 6, true);
      if setting == REG_OFF {
        return 0;
      }
      SelectAndEnable(SelA(setting), SelB(setting));
      r := 1;
      assert writes[..n] == old(writes);
      assert writes[n] == BitWrite(PortEOut, 6, false) && writes[n + 1].register == PortEDir;
    }
  }
}
