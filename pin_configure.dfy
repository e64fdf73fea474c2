// `pinConfigure` (megaavr/cores/dxcore/wiring_extra.cpp), on the 64-pin
// variant's pin tables. The 16-bit configuration word is decoded field by
// field (bit numbers of the word as the caller passes it):
//   bits 0-1   a direction strobe: DIRSET, DIRCLR or DIRTGL (offset 1-3)
//   bits 2-3   an output strobe: OUTSET, OUTCLR or OUTTGL (offset 5-7)
//   bits 4-6   the input sense configuration, taken when bit 7 is set
//   bits 8-9   the pull-up: set, clear or toggle
//   bits 12-13 INLVL (on parts that have it): set, or clear
//   bits 14-15 INVEN: set, clear or toggle
// The strobes are written with the pin's bit mask; the PINnCTRL fields are
// gathered into one read-modify-write with interrupts off.
//
// Registers and the configuration word are sequences of bits, bit i at
// index i; shifting the word right by k is dropping its first k bits.

module PinConfigure {
  import opened Pins
  import Variant64

  /** The two-bit field at bits i and i+1 of a word, as a number 0..3. */
  function Field(w: seq<bool>, i: nat): (f: int)
    requires i + 1 < |w|
    ensures 0 <= f < 4
    ensures f == 0 <==> !w[i] && !w[i + 1]
  {
    (if w[i + 1] then 2 else 0) + (if w[i] then 1 else 0)
  }

  /** An eight-bit register, bit i at index i. */
  type Reg = s: seq<bool> | |s| == 8 witness [false, false, false, false, false, false, false, false]

  /** What a two-bit field asks of one PINnCTRL bit. */
  datatype BitAction = Keep | Set | Clear | Toggle

  /** The pull-up and INVEN fields: 1 sets, 2 clears, 3 toggles, 0 leaves alone. */
  function SetClearToggle(field: int): BitAction
  {
    if field == 0 then Keep else if field == 1 then Set else if field == 2 then Clear else Toggle
  }

  /** The INLVL field: 1 sets, 2 and 3 clear; there is no toggle. */
  function SetOrClear(field: int): BitAction
  {
    if field == 0 then Keep else if field == 1 then Set else Clear
  }

  /** One bit after its action. */
  function ApplyBit(a: BitAction, b: bool): bool
  {
    match a
    case Keep => b
    case Set => true
    case Clear => false
    case Toggle => !b
  }

  /**
   * What PINnCTRL `v` should be after the configuration, given it was `o`:
   * the ISC bits 0-2 replaced by bits 4-6 of the word when bit 7 asks for
   * it, PULLUPEN (bit 3), INLVL (bit 6, only where the part has it) and
   * INVEN (bit 7) each acted on by their own field, and bits 4-5 as they were.
   */
  predicate CtrlMeets(v: seq<bool>, o: seq<bool>, config: seq<bool>, hasInlvl: bool)
    requires |v| == |o| == 8 && |config| == 16
  {
    v[..3] == (if config[7] then config[4..7] else o[..3]) &&
    v[3] == ApplyBit(SetClearToggle(Field(config, 8)), o[3]) &&
    v[4..6] == o[4..6] &&
    v[6] == (if hasInlvl then ApplyBit(SetOrClear(Field(config, 12)), o[6]) else o[6]) &&
    v[7] == ApplyBit(SetClearToggle(Field(config, 14)), o[7])
  }

  /** The description leaves nothing open: one value meets it. */
  lemma CtrlMeetsUnique(v: seq<bool>, w: seq<bool>, o: seq<bool>, config: seq<bool>, hasInlvl: bool)
    requires |v| == |w| == |o| == 8 && |config| == 16
    requires CtrlMeets(v, o, config, hasInlvl) && CtrlMeets(w, o, config, hasInlvl)
    ensures v == w
  {
    assert v == v[..3] + v[3..4] + v[4..6] + v[6..];
    assert w == w[..3] + w[3..4] + w[4..6] + w[6..];
  }

  /** A word that asks for no toggle of the pull-up or of INVEN. */
  predicate NoToggle(config: seq<bool>)
    requires |config| == 16
  {
    Field(config, 8) != 3 && Field(config, 14) != 3
  }

  /** Setting and clearing are idempotent: a second identical call leaves PINnCTRL as the first left it. */
  lemma SecondCallChangesNothing(o: seq<bool>, v: seq<bool>, w: seq<bool>, config: seq<bool>, hasInlvl: bool)
    requires |o| == |v| == |w| == 8 && |config| == 16 && NoToggle(config)
    requires CtrlMeets(v, o, config, hasInlvl) && CtrlMeets(w, v, config, hasInlvl)
    ensures w == v
  {
    assert w == w[..3] + w[3..4] + w[4..6] + w[6..];
    assert v == v[..3] + v[3..4] + v[4..6] + v[6..];
  }

  /** A word that only toggles (pull-up and INVEN) undoes itself when applied twice. */
  lemma ToggleTwiceRestores(o: seq<bool>, v: seq<bool>, w: seq<bool>, config: seq<bool>, hasInlvl: bool)
    requires |o| == |v| == |w| == 8 && |config| == 16
    requires !config[7] && Field(config, 8) == 3 && Field(config, 12) == 0 && Field(config, 14) == 3
    requires CtrlMeets(v, o, config, hasInlvl) && CtrlMeets(w, v, config, hasInlvl)
    ensures w == o && v[3] != o[3] && v[7] != o[7]
  {
    assert w == w[..3] + w[3..4] + w[4..6] + w[6..];
    assert o == o[..3] + o[3..4] + o[4..6] + o[6..];
  }

  /** What `pinConfigure` does to the PORT registers, in order. */
  datatype PortEvent =
    | Strobe(port: int, offset: int, mask: int)
    | SaveSreg
    | DisableInterrupts
    | ReadCtrl(port: int, bit: int)
    | WriteCtrl(port: int, bit: int, value: seq<bool>)
    | RestoreSreg

  /** The strobe writes the low nibble asks for: a direction strobe, then an output strobe, each only when its field is not 0. */
  function StrobeWrites(port: int, config: seq<bool>, mask: int): (s: seq<PortEvent>)
    requires |config| == 16
    ensures |s| <= 2
    ensures forall e :: e in s ==> e.Strobe? && e.port == port && e.mask == mask && e.offset in {1, 2, 3, 5, 6, 7}
    ensures Strobe(port, 1, mask) in s <==> config[0] && !config[1]
    ensures Strobe(port, 3, mask) in s <==> config[0] && config[1]
    ensures s == [] <==> !(true in config[..4])
  {
    (if Field(config, 0) != 0 then [Strobe(port, Field(config, 0), mask)] else []) +
    (if Field(config, 2) != 0 then [Strobe(port, 4 + Field(config, 2), mask)] else [])
  }

  /**
   * The whole effect of one call, from the PINnCTRL values and the event
   * log before it (`ctrl0`, `events0`) to those after it.
   */
  predicate Configured(ctrl0: seq<Reg>, events0: seq<PortEvent>, ctrl: seq<Reg>, events: seq<PortEvent>,
                       pin: U8, config: seq<bool>, hasInlvl: bool)
    requires |config| == 16 && |ctrl0| == |ctrl| == Variant64.NUM_DIGITAL_PINS
  {
    match Variant64.Lookup(pin)
    case NoPin => ctrl == ctrl0 && events == events0
    case PinAt(port, bit, mask) =>
      if !(true in config) then
        ctrl == ctrl0 && events == events0
      else if !(true in config[4..]) then
        ctrl == ctrl0 && events == events0 + StrobeWrites(port, config, mask)
      else
        CtrlMeets(ctrl[pin], ctrl0[pin], config, hasInlvl) && ctrl == ctrl0[pin := ctrl[pin]] &&
        events == events0 + StrobeWrites(port, config, mask) +
          [SaveSreg, DisableInterrupts, ReadCtrl(port, bit), WriteCtrl(port, bit, ctrl[pin]), RestoreSreg]
  }

  /** The full path of a call: strobes, then the guarded read-modify-write of one PINnCTRL. */
  lemma ConfiguredByWrite(ctrl0: seq<Reg>, events0: seq<PortEvent>, pin: U8, config: seq<bool>, hasInlvl: bool, v: seq<bool>)
    requires |config| == 16 && |ctrl0| == Variant64.NUM_DIGITAL_PINS && |v| == 8
    requires Variant64.Lookup(pin).PinAt? && true in config[4..]
    requires CtrlMeets(v, ctrl0[pin], config, hasInlvl)
    ensures var info := Variant64.Lookup(pin);
      Configured(ctrl0, events0, ctrl0[pin := v],
        events0 + StrobeWrites(info.port, config, info.mask) +
          [SaveSreg, DisableInterrupts, ReadCtrl(info.port, info.bit), WriteCtrl(info.port, info.bit, v), RestoreSreg],
        pin, config, hasInlvl)
  {
    assert true in config by {
      var i :| 0 <= i < |config[4..]| && config[4..][i];
      assert config[4 + i];
    }
  }

  /** The path of a call whose word has only strobe fields: PINnCTRL is not touched. */
  lemma ConfiguredByStrobes(ctrl0: seq<Reg>, events0: seq<PortEvent>, pin: U8, config: seq<bool>, hasInlvl: bool)
    requires |config| == 16 && |ctrl0| == Variant64.NUM_DIGITAL_PINS
    requires Variant64.Lookup(pin).PinAt? && true in config && !(true in config[2..][2..])
    ensures Configured(ctrl0, events0, ctrl0, events0 + StrobeWrites(Variant64.Lookup(pin).port, config, Variant64.Lookup(pin).mask), pin, config, hasInlvl)
  {
    assert config[2..][2..] == config[4..];
  }

  /** The pins' PINnCTRL registers, the interrupt flag, and what has been done to the ports. */
  class Ports {
    var ctrl: seq<Reg>
    var interruptsOn: bool
    var events: seq<PortEvent>

    /** One PINnCTRL per pin of the package. */
    predicate Valid()
      reads this
    {
      |ctrl| == Variant64.NUM_DIGITAL_PINS
    }

    constructor (ctrl0: seq<Reg>, interruptsOn0: bool)
      requires |ctrl0| == Variant64.NUM_DIGITAL_PINS
      ensures Valid() && ctrl == ctrl0 && interruptsOn == interruptsOn0 && events == []
    {
      ctrl, interruptsOn, events := ctrl0, interruptsOn0, [];
    }

    /**
     * `__pinconfigure`. For a pin past the table or an all-zero word,
     * nothing happens. Otherwise the strobes the low nibble selects are
     * written with the pin's mask; and when any higher bit is set, PINnCTRL
     * is read once and written once, between saving SREG with interrupts
     * disabled and restoring it. The interrupt flag ends as it began.
     */
    method PinConfigure(pin: U8, config: seq<bool>, hasInlvl: bool)
      requires Valid() && |config| == 16
      modifies this
      ensures Valid() && interruptsOn == old(interruptsOn)
      ensures Configured(old(ctrl), old(events), ctrl, events, pin, config, hasInlvl)
    {
      var info := Variant64.Lookup(pin);
      if info.NoPin? || !(true in config) {
        return;
      }
      var port, bitPos, mask := info.port, info.bit, info.mask;
      var pinConfig := WriteStrobes(port, config, mask);
      if !(true in pinConfig[2..]) {
        ConfiguredByStrobes(ctrl, old(events), pin, config, hasInlvl);
        return;
      }
      var oldSreg := interruptsOn;
      events := events + [SaveSreg, DisableInterrupts];
      interruptsOn := false;
      pinConfig := pinConfig[2..];
      var pinncfg := ReadModifyWrite(ctrl[pin], pinConfig, hasInlvl, config);
      ConfiguredByWrite(ctrl, old(events), pin, config, hasInlvl, pinncfg);
      ctrl := ctrl[pin := pinncfg];
      events := events + [ReadCtrl(port, bitPos), WriteCtrl(port, bitPos, pinncfg), RestoreSreg];
      interruptsOn := oldSreg;
    }

    /**
     * The two strobes: the direction field selects DIRSET, DIRCLR or DIRTGL,
     * then, the word shifted right by two, the output field selects OUTSET,
     * OUTCLR or OUTTGL; a zero field writes nothing. The shifted word is
     * handed back.
     */
    method WriteStrobes(port: int, config: seq<bool>, mask: int) returns (pinConfig: seq<bool>)
      requires |config| == 16
      modifies this
      ensures ctrl == old(ctrl) && interruptsOn == old(interruptsOn)
      ensures events == old(events) + StrobeWrites(port, config, mask)
      ensures pinConfig == config[2..]
    {
      pinConfig := config;
      var setting := Field(pinConfig, 0);
      if setting != 0 {
        events := events + [Strobe(port, setting, mask)];
      }
      pinConfig := pinConfig[2..];
      setting := Field(pinConfig, 0);
      if setting != 0 {
        events := events + [Strobe(port, 4 + setting, mask)];
      }
    }

    /**
     * `_pinconfigure`: on the board's input-only pin (HARDWIRE_INPUT_ONLY;
     * NOT_A_PIN when the board has none) a word with bit 0 set has its
     * direction field cleared before `__pinconfigure`, so that pin is never
     * sent DIRSET or DIRTGL; every other call passes the word through.
     */
    method PinConfigureChecked(pin: U8, config: seq<bool>, hasInlvl: bool, hardwireInputOnly: int)
      returns (used: seq<bool>)
      requires Valid() && |config| == 16
      modifies this
      ensures Valid() && interruptsOn == old(interruptsOn) && |used| == 16
      ensures used[2..] == config[2..]
      ensures pin == hardwireInputOnly ==> !used[0] && used[1] == (config[1] && !config[0])
      ensures pin != hardwireInputOnly ==> used == config
      ensures Configured(old(ctrl), old(events), ctrl, events, pin, used, hasInlvl)
    {
      used := config;
      if used[0] && pin == hardwireInputOnly {
        used := [false, false] + used[2..];
      }
      PinConfigure(pin, used, hasInlvl);
    }
  }

  /**
   * The read-modify-write of PINnCTRL, on the word already shifted right by
   * four: the ISC field and the pull-up, then, after shifting by eight more,
   * INLVL (only where the part has it) and INVEN.
   */
  method ReadModifyWrite(ctrl0: seq<bool>, pinConfig: seq<bool>, hasInlvl: bool, ghost config: seq<bool>)
    returns (pinncfg: seq<bool>)
    requires |ctrl0| == 8 && |config| == 16 && pinConfig == config[4..]
    ensures |pinncfg| == 8 && CtrlMeets(pinncfg, ctrl0, config, hasInlvl)
  {
    pinncfg := IscAndPullup(ctrl0, pinConfig);
    var rest := pinConfig[8..];
    var c := pinncfg;
    pinncfg := InlvlAndInven(pinncfg, rest, hasInlvl);
    FieldsOfShifted(config, pinConfig);
    assert pinncfg[4..6] == c[4..6] == ctrl0[4..6];
  }

  /** ISC: bits 0-2 of the shifted word when its bit 3 is set; then the pull-up field, bits 4-5. */
  method IscAndPullup(ctrl0: seq<bool>, pinConfig: seq<bool>) returns (pinncfg: seq<bool>)
    requires |ctrl0| == 8 && |pinConfig| == 12
    ensures |pinncfg| == 8
    ensures pinncfg[..3] == if pinConfig[3] then pinConfig[..3] else ctrl0[..3]
    ensures pinncfg[3] == ApplyBit(SetClearToggle(Field(pinConfig, 4)), ctrl0[3])
    ensures pinncfg[4..] == ctrl0[4..]
  {
    pinncfg := ctrl0;
    if pinConfig[3] {
      pinncfg := pinConfig[..3] + pinncfg[3..];
    }
    var temp := Field(pinConfig, 4);
    if temp != 0 {
      if temp == 3 {
        pinncfg := pinncfg[3 := !pinncfg[3]];
      } else if temp == 2 {
        pinncfg := pinncfg[3 := false];
      } else {
        pinncfg := pinncfg[3 := true];
      }
    }
  }

  /** INLVL from bits 0-1 of the word shifted by twelve (set, or clear), where the part has it; INVEN from bits 2-3. */
  method InlvlAndInven(ctrl0: seq<bool>, rest: seq<bool>, hasInlvl: bool) returns (pinncfg: seq<bool>)
    requires |ctrl0| == 8 && |rest| == 4
    ensures |pinncfg| == 8 && pinncfg[..6] == ctrl0[..6]
    ensures pinncfg[6] == if hasInlvl then ApplyBit(SetOrClear(Field(rest, 0)), ctrl0[6]) else ctrl0[6]
    ensures pinncfg[7] == ApplyBit(SetClearToggle(Field(rest, 2)), ctrl0[7])
  {
    pinncfg := ctrl0;
    var temp;
    if hasInlvl {
      temp := Field(rest, 0);
      if temp != 0 {
        if temp == 1 {
          pinncfg := pinncfg[6 := true];
        } else {
          pinncfg := pinncfg[6 := false];
        }
      }
    }
    temp := Field(rest, 2);
    if temp != 0 {
      if temp == 3 {
        pinncfg := pinncfg[7 := !pinncfg[7]];
      } else if temp == 2 {
        pinncfg := pinncfg[7 := false];
      } else {
        pinncfg := pinncfg[7 := true];
      }
    }
  }

  /** Bits of the word shifted right by four are the word's bits four places up. */
  lemma FieldsOfShifted(config: seq<bool>, pinConfig: seq<bool>)
    requires |config| == 16 && config[4..] == pinConfig
    ensures config[7] == pinConfig[3] && config[4..7] == pinConfig[..3]
    ensures Field(config, 8) == Field(pinConfig, 4)
    ensures Field(config, 12) == Field(pinConfig[8..], 0) && Field(config, 14) == Field(pinConfig[8..], 2)
  {
    assert config[7] == config[4..][3];
    assert config[8] == config[4..][4] && config[9] == config[4..][5];
    assert config[12] == config[4..][8] && config[13] == config[4..][9];
    assert config[14] == config[4..][10] && config[15] == config[4..][11];
  }
}
