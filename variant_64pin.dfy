// The pin tables and the analog-channel and PWM macros of the 64-pin DA/DB
// variant (megaavr/variants/64pin-standard/pins_arduino.h). Pins are
// numbered port by port: PA0-PE7 are 0-39, PF0-PF5 40-45, PG0-PG7 46-53,
// and PF6 (RESET) comes last as 54. The ADC reaches PD0-PF5 as channels
// 0-21.

module Variant64 {
  import opened Pins

  /** NUM_DIGITAL_PINS. */
  const NUM_DIGITAL_PINS: int := 55

  /** Whether PORTx has a pin at `bit` on this package. */
  predicate PortHasBit(port: int, bit: int)
  {
    0 <= bit && ((PA <= port <= PE && bit < 8) || (port == PF && bit < 7) || (port == PG && bit < 8))
  }

  /** The PIN_Pxn number of a pin: ports A-E eight apiece, PF0-PF5, PG, then PF6. */
  function PinNumber(port: int, bit: int): (p: int)
    requires PortHasBit(port, bit)
    ensures 0 <= p < NUM_DIGITAL_PINS
  {
    if port <= PE then port * 8 + bit
    else if port == PF then (if bit < 6 then 40 + bit else 54)
    else 46 + bit
  }

  /** Two different pins never share a number. */
  lemma PinNumberInjective(port: int, bit: int, port': int, bit': int)
    requires PortHasBit(port, bit) && PortHasBit(port', bit')
    ensures PinNumber(port, bit) == PinNumber(port', bit') ==> port == port' && bit == bit'
  {
  }

  // ---------------------------------------------------------------------
  // The pin tables, one block per port run (PF0-PF5, then PG, then PF6)

  /** `digital_pin_to_port`. */
  const PORT_TABLE: seq<int> :=
    (([PA, PA, PA, PA, PA, PA, PA, PA] + [PB, PB, PB, PB, PB, PB, PB, PB]) +
     ([PC, PC, PC, PC, PC, PC, PC, PC] + [PD, PD, PD, PD, PD, PD, PD, PD])) +
    (([PE, PE, PE, PE, PE, PE, PE, PE] + [PF, PF, PF, PF, PF, PF]) +
     ([PG, PG, PG, PG, PG, PG, PG, PG] + [PF]))

  /** `digital_pin_to_bit_position`. */
  const BIT_POSITION_TABLE: seq<int> :=
    (([0, 1, 2, 3, 4, 5, 6, 7] + [0, 1, 2, 3, 4, 5, 6, 7]) +
     ([0, 1, 2, 3, 4, 5, 6, 7] + [0, 1, 2, 3, 4, 5, 6, 7])) +
    (([0, 1, 2, 3, 4, 5, 6, 7] + [0, 1, 2, 3, 4, 5]) +
     ([0, 1, 2, 3, 4, 5, 6, 7] + [6]))

  /** `digital_pin_to_bit_mask`. */
  const BIT_MASK_TABLE: seq<int> :=
    (([1, 2, 4, 8, 16, 32, 64, 128] + [1, 2, 4, 8, 16, 32, 64, 128]) +
     ([1, 2, 4, 8, 16, 32, 64, 128] + [1, 2, 4, 8, 16, 32, 64, 128])) +
    (([1, 2, 4, 8, 16, 32, 64, 128] + [1, 2, 4, 8, 16, 32]) +
     ([1, 2, 4, 8, 16, 32, 64, 128] + [64]))

  /**
   * Read the other way, entry p of the tables is the pin numbered p: a port
   * and bit of the package with that PIN_Pxn number, and the bit's PINn_bm
   * as its mask.
   */
  lemma TablesDescribePins(p: int)
    requires 0 <= p < NUM_DIGITAL_PINS
    ensures |PORT_TABLE| == |BIT_POSITION_TABLE| == |BIT_MASK_TABLE| == NUM_DIGITAL_PINS
    ensures PortHasBit(PORT_TABLE[p], BIT_POSITION_TABLE[p])
    ensures PinNumber(PORT_TABLE[p], BIT_POSITION_TABLE[p]) == p
    ensures 0 <= BIT_POSITION_TABLE[p] < 8 && BIT_MASK_TABLE[p] == BIT_MASKS[BIT_POSITION_TABLE[p]]
  {
    var port := if p < 40 then p / 8 else if p < 46 || p == 54 then PF else PG;
    var bit := if p < 40 then p % 8 else if p < 46 then p - 40 else if p == 54 then 6 else p - 46;
    assert PortHasBit(port, bit) && PinNumber(port, bit) == p;
    TablesCoverPins(port, bit);
  }

  /** Every pin of the package has its entry: its port, its bit, and that bit's PINn_bm. */
  lemma TablesCoverPins(port: int, bit: int)
    requires PortHasBit(port, bit)
    ensures |PORT_TABLE| == |BIT_POSITION_TABLE| == |BIT_MASK_TABLE| == NUM_DIGITAL_PINS
    ensures PORT_TABLE[PinNumber(port, bit)] == port
    ensures BIT_POSITION_TABLE[PinNumber(port, bit)] == bit
    ensures BIT_MASK_TABLE[PinNumber(port, bit)] == BIT_MASKS[bit]
  {
    PortTableAt(port, bit);
    BitPositionTableAt(port, bit);
    BitMaskTableAt(port, bit);
  }

  /** `digital_pin_to_port` at each pin's number. */
  lemma PortTableAt(port: int, bit: int)
    requires PortHasBit(port, bit)
    ensures |PORT_TABLE| == NUM_DIGITAL_PINS && PORT_TABLE[PinNumber(port, bit)] == port
  {
    if port == PA {
    } else if port == PB {
    } else if port == PC {
    } else if port == PD {
    } else if port == PE {
    } else if port == PF {
    } else {
    }
  }

  /** `digital_pin_to_bit_position` at each pin's number. */
  lemma BitPositionTableAt(port: int, bit: int)
    requires PortHasBit(port, bit)
    ensures |BIT_POSITION_TABLE| == NUM_DIGITAL_PINS && BIT_POSITION_TABLE[PinNumber(port, bit)] == bit
  {
    if port == PA {
    } else if port == PB {
    } else if port == PC {
    } else if port == PD {
    } else if port == PE {
    } else if port == PF {
    } else {
    }
  }

  /** `digital_pin_to_bit_mask` at each pin's number. */
  lemma BitMaskTableAt(port: int, bit: int)
    requires PortHasBit(port, bit)
    ensures |BIT_MASK_TABLE| == NUM_DIGITAL_PINS && BIT_MASK_TABLE[PinNumber(port, bit)] == BIT_MASKS[bit]
  {
    if port == PA {
    } else if port == PB {
    } else if port == PC {
    } else if port == PD {
    } else if port == PE {
    } else if port == PF {
    } else {
    }
  }

  /** Where a pin is, as `digitalPinToPort`, `digitalPinToBitPosition` and `digitalPinToBitMask` (Arduino.h) give it. */
  datatype PinInfo = NoPin | PinAt(port: int, bit: int, mask: int)

  /** The table lookups, guarded by the pin count as the core's macros guard them. */
  function Lookup(pin: U8): (r: PinInfo)
    ensures r.PinAt? <==> pin < NUM_DIGITAL_PINS
    ensures r.PinAt? ==>
      PortHasBit(r.port, r.bit) && PinNumber(r.port, r.bit) == pin &&
      0 <= r.bit < 8 && r.mask == BIT_MASKS[r.bit]
  {
    if pin < NUM_DIGITAL_PINS then
      TablesDescribePins(pin);
      PinAt(PORT_TABLE[pin], BIT_POSITION_TABLE[pin], BIT_MASK_TABLE[pin])
    else NoPin
  }

  // ---------------------------------------------------------------------
  // Analog channels

  /**
   * `digitalPinToAnalogInput` as written: every pin from PC7 up to (not
   * including) PF6 is counted from PD0.
   */
  function DigitalPinToAnalogInputAsWritten(p: U8): int
  {
    if p >= 23 && p < 54 then p - 24 else NOT_A_PIN
  }

  /**
   * The lower bound is PC7 rather than PD0, so PC7 gets -1; and the range
   * runs on through PG0-PG7, which are not ADC inputs: PG0 gets channel 22,
   * and channel 22 leads to no pin.
   */
  lemma DigitalPinToAnalogInputAsWrittenMisreads()
    ensures DigitalPinToAnalogInputAsWritten(23) == -1
    ensures DigitalPinToAnalogInputAsWritten(46) == 22
    ensures AnalogChannelToDigitalPin(DigitalPinToAnalogInputAsWritten(46) as U8) == NOT_A_PIN
  {
  }

  /** `analogChannelToDigitalPin`: channels 0-21 are PD0-PF5, anything else is NOT_A_PIN. */
  function AnalogChannelToDigitalPin(c: U8): (p: int)
    ensures p != NOT_A_PIN <==> c < 22
    ensures p != NOT_A_PIN ==> 24 <= p < 46
  {
    if c < 22 then c + 24 else NOT_A_PIN
  }

  /**
   * `digitalPinToAnalogInput` limited to the pins that have a channel,
   * PD0-PF5 (PIN_A0-PIN_A21): the channel leads back to the pin.
   */
  function DigitalPinToAnalogInput(p: U8): (c: int)
    ensures c != NOT_A_PIN <==> 24 <= p < 46
    ensures c != NOT_A_PIN ==> 0 <= c < 22 && AnalogChannelToDigitalPin(c) == p
  {
    if p >= 24 && p < 46 then p - 24 else NOT_A_PIN
  }

  /** Every channel comes back to itself through its pin. */
  lemma ChannelRoundTrip(c: U8)
    requires c < 22
    ensures DigitalPinToAnalogInput(AnalogChannelToDigitalPin(c)) == c
  {
  }

  /** The written and the limited mapping agree on every pin with a channel. */
  lemma AsWrittenAgreesOnChannels(p: U8)
    ensures DigitalPinToAnalogInputAsWritten(p) == DigitalPinToAnalogInput(p) <==> p != 23 && !(46 <= p < 54)
  {
  }

  /** `analogInputToDigitalPin`: a channel with or without the channel-number flag (bit 7). */
  function AnalogInputToDigitalPin(c: U8): (p: int)
    ensures c < 128 ==> p == AnalogChannelToDigitalPin(c)
    ensures c >= 128 ==> p == AnalogChannelToDigitalPin(c - 128)
  {
    if c >= 128 then AnalogChannelToDigitalPin(c % 128) else AnalogChannelToDigitalPin(c)
  }

  /**
   * `digitalOrAnalogPinToDigital` as written: with bit 7 clear the pin is
   * passed through when it is at most NUM_DIGITAL_PINS.
   */
  function DigitalOrAnalogPinToDigitalAsWritten(p: U8): int
  {
    if p >= 128 then AnalogChannelToDigitalPin(p % 128)
    else if p <= NUM_DIGITAL_PINS then p
    else NOT_A_PIN
  }

  /** Pin 55 does not exist, yet it is passed through as a pin. */
  lemma DigitalOrAnalogPinToDigitalAsWrittenPassesNoPin()
    ensures DigitalOrAnalogPinToDigitalAsWritten(NUM_DIGITAL_PINS) == NUM_DIGITAL_PINS
  {
  }

  /**
   * `digitalOrAnalogPinToDigital` with the bound made strict: a channel ID
   * (bit 7 set) becomes its pin, a pin number is kept exactly when such a
   * pin exists, and the result is always a pin or NOT_A_PIN.
   */
  function DigitalOrAnalogPinToDigital(p: U8): (d: int)
    ensures p >= 128 ==> d == AnalogChannelToDigitalPin(p - 128)
    ensures p < 128 ==> (d == p <==> p < NUM_DIGITAL_PINS)
    ensures d == NOT_A_PIN || 0 <= d < NUM_DIGITAL_PINS
  {
    if p >= 128 then AnalogChannelToDigitalPin(p % 128)
    else if p < NUM_DIGITAL_PINS then p
    else NOT_A_PIN
  }

  /** The written and the corrected macro differ on pin 55 alone. */
  lemma DigitalOrAnalogPinToDigitalDiffers(p: U8)
    ensures DigitalOrAnalogPinToDigitalAsWritten(p) != DigitalOrAnalogPinToDigital(p) <==> p == NUM_DIGITAL_PINS
  {
  }

  /**
   * `portToDigitalPinZero`: the number of pin 0 of each port. Adding the bit
   * gives the pin's number for every pin except PF6, which is numbered last.
   */
  function PortToDigitalPinZero(port: U8): (z: int)
    ensures forall bit :: PortHasBit(port, bit) && !(port == PF && bit == 6) ==> z + bit == PinNumber(port, bit)
    ensures z == NOT_A_PIN <==> port > PG
  {
    if port < PG then port * 8
    else if port == PG then 46
    else NOT_A_PIN
  }

  // ---------------------------------------------------------------------
  // PWM

  /** The TCB pins (PB4, PB5, PF4, PF5, PG3) that can give PWM, less the one whose TCB drives millis(). */
  predicate DigitalPinHasPWMTCB(millis: MillisTimer, p: int)
  {
    match millis
    case MillisB0 => p == 12 || p == 13 || p == 45 || p == 49
    case MillisB1 => p == 12 || p == 13 || p == 44 || p == 49
    case MillisB2 => p == 13 || p == 44 || p == 45 || p == 49
    case MillisB3 => p == 12 || p == 44 || p == 45 || p == 49
    case MillisB4 => p == 12 || p == 44 || p == 45 || p == 13
    case MillisOther => p == 12 || p == 13 || p == 44 || p == 45 || p == 49
  }

  /** The pin each millis() TCB takes away: TCB0 on PF4, TCB1 on PF5, TCB2 on PB4, TCB3 on PB5, TCB4 on PG3. */
  function MillisPin(millis: MillisTimer): (p: int)
    ensures !millis.MillisOther? ==> DigitalPinHasPWMTCB(MillisOther, p) && !DigitalPinHasPWMTCB(millis, p)
  {
    match millis
    case MillisB0 => 44
    case MillisB1 => 45
    case MillisB2 => 12
    case MillisB3 => 13
    case MillisB4 => 49
    case MillisOther => NOT_A_PIN
  }

  /** Each MILLIS_USE_TIMERBn branch drops exactly its TCB's pin from the default set. */
  lemma MillisDropsOnePin(millis: MillisTimer, p: int)
    ensures DigitalPinHasPWMTCB(millis, p) <==> DigitalPinHasPWMTCB(MillisOther, p) && p != MillisPin(millis)
  {
  }

  /**
   * `digitalPinHasPWM` as written: a TCB pin, or PA4-PC5 except PB6 — the
   * exclusion is written twice, for PB6 both times.
   */
  predicate DigitalPinHasPWMAsWritten(millis: MillisTimer, p: int)
  {
    DigitalPinHasPWMTCB(millis, p) || (4 <= p <= 21 && p != 14 && p != 14)
  }

  /**
   * PB7 has no timer output (TCA1 drives PB0-PB5, TCA0 PC0-PC5, TCD0
   * PA4-PA7), yet the macro as written says it has PWM.
   */
  lemma DigitalPinHasPWMAsWrittenClaimsPB7(millis: MillisTimer)
    ensures DigitalPinHasPWMAsWritten(millis, 15)
    ensures !DigitalPinHasPWMTCB(millis, 15)
  {
  }

  /**
   * The timer outputs the core sets up: TCD0 on PA4-PA7, TCA1 on PB0-PB5,
   * TCA0 on PC0-PC5.
   */
  predicate TimerOutput(port: int, bit: int)
  {
    (port == PA && 4 <= bit < 8) || (port == PB && 0 <= bit < 6) || (port == PC && 0 <= bit < 6)
  }

  /** `digitalPinHasPWM` with the second exclusion naming PB7. */
  predicate DigitalPinHasPWM(millis: MillisTimer, p: int)
  {
    DigitalPinHasPWMTCB(millis, p) || (4 <= p <= 21 && p != 14 && p != 15)
  }

  /**
   * Outside the TCB pins, the corrected macro answers yes exactly for the
   * pins of the TCA and TCD outputs.
   */
  lemma DigitalPinHasPWMMatchesTimers(millis: MillisTimer, port: int, bit: int)
    requires PortHasBit(port, bit)
    ensures DigitalPinHasPWM(millis, PinNumber(port, bit)) <==>
      DigitalPinHasPWMTCB(millis, PinNumber(port, bit)) || TimerOutput(port, bit)
  {
  }

  /** The written and the corrected macro differ on PB7 alone. */
  lemma DigitalPinHasPWMDiffers(millis: MillisTimer, p: int)
    ensures DigitalPinHasPWMAsWritten(millis, p) != DigitalPinHasPWM(millis, p) <==> p == 15
  {
  }
}
