// The pin tables and the analog-channel macros of the 32-pin DU variant
// (megaavr/variants/32pin-duseries/pins_arduino.h). Pins are numbered
// PA0-PA7 0-7, PC0-PC3 8-11, PD0-PD7 12-19 (the package has no PD0: pin 12
// is kept as a placeholder), PF0-PF7 20-27. The ADC reaches PD1-PD7 as
// channels 1-7, PF0-PF5 as 16-21 and PA2-PC3 as 22-31; with MVIO enabled
// PORTC runs from VDDIO2 and its channels 28-31 are gone.

module Variant32Du {
  import opened Pins

  /** PINS_COUNT; NUM_DIGITAL_PINS is PINS_COUNT less the reserved pins, of which there are none. */
  const NUM_DIGITAL_PINS: int := 28

  /** Whether PORTx has a pin at `bit` on this package. */
  predicate PortHasBit(port: int, bit: int)
  {
    (port == PA && 0 <= bit < 8) || (port == PC && 0 <= bit < 4) ||
    (port == PD && 1 <= bit < 8) || (port == PF && 0 <= bit < 8)
  }

  /** The PIN_Pxn number of a pin (PD0 would be 12). */
  function PinNumber(port: int, bit: int): (p: int)
    requires PortHasBit(port, bit)
    ensures 0 <= p < NUM_DIGITAL_PINS && p != 12
  {
    if port == PA then bit
    else if port == PC then 8 + bit
    else if port == PD then 12 + bit
    else 20 + bit
  }

  // ---------------------------------------------------------------------
  // Analog channels

  /** `digitalPinToAnalogInput` when the MVIO fuse is known to be set: PORTC has no channel. */
  function DigitalPinToAnalogInputMvio(p: U8): int
  {
    if p >= 12 then (if p < 20 then p - 12 else if p < 26 then p - 4 else NOT_A_PIN)
    else if p > 1 && p < 8 then p + 20
    else NOT_A_PIN
  }

  /** `digitalPinToAnalogInput` when MVIO is known to be off. */
  function DigitalPinToAnalogInputNoMvio(p: U8): int
  {
    if p >= 12 then (if p < 20 then p - 12 else if p < 26 then p - 4 else NOT_A_PIN)
    else if p > 1 then p + 20
    else NOT_A_PIN
  }

  /** `analogChannelToDigitalPin` when the MVIO fuse is known to be set: nothing above channel 27. */
  function AnalogChannelToDigitalPinMvio(c: U8): int
  {
    if c > 27 then NOT_A_PIN
    else if c < 8 then c + 12
    else if c > 21 then c - 20
    else if c > 15 then c + 4
    else NOT_A_PIN
  }

  /** `analogChannelToDigitalPin` when MVIO is known to be off. */
  function AnalogChannelToDigitalPinNoMvio(c: U8): int
  {
    if c > 31 then NOT_A_PIN
    else if c < 8 then c + 12
    else if c > 21 then c - 20
    else if c > 15 then c + 4
    else NOT_A_PIN
  }

  /**
   * `digitalPinToAnalogInput` as a bootloader build has it, with MVIO read
   * from the fuse at run time: PD0-PD7 are channels 0-7, PF0-PF5 16-21, and
   * PA2 up to PC3 (up to PA7 under MVIO) are 22-31; the channel leads back
   * to the pin.
   */
  function DigitalPinToAnalogInput(mvio: bool, p: U8): (c: int)
    ensures c != NOT_A_PIN <==> 2 <= p < 26 && !(mvio && 8 <= p < 12)
    ensures c != NOT_A_PIN ==> 0 <= c < 32 && AnalogChannelToDigitalPin(mvio, c) == p
  {
    if p >= 12 then (if p < 20 then p - 12 else if p < 26 then p - 4 else NOT_A_PIN)
    else if p > 1 && !(mvio && p >= 8) then p + 20
    else NOT_A_PIN
  }

  /**
   * `analogChannelToDigitalPin` with MVIO read at run time: channels 0-7 and
   * 16-21 always have a pin, 22-31 only up to 27 under MVIO, and 8-15 never.
   */
  function AnalogChannelToDigitalPin(mvio: bool, c: U8): (p: int)
    ensures p != NOT_A_PIN <==> c < 8 || (16 <= c <= 21) || (22 <= c <= (if mvio then 27 else 31))
    ensures p != NOT_A_PIN ==> 2 <= p < 26
  {
    if c > (if mvio then 27 else 31) then NOT_A_PIN
    else if c < 8 then c + 12
    else if c > 21 then c - 20
    else if c > 15 then c + 4
    else NOT_A_PIN
  }

  /** Every channel with a pin comes back to itself through the pin. */
  lemma ChannelRoundTrip(mvio: bool, c: U8)
    requires AnalogChannelToDigitalPin(mvio, c) != NOT_A_PIN
    ensures DigitalPinToAnalogInput(mvio, AnalogChannelToDigitalPin(mvio, c)) == c
  {
  }

  /** The run-time form is the fixed forms with the fuse's value filled in. */
  lemma RuntimeFormAgrees(mvio: bool, p: U8)
    ensures DigitalPinToAnalogInput(mvio, p) ==
      if mvio then DigitalPinToAnalogInputMvio(p) else DigitalPinToAnalogInputNoMvio(p)
    ensures AnalogChannelToDigitalPin(mvio, p) ==
      if mvio then AnalogChannelToDigitalPinMvio(p) else AnalogChannelToDigitalPinNoMvio(p)
  {
  }

  /** MVIO takes away exactly the PORTC pins and their channels 28-31, and changes nothing else. */
  lemma MvioDropsPortC(p: U8)
    ensures DigitalPinToAnalogInput(true, p) != DigitalPinToAnalogInput(false, p) <==> 8 <= p < 12
    ensures 8 <= p < 12 ==> DigitalPinToAnalogInput(true, p) == NOT_A_PIN
    ensures AnalogChannelToDigitalPin(true, p) != AnalogChannelToDigitalPin(false, p) <==> 28 <= p <= 31
    ensures 28 <= p <= 31 ==> AnalogChannelToDigitalPin(true, p) == NOT_A_PIN
  {
  }

  /** Pin 12, the placeholder for the missing PD0, is still given channel 0 (AIN0, on PD0). */
  lemma PlaceholderHasChannel(mvio: bool)
    ensures DigitalPinToAnalogInput(mvio, 12) == 0
    ensures AnalogChannelToDigitalPin(mvio, 0) == 12
  {
  }

  /** `analogInputToDigitalPin`: the channel with bit 7 (the channel-number flag) stripped. */
  function AnalogInputToDigitalPin(mvio: bool, c: U8): (p: int)
    ensures c < 128 ==> p == AnalogChannelToDigitalPin(mvio, c)
    ensures c >= 128 ==> p == AnalogChannelToDigitalPin(mvio, c - 128)
  {
    AnalogChannelToDigitalPin(mvio, c % 128)
  }

  /**
   * `digitalOrAnalogPinToDigital`: with bit 7 set, the rest is a channel;
   * otherwise the pin is passed through when it is at most NUM_DIGITAL_PINS.
   */
  function DigitalOrAnalogPinToDigital(mvio: bool, p: U8): (d: int)
    ensures p >= 128 ==> d == AnalogChannelToDigitalPin(mvio, p - 128)
    ensures p < 128 ==> (d == p <==> p <= NUM_DIGITAL_PINS)
    ensures p < 128 && p > NUM_DIGITAL_PINS ==> d == NOT_A_PIN
  {
    if p >= 128 then AnalogChannelToDigitalPin(mvio, p % 128)
    else if p <= NUM_DIGITAL_PINS then p
    else NOT_A_PIN
  }

  /** `portToPinZero`: PA, PC, PD and PF start at 0, 8, 12 and 20; the package has no other port. */
  function PortToPinZero(port: U8): (z: int)
    ensures forall bit :: PortHasBit(port, bit) ==> z + bit == PinNumber(port, bit)
    ensures z == NOT_A_PIN <==> port !in {PA, PC, PD, PF}
  {
    if port == PA then 0
    else if port == PC then 8
    else if port == PD then 12
    else if port == PF then 20
    else NOT_A_PIN
  }

  // ---------------------------------------------------------------------
  // The pin tables

  /** `digital_pin_to_port`: pin 12 is listed under PORTD although the package has no PD0. */
  const PORT_TABLE: seq<int> :=
    ([PA, PA, PA, PA, PA, PA, PA, PA] + [PC, PC, PC, PC]) +
    ([PD, PD, PD, PD, PD, PD, PD, PD] + [PF, PF, PF, PF, PF, PF, PF, PF])

  /**
   * `digital_pin_to_bit_position` for a CLOCK_SOURCE setting: PA0 is a pin
   * only when the low two bits are 0, PA1 is lost when they are 1 (a
   * crystal), and the placeholder pin 12 is NOT_A_PIN.
   */
  function BitPositionTable(clockSource: nat): (t: seq<int>)
    ensures |t| == NUM_DIGITAL_PINS
  {
    ([if clockSource % 4 == 0 then 0 else NOT_A_PIN, if clockSource % 4 == 1 then NOT_A_PIN else 1, 2, 3, 4, 5, 6, 7] +
     [0, 1, 2, 3]) +
    ([NOT_A_PIN, 1, 2, 3, 4, 5, 6, 7] + [0, 1, 2, 3, 4, 5, 6, 7])
  }

  /** `digital_pin_to_bit_mask`, under the same conditions. */
  function BitMaskTable(clockSource: nat): (t: seq<int>)
    ensures |t| == NUM_DIGITAL_PINS
  {
    ([if clockSource % 4 == 0 then 1 else NOT_A_PIN, if clockSource % 4 == 1 then NOT_A_PIN else 2, 4, 8, 16, 32, 64, 128] +
     [1, 2, 4, 8]) +
    ([NOT_A_PIN, 2, 4, 8, 16, 32, 64, 128] + [1, 2, 4, 8, 16, 32, 64, 128])
  }

  /** Whether a pin is taken by the clock source (PA0 for anything but the internal oscillator, PA1 for a crystal). */
  predicate ClockPin(clockSource: nat, p: int)
  {
    (p == 0 && clockSource % 4 != 0) || (p == 1 && clockSource % 4 == 1)
  }

  /**
   * Every pin of the package has its entry: the port table names its port,
   * and the position and mask tables give its bit and that bit's PINn_bm,
   * or NOT_A_PIN in both for a pin the clock source takes.
   */
  lemma TablesCoverPins(clockSource: nat, port: int, bit: int)
    requires PortHasBit(port, bit)
    ensures |PORT_TABLE| == NUM_DIGITAL_PINS && PORT_TABLE[PinNumber(port, bit)] == port
    ensures ClockPin(clockSource, PinNumber(port, bit)) ==>
      BitPositionTable(clockSource)[PinNumber(port, bit)] == NOT_A_PIN &&
      BitMaskTable(clockSource)[PinNumber(port, bit)] == NOT_A_PIN
    ensures !ClockPin(clockSource, PinNumber(port, bit)) ==>
      BitPositionTable(clockSource)[PinNumber(port, bit)] == bit &&
      BitMaskTable(clockSource)[PinNumber(port, bit)] == BIT_MASKS[bit]
  {
    PortTableAt(port, bit);
    PositionAndMaskAt(clockSource, port, bit);
  }

  /** `digital_pin_to_port` at each pin's number. */
  lemma PortTableAt(port: int, bit: int)
    requires PortHasBit(port, bit)
    ensures |PORT_TABLE| == NUM_DIGITAL_PINS && PORT_TABLE[PinNumber(port, bit)] == port
  {
    if port == PA {
    } else if port == PC {
    } else if port == PD {
    } else {
    }
  }

  /** `digital_pin_to_bit_position` and `digital_pin_to_bit_mask` at each pin's number. */
  lemma PositionAndMaskAt(clockSource: nat, port: int, bit: int)
    requires PortHasBit(port, bit)
    ensures ClockPin(clockSource, PinNumber(port, bit)) ==>
      BitPositionTable(clockSource)[PinNumber(port, bit)] == NOT_A_PIN &&
      BitMaskTable(clockSource)[PinNumber(port, bit)] == NOT_A_PIN
    ensures !ClockPin(clockSource, PinNumber(port, bit)) ==>
      BitPositionTable(clockSource)[PinNumber(port, bit)] == bit &&
      BitMaskTable(clockSource)[PinNumber(port, bit)] == BIT_MASKS[bit]
  {
    PositionAt(clockSource, port, bit);
    MaskAt(clockSource, port, bit);
  }

  /** `digital_pin_to_bit_position` at each pin's number. */
  lemma PositionAt(clockSource: nat, port: int, bit: int)
    requires PortHasBit(port, bit)
    ensures BitPositionTable(clockSource)[PinNumber(port, bit)] ==
      if ClockPin(clockSource, PinNumber(port, bit)) then NOT_A_PIN else bit
  {
    if port == PA {
    } else if port == PC {
    } else if port == PD {
    } else {
    }
  }

  /** `digital_pin_to_bit_mask` at each pin's number. */
  lemma MaskAt(clockSource: nat, port: int, bit: int)
    requires PortHasBit(port, bit)
    ensures BitMaskTable(clockSource)[PinNumber(port, bit)] ==
      if ClockPin(clockSource, PinNumber(port, bit)) then NOT_A_PIN else BIT_MASKS[bit]
  {
    if port == PA {
    } else if port == PC {
    } else if port == PD {
    } else {
    }
  }

  /**
   * The placeholder pin 12 is listed under PORTD but is NOT_A_PIN in both
   * the position and the mask table, whatever the clock source; in every
   * entry the mask is NOT_A_PIN exactly when the position is, and otherwise
   * the position's PINn_bm.
   */
  lemma TablesEntryAgree(clockSource: nat, p: int)
    requires 0 <= p < NUM_DIGITAL_PINS
    ensures p == 12 ==>
      PORT_TABLE[p] == PD && BitPositionTable(clockSource)[p] == NOT_A_PIN && BitMaskTable(clockSource)[p] == NOT_A_PIN
    ensures BitMaskTable(clockSource)[p] == NOT_A_PIN <==> BitPositionTable(clockSource)[p] == NOT_A_PIN
    ensures BitPositionTable(clockSource)[p] != NOT_A_PIN ==>
      0 <= BitPositionTable(clockSource)[p] < 8 &&
      BitMaskTable(clockSource)[p] == BIT_MASKS[BitPositionTable(clockSource)[p]]
  {
    if p == 12 {
    } else {
      var port := if p < 8 then PA else if p < 12 then PC else if p < 20 then PD else PF;
      var bit := if p < 8 then p else if p < 12 then p - 8 else if p < 20 then p - 12 else p - 20;
      assert PortHasBit(port, bit) && PinNumber(port, bit) == p;
      PositionAndMaskAt(clockSource, port, bit);
    }
  }
}
