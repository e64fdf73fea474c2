// The analog-channel and PWM macros of the 48-pin DA/DB variant
// (megaavr/variants/48pin-standard/pins_arduino.h). Pins are numbered port
// by port: PA0-PA7 are 0-7, PB0-PB5 8-13, PC0-PC7 14-21, PD0-PD7 22-29,
// PE0-PE3 30-33, PF0-PF6 34-40. The ADC reaches PD0-PE3 as channels 0-11
// and PF0-PF5 as channels 16-21.

module Variant48 {
  import opened Pins

  /** PINS_COUNT, and NUM_DIGITAL_PINS with no reserved pins. */
  const NUM_DIGITAL_PINS: int := 41

  /** Whether PORTx has a pin at `bit` on this package. */
  predicate PortHasBit(port: int, bit: int)
  {
    0 <= bit && (
      (port == PA && bit < 8) || (port == PB && bit < 6) || (port == PC && bit < 8) ||
      (port == PD && bit < 8) || (port == PE && bit < 4) || (port == PF && bit < 7))
  }

  /** The PIN_Pxn number of a pin. */
  function PinNumber(port: int, bit: int): int
    requires PortHasBit(port, bit)
  {
    if port == PA then bit
    else if port == PB then 8 + bit
    else if port == PC then 14 + bit
    else if port == PD then 22 + bit
    else if port == PE then 30 + bit
    else 34 + bit
  }

  /**
   * `digitalPinToAnalogInput` as written: pins after PC7 and before PF0 are
   * counted from PD0, and every other pin before PF6 has 18 taken off.
   */
  function DigitalPinToAnalogInputAsWritten(p: U8): int
  {
    if p > 21 && p < 34 then p - 22
    else if p < 40 then p - 18
    else NOT_A_PIN
  }

  /**
   * The second branch takes in PA0-PC7 as well as PF0-PF5: PA5 gets -13,
   * and PC4 gets channel 0, which belongs to PD0.
   */
  lemma DigitalPinToAnalogInputAsWrittenMisreads()
    ensures DigitalPinToAnalogInputAsWritten(5) == -13
    ensures DigitalPinToAnalogInputAsWritten(18) == DigitalPinToAnalogInputAsWritten(22) == 0
    ensures AnalogChannelToDigitalPin(DigitalPinToAnalogInputAsWritten(18)) != 18
  {
  }

  /**
   * `analogChannelToDigitalPin`: channels 0-11 are PD0-PE3, channels 16-21
   * are PF0-PF5, anything else is NOT_A_PIN.
   */
  function AnalogChannelToDigitalPin(c: U8): (p: int)
    ensures p != NOT_A_PIN <==> c < 12 || 16 <= c <= 21
    ensures p != NOT_A_PIN ==> 22 <= p < 40
  {
    if c < 12 then c + 22
    else if c < 16 || c > 21 then NOT_A_PIN
    else c + 34 - 16
  }

  /**
   * `digitalPinToAnalogInput` with the second branch limited to PF0-PF5:
   * exactly the pins PD0-PF5 have a channel, and the channel leads back to
   * the pin.
   */
  function DigitalPinToAnalogInput(p: U8): (c: int)
    ensures c != NOT_A_PIN <==> 22 <= p < 40
    ensures c != NOT_A_PIN ==> 0 <= c < 22 && AnalogChannelToDigitalPin(c) == p
  {
    if p > 21 && p < 34 then p - 22
    else if p >= 34 && p < 40 then p - 18
    else NOT_A_PIN
  }

  /** Every channel with a pin comes back to itself through the pin. */
  lemma ChannelRoundTrip(c: U8)
    requires AnalogChannelToDigitalPin(c) != NOT_A_PIN
    ensures DigitalPinToAnalogInput(AnalogChannelToDigitalPin(c)) == c
  {
  }

  /** `analogInputToDigitalPin`: the channel with bit 7 (the channel-number flag) stripped. */
  function AnalogInputToDigitalPin(c: U8): (p: int)
    ensures c < 128 ==> p == AnalogChannelToDigitalPin(c)
    ensures c >= 128 ==> p == AnalogChannelToDigitalPin(c - 128)
  {
    AnalogChannelToDigitalPin(c % 128)
  }

  /**
   * `digitalOrAnalogPinToDigital`: with bit 7 set, the rest is a channel;
   * otherwise the pin is passed through when it is at most NUM_DIGITAL_PINS.
   */
  function DigitalOrAnalogPinToDigital(p: U8): (d: int)
    ensures p >= 128 ==> d == AnalogChannelToDigitalPin(p - 128)
    ensures p < 128 ==> (d == p <==> p <= NUM_DIGITAL_PINS)
    ensures p < 128 && p > NUM_DIGITAL_PINS ==> d == NOT_A_PIN
  {
    if p >= 128 then AnalogChannelToDigitalPin(p % 128)
    else if p <= NUM_DIGITAL_PINS then p
    else NOT_A_PIN
  }

  /** `portToPinZero`: the number of pin 0 of each port (PB has six pins, so PC on start two early). */
  function PortToPinZero(port: U8): (z: int)
    ensures forall bit :: PortHasBit(port, bit) ==> z + bit == PinNumber(port, bit)
    ensures z == NOT_A_PIN <==> port > PF
  {
    if port < PF then port * 8 - (if port > 1 then 2 else 0)
    else if port == PF then 34
    else NOT_A_PIN
  }

  /** The TCB pins (PB4, PB5, PF4, PF5) that can give PWM, less the one whose TCB drives millis(). */
  predicate DigitalPinHasPWMTCB(millis: MillisTimer, p: int)
  {
    match millis
    case MillisB0 => p == 12 || p == 13 || p == 39
    case MillisB1 => p == 12 || p == 13 || p == 38
    case MillisB2 => p == 13 || p == 38 || p == 39
    case MillisB3 => p == 12 || p == 38 || p == 39
    case _ => p == 12 || p == 13 || p == 38 || p == 39
  }

  /** `digitalPinHasPWM`: a TCB pin, or PA4-PC5 (TCD0, TCA1 and TCA0 outputs). */
  predicate DigitalPinHasPWM(millis: MillisTimer, p: int)
  {
    DigitalPinHasPWMTCB(millis, p) || (4 <= p <= 19)
  }

  /** The TCB whose pin each millis() choice takes away: TCB0 on PF4, TCB1 on PF5, TCB2 on PB4, TCB3 on PB5. */
  function MillisPin(millis: MillisTimer): (p: int)
    ensures millis.MillisB0? || millis.MillisB1? || millis.MillisB2? || millis.MillisB3? ==>
      DigitalPinHasPWMTCB(MillisOther, p) && !DigitalPinHasPWMTCB(millis, p)
  {
    match millis
    case MillisB0 => 38
    case MillisB1 => 39
    case MillisB2 => 12
    case MillisB3 => 13
    case _ => NOT_A_PIN
  }

  /**
   * Each MILLIS_USE_TIMERBn branch drops exactly its TCB's pin from the
   * default set; TCB4 does not exist on this package and drops nothing.
   */
  lemma MillisDropsOnePin(millis: MillisTimer, p: int)
    ensures DigitalPinHasPWMTCB(millis, p) <==> DigitalPinHasPWMTCB(MillisOther, p) && p != MillisPin(millis)
  {
  }
}
