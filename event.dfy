// The Event library (megaavr/libraries/Event/src/Event.cpp) on a 64-pin
// part with the 2020 event system: ten channel objects Event0-Event9, each
// holding its channel number and the generator it will start, and an
// extra object Event_empty (channel number 255) that the lookups hand back
// when nothing fits. Event_empty is built on channel 0's register.
//
// The generator held by each object, the EVSYS channel and user registers,
// the EVSYSROUTEA bits and the software-event strobes are the state of one
// class; an Event object is named by a `Handle`.

module EventSystem {
  import opened Pins
  import Variant64

  /** Event0-Event9. */
  const CHANNELS: int := 10

  /** Event_empty's channel number. */
  const EMPTY_CHANNEL: int := 255

  /** `gen::disable`. */
  const GEN_DISABLE: int := 0

  type ChannelIndex = n: int | 0 <= n < CHANNELS

  /** An Event object: one of the channel objects, or Event_empty. */
  datatype Handle = Channel(n: ChannelIndex) | Empty

  /** `get_channel_number`. */
  function ChannelNumber(h: Handle): (c: U8)
    ensures c == EMPTY_CHANNEL <==> h.Empty?
  {
    if h.Channel? then h.n else EMPTY_CHANNEL
  }

  /** Which EVSYS.CHANNELn register the object starts and stops: Event_empty shares channel 0's. */
  function ChannelAddress(h: Handle): ChannelIndex
  {
    if h.Channel? then h.n else 0
  }

  /** `get_channel`: the object whose channel number is `ch`, or Event_empty. */
  function GetChannel(ch: U8): (h: Handle)
    ensures h.Channel? <==> ch < CHANNELS
    ensures h.Channel? ==> ChannelNumber(h) == ch
  {
    if ch < CHANNELS then Channel(ch) else Empty
  }

  /** Every object, Event_empty included, is found again from its channel number. */
  lemma GetChannelRoundTrip(h: Handle)
    ensures GetChannel(ChannelNumber(h)) == h
  {
  }

  /**
   * `get_generator_channel`: the lowest-numbered object whose generator is
   * `generator`, or Event_empty.
   */
  function GeneratorChannel(gens: seq<U8>, generator: int, from: nat): (h: Handle)
    requires |gens| == CHANNELS && from <= CHANNELS
    ensures h.Channel? ==> from <= h.n && gens[h.n] == generator && forall j :: from <= j < h.n ==> gens[j] != generator
    ensures h.Empty? ==> forall j :: from <= j < CHANNELS ==> gens[j] != generator
    decreases CHANNELS - from
  {
    if from == CHANNELS then Empty
    else if gens[from] == generator then Channel(from)
    else GeneratorChannel(gens, generator, from + 1)
  }

  /** The generator number of pin `bit` of `port`: 0x40, bit 3 for the odd port of a pair, and the bit. */
  function PinGenerator(port: U8, bit: U8): (g: U8)
    ensures bit < 8 ==> g == 0x40 + 8 * (port % 2) + bit
  {
    PinGeneratorBits(port, bit) as int
  }

  /** The expression `0x40 | (port & 0x01) << 3 | port_pin` on eight bits. */
  function PinGeneratorBits(port: U8, bit: U8): (g: bv8)
    ensures bit < 8 ==> g as int == 0x40 + 8 * (port % 2) + bit
  {
    var b := bit as bv8;
    var odd := (port % 2) as bv8;
    assert bit < 8 ==> b < 8 && b | (odd << 3) | 0x40 == b + odd * 8 + 0x40 by {
      if bit < 8 {
        OrDisjoint(b, odd);
      }
    }
    0x40 | ((port as bv8 & 1) << 3) | b
  }

  /** The three parts of a pin generator occupy different bits. */
  lemma OrDisjoint(b: bv8, odd: bv8)
    requires b < 8 && odd < 2
    ensures b | (odd << 3) | 0x40 == b + odd * 8 + 0x40
  {
  }

  /** A pin generator names its pin: the bit, and which port of the pair. */
  lemma PinGeneratorDecodes(port: U8, bit: U8, port': U8, bit': U8)
    requires bit < 8 && bit' < 8
    ensures 0x40 <= PinGenerator(port, bit) < 0x50
    ensures PinGenerator(port, bit) == PinGenerator(port', bit') <==> port % 2 == port' % 2 && bit == bit'
  {
  }

  /** The first channel of the pair a port's pins can drive: PA/PB 0-1, PC/PD 2-3, PE/PF 4-5, PG 6-7; -1 for no port. */
  function PortPair(port: U8): (first: int)
    ensures first == -1 || (0 <= first < CHANNELS - 1 && first % 2 == 0)
    ensures first != -1 <==> port <= PG
    ensures first != -1 ==> first == port / 2 * 2
  {
    if port == PA || port == PB then 0
    else if port == PC || port == PD then 2
    else if port == PE || port == PF then 4
    else if port == PG then 6
    else -1
  }

  /** A channel may be claimed for `gen` if it is disabled or already holds `gen`. */
  predicate Claimable(gens: seq<U8>, c: ChannelIndex, gen: int)
    requires |gens| == CHANNELS
  {
    gens[c] == GEN_DISABLE || gens[c] == gen
  }

  /**
   * What `assign_generator_pin(port, port_pin)` leaves: for a real port with
   * a channel pair, the lower channel of the pair if it can be claimed, else
   * the upper one, now holding the pin's generator, with nothing else
   * changed; and Event_empty with nothing changed when the port or bit is
   * NOT_A_PIN, the port has no pair, or both channels hold other generators.
   */
  predicate Assigned(gens: seq<U8>, port: U8, bit: U8, h: Handle, gens': seq<U8>)
    requires |gens| == |gens'| == CHANNELS
  {
    var first, gen := PortPair(port), PinGenerator(port, bit);
    if port == NOT_A_PIN || bit == NOT_A_PIN || first == -1 then
      h.Empty? && gens' == gens
    else if Claimable(gens, first, gen) then
      h == Channel(first) && gens' == gens[first := gen]
    else if Claimable(gens, first + 1, gen) then
      h == Channel(first + 1) && gens' == gens[first + 1 := gen]
    else
      h.Empty? && gens' == gens
  }

  /** A claimed channel held nothing or the same generator before: assignment never takes over a channel in use. */
  lemma AssignNeverSteals(gens: seq<U8>, port: U8, bit: U8, h: Handle, gens': seq<U8>)
    requires |gens| == |gens'| == CHANNELS && Assigned(gens, port, bit, h, gens')
    ensures h.Channel? ==> Claimable(gens, h.n, PinGenerator(port, bit)) && gens'[h.n] == PinGenerator(port, bit)
    ensures h.Channel? ==> h.n / 2 == port / 2
    ensures forall c :: 0 <= c < CHANNELS && gens[c] != GEN_DISABLE && gens[c] != PinGenerator(port, bit) ==> gens'[c] == gens[c]
  {
  }

  /** Assigning the same pin again hands back the same channel and changes nothing more. */
  lemma AssignIdempotent(gens: seq<U8>, port: U8, bit: U8, h: Handle, gens': seq<U8>, h2: Handle, gens'': seq<U8>)
    requires |gens| == |gens'| == |gens''| == CHANNELS
    requires Assigned(gens, port, bit, h, gens') && Assigned(gens', port, bit, h2, gens'')
    ensures h2 == h && gens'' == gens'
  {
  }

  /** What a software event writes: SWEVENTA for channels 0-7, SWEVENTB above. */
  datatype SoftStrobe = SwEventA(value: int) | SwEventB(value: int)

  /** `soft_event` as written: `1 << channel_number` to SWEVENTA below 8, `channel_number - 7` to SWEVENTB otherwise. */
  function SoftEventStrobe(ch: U8): SoftStrobe
  {
    if ch < 8 then SwEventA(BIT_MASKS[ch]) else SwEventB((ch - 7) % 256)
  }

  /**
   * The subtraction stands in for a shift that works for channels 8 and 9,
   * the only ones above 7: each strobes exactly its own SWEVENTB bit. For
   * Event_empty it writes 248, which strobes neither channel.
   */
  lemma SoftEventStrobesOwnBit(h: Handle)
    ensures h.Channel? && h.n < 8 ==> SoftEventStrobe(ChannelNumber(h)) == SwEventA(BIT_MASKS[h.n])
    ensures h.Channel? && h.n >= 8 ==> SoftEventStrobe(ChannelNumber(h)) == SwEventB(BIT_MASKS[h.n - 8])
    ensures h.Empty? ==> SoftEventStrobe(ChannelNumber(h)) == SwEventB(248) && 248 % 4 == 0
  {
  }

  /** The signed byte `int8_t` makes of a value 0..255. */
  function Int8(x: int): (r: int)
    requires -128 <= x < 256
    ensures -128 <= r < 128 && (r - x) % 256 == 0
  {
    if x >= 128 then x - 256 else x
  }

  /** The user register file from USERCCLLUT0A on: 128 user registers and what lies past them, up to offset 255. */
  const USER_SPAN: int := 256

  /**
   * `get_user_channel_number` as written: the register at offset
   * `event_user` itself, whose bit 7 (the EVOUT pin-swap flag) is not masked
   * off, less one.
   */
  function UserChannelNumberAsWritten(users: seq<U8>, user: U8): (r: int)
    requires |users| == USER_SPAN
    ensures users[user] == 0 ==> r == -1
    ensures 1 <= users[user] <= 128 ==> r == users[user] - 1
  {
    Int8(users[user] as int - 1)
  }

  /** The register `set_user` and `clear_user` address: offset `event_user & 0x7F`. */
  function UserOffset(user: U8): (o: int)
    ensures 0 <= o < 128 && (o == user <==> user < 0x80)
  {
    user % 0x80
  }

  /** `get_user_channel_number`, reading the register `set_user` writes. */
  function UserChannelNumber(users: seq<U8>, user: U8): (r: int)
    requires |users| == USER_SPAN
    ensures users[UserOffset(user)] == 0 ==> r == -1
    ensures 1 <= users[UserOffset(user)] <= 128 ==> r == users[UserOffset(user)] - 1
  {
    Int8(users[UserOffset(user)] as int - 1)
  }

  /**
   * For a user with the pin-swap flag, the reading as written does not see
   * what `set_user` wrote: after Event3 is connected to `evoutd_pin_pd7`
   * (0x90 on AVR DB), the reading still gives -1 from the untouched
   * register at offset 0x90.
   */
  lemma UserChannelNumberAsWrittenMisreads(users: seq<U8>)
    requires |users| == USER_SPAN && users[0x90] == 0
    ensures UserChannelNumber(users[UserOffset(0x90) := 3 + 1], 0x90) == 3
    ensures UserChannelNumberAsWritten(users[UserOffset(0x90) := 3 + 1], 0x90) == -1
  {
  }

  /** Without the pin-swap flag the two readings agree. */
  lemma UserChannelNumberAgrees(users: seq<U8>, user: U8)
    requires |users| == USER_SPAN && user < 0x80
    ensures UserChannelNumberAsWritten(users, user) == UserChannelNumber(users, user)
  {
  }

  /** What one register of a user reads back as: a channel 0..9, or none. */
  function UserChannelOf(v: U8): (h: Handle)
    ensures v == 0 ==> h.Empty?
    ensures 1 <= v <= CHANNELS ==> h == Channel(v - 1)
  {
    GetChannelSigned(Int8(v as int - 1))
  }

  /** `get_user_channel`: the channel object numbered by a signed reading; -1 and anything past 9 give Event_empty. */
  function GetChannelSigned(ch: int): (h: Handle)
    ensures h.Channel? <==> 0 <= ch < CHANNELS
    ensures h.Channel? ==> h.n == ch
  {
    if 0 <= ch < CHANNELS then Channel(ch) else Empty
  }

  /** The EVSYS state the library drives. */
  class Evsys {
    /** The generator each of Event0-Event9 holds for `start`. */
    var generators: seq<U8>
    /** Event_empty's generator. */
    var emptyGenerator: U8
    /** EVSYS.CHANNEL0-CHANNEL9. */
    var channelRegs: seq<U8>
    /** The user registers and what follows them, from USERCCLLUT0A on. */
    var users: seq<U8>
    /** PORTMUX.EVSYSROUTEA, bit i at index i. */
    var routeA: seq<bool>
    /** The user number of EVOUTA on this part: the pin-swap bit of a user is its number less this. */
    const evoutBase: int
    /** SWEVENTA and SWEVENTB writes, in order. */
    var strobes: seq<SoftStrobe>

    predicate Valid()
      reads this
    {
      |generators| == CHANNELS && |channelRegs| == CHANNELS && |users| == USER_SPAN && |routeA| == 8
    }

    /** The objects at start-up: statics are zeroed, so every object holds `gen::disable`; the registers are at reset. */
    constructor (evoutBase0: int)
      ensures Valid() && evoutBase == evoutBase0 && strobes == []
      ensures generators == seq(CHANNELS, _ => 0) && emptyGenerator == GEN_DISABLE
      ensures channelRegs == seq(CHANNELS, _ => 0) && users == seq(USER_SPAN, _ => 0) && routeA == seq(8, _ => false)
    {
      evoutBase := evoutBase0;
      generators := seq(CHANNELS, _ => 0);
      emptyGenerator := 0;
      channelRegs := seq(CHANNELS, _ => 0);
      users := seq(USER_SPAN, _ => 0);
      routeA := seq(8, _ => false);
      strobes := [];
    }

    /** `get_generator`. */
    function Generator(h: Handle): U8
      requires Valid()
      reads this
    {
      if h.Channel? then generators[h.n] else emptyGenerator
    }

    /** `get_generator_channel` on the objects' current generators. */
    function GetGeneratorChannel(generator: U8): (h: Handle)
      requires Valid()
      reads this
      ensures h.Channel? ==> Generator(h) == generator && forall j :: 0 <= j < h.n ==> generators[j] != generator
      ensures h.Empty? ==> forall j :: 0 <= j < CHANNELS ==> generators[j] != generator
    {
      GeneratorChannel(generators, generator, 0)
    }

    /** `set_generator(gen)`: the object holds `generator` for its next `start`; no register is written. */
    method SetGenerator(h: Handle, generator: U8)
      requires Valid()
      modifies this
      ensures Valid() && Generator(h) == generator
      ensures h.Channel? ==> generators == old(generators)[h.n := generator] && emptyGenerator == old(emptyGenerator)
      ensures h.Empty? ==> generators == old(generators)
      ensures channelRegs == old(channelRegs) && users == old(users) && routeA == old(routeA) && strobes == old(strobes)
    {
      if h.Channel? {
        generators := generators[h.n := generator];
      } else {
        emptyGenerator := generator;
      }
    }

    /**
     * `set_generator(pin_number)`: the pin's generator for a pin of the
     * package, `gen::disable` for any other number.
     */
    method SetGeneratorPin(h: Handle, pin: U8)
      requires Valid()
      modifies this
      ensures Valid()
      ensures pin < Variant64.NUM_DIGITAL_PINS ==>
        var info := Variant64.Lookup(pin);
        Generator(h) == 0x40 + 8 * (info.port % 2) + info.bit && Variant64.PinNumber(info.port, info.bit) == pin
      ensures pin >= Variant64.NUM_DIGITAL_PINS ==> Generator(h) == GEN_DISABLE
      ensures forall c: ChannelIndex :: h != Channel(c) ==> generators[c] == old(generators[c])
      ensures h.Channel? ==> emptyGenerator == old(emptyGenerator)
      ensures channelRegs == old(channelRegs) && users == old(users) && routeA == old(routeA) && strobes == old(strobes)
    {
      var info := Variant64.Lookup(pin);
      var port := if info.PinAt? then info.port else NOT_A_PIN;
      var portPin := if info.PinAt? then info.bit else NOT_A_PIN;
      if port != NOT_A_PIN && portPin != NOT_A_PIN {
        SetGenerator(h, PinGenerator(port, portPin));
      } else {
        SetGenerator(h, GEN_DISABLE);
      }
    }

    /**
     * `assign_generator_pin(port, port_pin)`: claims a channel of the port's
     * pair for the pin's generator, lower channel first, as `Assigned`
     * describes; no register is written.
     */
    method AssignGeneratorPinAt(port: U8, bit: U8) returns (h: Handle)
      requires Valid()
      modifies this
      ensures Valid() && Assigned(old(generators), port, bit, h, generators)
      ensures emptyGenerator == old(emptyGenerator) && channelRegs == old(channelRegs)
      ensures users == old(users) && routeA == old(routeA) && strobes == old(strobes)
    {
      if port != NOT_A_PIN && bit != NOT_A_PIN {
        var gen := PinGenerator(port, bit);
        var first := PortPair(port);
        if first != -1 {
          if generators[first] == GEN_DISABLE || generators[first] == gen {
            generators := generators[first := gen];
            return Channel(first);
          } else if generators[first + 1] == GEN_DISABLE || generators[first + 1] == gen {
            generators := generators[first + 1 := gen];
            return Channel(first + 1);
          }
        }
      }
      return Empty;
    }

    /** `assign_generator_pin(pin_number)`: the same, on the pin's port and bit (NOT_A_PIN for a number past the package). */
    method AssignGeneratorPin(pin: U8) returns (h: Handle)
      requires Valid()
      modifies this
      ensures Valid()
      ensures pin >= Variant64.NUM_DIGITAL_PINS ==> h.Empty? && generators == old(generators)
      ensures pin < Variant64.NUM_DIGITAL_PINS ==>
        Assigned(old(generators), Variant64.Lookup(pin).port, Variant64.Lookup(pin).bit, h, generators)
      ensures emptyGenerator == old(emptyGenerator) && channelRegs == old(channelRegs)
      ensures users == old(users) && routeA == old(routeA) && strobes == old(strobes)
    {
      var info := Variant64.Lookup(pin);
      var port := if info.PinAt? then info.port else NOT_A_PIN;
      var portPin := if info.PinAt? then info.bit else NOT_A_PIN;
      h := AssignGeneratorPinAt(port, portPin);
    }

    /**
     * `start(state)`: the object's channel register gets its generator, or
     * `gen::disable` when `state` is false; the object keeps its generator.
     * Event_empty writes channel 0's register.
     */
    method Start(h: Handle, state: bool)
      requires Valid()
      modifies this
      ensures Valid()
      ensures channelRegs == old(channelRegs)[ChannelAddress(h) := if state then old(Generator(h)) else GEN_DISABLE]
      ensures generators == old(generators) && emptyGenerator == old(emptyGenerator)
      ensures users == old(users) && routeA == old(routeA) && strobes == old(strobes)
    {
      if state {
        channelRegs := channelRegs[ChannelAddress(h) := Generator(h)];
      } else {
        channelRegs := channelRegs[ChannelAddress(h) := GEN_DISABLE];
      }
    }

    /** `stop`: `start(false)`. */
    method Stop(h: Handle)
      requires Valid()
      modifies this
      ensures Valid()
      ensures channelRegs == old(channelRegs)[ChannelAddress(h) := GEN_DISABLE]
      ensures generators == old(generators) && emptyGenerator == old(emptyGenerator)
      ensures users == old(users) && routeA == old(routeA) && strobes == old(strobes)
    {
      Start(h, false);
    }

    /** `soft_event`: one strobe write for the object's channel. */
    method SoftEvent(h: Handle)
      requires Valid()
      modifies this
      ensures Valid() && strobes == old(strobes) + [SoftEventStrobe(ChannelNumber(h))]
      ensures generators == old(generators) && emptyGenerator == old(emptyGenerator)
      ensures channelRegs == old(channelRegs) && users == old(users) && routeA == old(routeA)
    {
      var ch := ChannelNumber(h);
      if ch < 8 {
        strobes := strobes + [SwEventA(BIT_MASKS[ch])];
      } else {
        strobes := strobes + [SwEventB((ch - 7) % 256)];
      }
    }

    /**
     * `set_user`: the user's register gets the channel number plus one
     * (Event_empty's 255 wraps to 0, which connects nothing), and a user
     * with the pin-swap flag sets its EVOUT bit of EVSYSROUTEA. The
     * corrected reading then gives back the channel.
     */
    method SetUser(h: Handle, user: U8)
      requires Valid()
      modifies this
      ensures Valid()
      ensures users == old(users)[UserOffset(user) := (ChannelNumber(h) + 1) % 256]
      ensures UserChannelNumber(users, user) == if h.Channel? then h.n else -1
      ensures UserChannelOf(users[UserOffset(user)]) == h
      ensures routeA == RouteBit(old(routeA), user, true)
      ensures generators == old(generators) && emptyGenerator == old(emptyGenerator)
      ensures channelRegs == old(channelRegs) && strobes == old(strobes)
    {
      var offset := UserOffset(user);
      users := users[offset := (ChannelNumber(h) + 1) % 256];
      if user >= 0x80 {
        routeA := RouteBit(routeA, user, true);
      }
    }

    /** `clear_user`: the user's register gets 0, and a user with the pin-swap flag clears its EVOUT bit. */
    method ClearUser(user: U8)
      requires Valid()
      modifies this
      ensures Valid()
      ensures users == old(users)[UserOffset(user) := 0]
      ensures UserChannelNumber(users, user) == -1 && UserChannelOf(users[UserOffset(user)]).Empty?
      ensures routeA == RouteBit(old(routeA), user, false)
      ensures generators == old(generators) && emptyGenerator == old(emptyGenerator)
      ensures channelRegs == old(channelRegs) && strobes == old(strobes)
    {
      users := users[UserOffset(user) := 0];
      if user >= 0x80 {
        routeA := RouteBit(routeA, user, false);
      }
    }

    /**
     * EVSYSROUTEA after a user's pin-swap bit is set or cleared: bit
     * `(user & 0x7F) - evoutBase`, for a user with bit 7 set; others leave it.
     */
    function RouteBit(route: seq<bool>, user: U8, value: bool): (r: seq<bool>)
      requires |route| == 8
      reads this
      ensures |r| == 8
      ensures forall i :: 0 <= i < 8 && i != UserOffset(user) - evoutBase ==> r[i] == route[i]
      ensures user >= 0x80 && 0 <= UserOffset(user) - evoutBase < 8 ==> r[UserOffset(user) - evoutBase] == value
      ensures user < 0x80 ==> r == route
    {
      var k := UserOffset(user) - evoutBase;
      if user >= 0x80 && 0 <= k < 8 then route[k := value] else route
    }
  }
}
