// Optiboot for the AVR Dx parts (megaavr/bootloaders/optiboot_dx/optiboot_dx.c):
// the reset-cause gate at the top of `main`, and the command loop that
// speaks the subset of STK500 version 1 (Atmel application note AVR061)
// that avrdude's "arduino" programmer uses.
//
// The UART is a sequence of received frames (a byte and its framing-error
// flag) and a sequence of sent bytes. `getch` on an exhausted input is the
// bootloader waiting for a byte that never comes: the state becomes
// `Starved` and nothing more happens. A bad command terminator makes
// `verifySpace` shorten the watchdog and spin: the state becomes
// `Spinning`. Flash and EEPROM writes are the `writebuffer` calls, kept in
// order with their arguments.

module Optiboot {
  import opened Pins

  // STK500 version 1 bytes (section 3 of AVR061); stk500.h is not part of this model.
  const STK_OK: U8 := 0x10
  const STK_INSYNC: U8 := 0x14
  const CRC_EOP: U8 := 0x20
  const STK_GET_PARAMETER: U8 := 0x41
  const STK_SET_DEVICE: U8 := 0x42
  const STK_SET_DEVICE_EXT: U8 := 0x45
  const STK_LEAVE_PROGMODE: U8 := 0x51
  const STK_LOAD_ADDRESS: U8 := 0x55
  const STK_UNIVERSAL: U8 := 0x56
  const STK_PROG_PAGE: U8 := 0x64
  const STK_READ_PAGE: U8 := 0x74
  const STK_READ_SIGN: U8 := 0x75
  const STK_SW_MAJOR: U8 := 0x81
  const STK_SW_MINOR: U8 := 0x82
  /** The universal-command opcode that loads RAMPZ. */
  const AVR_OP_LOAD_EXT_ADDR: U8 := 0x4D

  /** `optiboot_version`: 256 * (major 9 + custom 0x11) + minor 1. */
  const OPTIBOOT_VERSION: int := 256 * (9 + 0x11) + 1

  /** Where flash and EEPROM appear in the data space of the Dx parts. */
  const MAPPED_PROGMEM_START: int := 0x8000
  const MAPPED_EEPROM_START: int := 0x1400

  // RSTCTRL.RSTFR flags.
  const PORF: U8 := 0x01
  const BORF: U8 := 0x02
  const EXTRF: U8 := 0x04
  const WDRF: U8 := 0x08
  const SWRF: U8 := 0x10
  const UPDIRF: U8 := 0x20
  /** The entry flags required when the build names none: PORF, EXTRF, SWRF, UPDIRF. */
  const ENTRY_DEFAULT: U8 := 0x35

  // ---------------------------------------------------------------------
  // The reset-cause gate

  /** What `main` does first. */
  datatype Entry =
    | SoftwareReset           // no flag at all: the app jumped here directly
    | StartApp(stash: U8)     // RSTFR cleared, the flags left in GPR0, jump to the app
    | RunBootloader

  /** Whether two flag bytes share a set bit. */
  predicate Shares(a: U8, b: U8)
  {
    a as bv8 & b as bv8 != 0
  }

  /**
   * The gate for reset flags `flags` and the build's required entry flags
   * `require`: no flag forces a software reset; a watchdog reset, or none of
   * the required flags, starts the application; anything else enters the
   * bootloader.
   */
  function ResetGate(flags: U8, require: U8): (e: Entry)
    ensures e.SoftwareReset? <==> flags == 0
    ensures e.StartApp? <==> flags != 0 && (Shares(flags, WDRF) || !Shares(flags, require))
    ensures e.StartApp? ==> e.stash == flags
  {
    if flags == 0 then SoftwareReset
    else if Shares(flags, WDRF) || !Shares(flags, require) then StartApp(flags)
    else RunBootloader
  }

  /**
   * The bootloader leaves by a watchdog reset, so it always hands over to
   * the application next time; and with the default entry flags a
   * brown-out alone starts the application, while a power-on, an external,
   * a software or a UPDI reset enters the bootloader.
   */
  lemma GateOutcomes(flags: U8)
    ensures Shares(flags, WDRF) ==> ResetGate(flags, ENTRY_DEFAULT) == StartApp(flags)
    ensures ResetGate(BORF, ENTRY_DEFAULT) == StartApp(BORF)
    ensures ResetGate(PORF, ENTRY_DEFAULT).RunBootloader? && ResetGate(EXTRF, ENTRY_DEFAULT).RunBootloader?
    ensures ResetGate(SWRF, ENTRY_DEFAULT).RunBootloader? && ResetGate(UPDIRF, ENTRY_DEFAULT).RunBootloader?
  {
    assert Shares(PORF, ENTRY_DEFAULT) && Shares(EXTRF, ENTRY_DEFAULT) && Shares(SWRF, ENTRY_DEFAULT) && Shares(UPDIRF, ENTRY_DEFAULT);
    assert !Shares(PORF, WDRF) && !Shares(EXTRF, WDRF) && !Shares(SWRF, WDRF) && !Shares(UPDIRF, WDRF) && !Shares(BORF, WDRF);
    assert !Shares(BORF, ENTRY_DEFAULT);
  }

  // ---------------------------------------------------------------------
  // Commands, specified by their bytes

  /** One received UART frame. */
  datatype Frame = Frame(data: U8, frameError: bool)

  /** The bytes of a run of frames. */
  function Bytes(s: seq<Frame>): (b: seq<U8>)
    ensures |b| == |s| && forall i :: 0 <= i < |s| ==> b[i] == s[i].data
  {
    seq(|s|, i requires 0 <= i < |s| => s[i].data)
  }

  /** Running; waiting forever for a byte; or spinning until the shortened watchdog fires. */
  datatype Status = Running | Starved | Spinning

  /** The watchdog period: the one set at entry, or the 8-clock period that ends the session. */
  datatype Watchdog = EntryPeriod | EightClocks

  /**
   * How a command with `n` argument bytes before its terminator plays out
   * from input `in0` and output `out0`: with too few bytes the bootloader
   * waits forever having sent nothing; with a wrong terminator it sends
   * nothing and spins; otherwise it sends STK_INSYNC and then `reply`.
   */
  predicate Answered(in0: seq<Frame>, out0: seq<U8>, n: nat, reply: seq<U8>, in1: seq<Frame>, out1: seq<U8>, st: Status)
  {
    if |in0| <= n then st == Starved && in1 == [] && out1 == out0
    else if in0[n].data != CRC_EOP then st == Spinning && in1 == in0[n + 1..] && out1 == out0
    else st == Running && in1 == in0[n + 1..] && out1 == out0 + [STK_INSYNC] + reply
  }

  /** What a command has sent so far once it got past its terminator: STK_INSYNC after the earlier output. */
  predicate Opened(out0: seq<U8>, out1: seq<U8>)
  {
    |out1| > |out0| && out1[..|out0|] == out0 && out1[|out0|] == STK_INSYNC
  }

  /** A command that got past its terminator has consumed input and opened its reply; one that did not has sent nothing. */
  lemma AnsweredOpens(in0: seq<Frame>, out0: seq<U8>, n: nat, reply: seq<U8>, in1: seq<Frame>, out1: seq<U8>, st: Status)
    requires Answered(in0, out0, n, reply, in1, out1, st)
    ensures st == Running ==> Opened(out0, out1) && |in1| < |in0|
    ensures st != Running ==> out1 == out0 && |in1| <= |in0|
  {
    if st == Running {
      assert out1[..|out0|] == out0;
    }
  }

  /** `k` bytes read and then a command of `n` argument bytes is a command of `k + n` argument bytes. */
  lemma AnsweredAfter(in0: seq<Frame>, out0: seq<U8>, k: nat, n: nat, reply: seq<U8>, in1: seq<Frame>, out1: seq<U8>, st: Status)
    requires k <= |in0| && Answered(in0[k..], out0, n, reply, in1, out1, st)
    ensures Answered(in0, out0, k + n, reply, in1, out1, st)
  {
    if |in0| > k + n {
      assert in0[k..][n] == in0[k + n];
      assert in0[k..][n + 1..] == in0[k + n + 1..];
    }
  }

  /** A whole reply: STK_INSYNC first and STK_OK last. */
  predicate Framed(r: seq<U8>)
  {
    |r| >= 2 && r[0] == STK_INSYNC && r[|r| - 1] == STK_OK
  }

  /** GET_PARAMETER's answer: the version's low byte for SW_MINOR, its high byte for SW_MAJOR, 3 otherwise. */
  function ParameterValue(which: U8): (v: U8)
    ensures which == STK_SW_MINOR ==> v == OPTIBOOT_VERSION % 256
    ensures which == STK_SW_MAJOR ==> v == OPTIBOOT_VERSION / 256
    ensures which != STK_SW_MINOR && which != STK_SW_MAJOR ==> v == 3
  {
    if which == STK_SW_MINOR then OPTIBOOT_VERSION % 256
    else if which == STK_SW_MAJOR then OPTIBOOT_VERSION / 256
    else 3
  }

  /**
   * The build: pages over 255 bytes (a sixteen-bit length), flash written
   * through the data space, flash read through the data space, RAMPZ and
   * ELPM in use (over 64 KiB of flash), the flash size, whether the part
   * is a DD, and the signature bytes.
   */
  datatype Config = Config(bigPage: bool, mappedWrite: bool, mappedRead: bool, hasRampz: bool, progmemSize: nat,
                           isDD: bool, deviceId1: U8, deviceId2: U8)

  /**
   * READ_SIGN's second byte, fixed when the bootloader is built: 0x97 for
   * 128 KiB of flash, 0x96 for 64 KiB; smaller DD parts (16 or 32 KiB) read
   * SIGROW.DEVICEID1, and every other smaller part answers 0x94.
   */
  function SizeByte(progmemSize: nat, isDD: bool, deviceId1: U8): (b: U8)
    ensures progmemSize == 131072 ==> b == 0x97
    ensures progmemSize == 65536 ==> b == 0x96
    ensures progmemSize != 131072 && progmemSize != 65536 && isDD ==> b == deviceId1
    ensures progmemSize != 131072 && progmemSize != 65536 && !isDD ==> b == 0x94
  {
    if progmemSize == 131072 then 0x97
    else if progmemSize == 65536 then 0x96
    else if isDD then deviceId1
    else 0x94
  }

  /** A page command's length: big-endian when pages exceed 255 bytes, else the low byte alone. */
  function PageLength(cfg: Config, hi: U8, lo: U8): (len: int)
    ensures cfg.bigPage ==> 0 <= len < 65536 && len / 256 == hi && len % 256 == lo
    ensures !cfg.bigPage ==> len == lo
  {
    if cfg.bigPage then hi * 256 + lo else lo
  }

  /**
   * How many times a `do { } while (--length)` loop runs: `length` times,
   * except that 0 wraps round to the width of the length variable.
   */
  function LoopCount(cfg: Config, len: int): (c: int)
    ensures len != 0 ==> c == len
    ensures len == 0 ==> c == (if cfg.bigPage then 65536 else 256)
  {
    if len != 0 then len else if cfg.bigPage then 65536 else 256
  }

  /** The length handed to `writebuffer`: bytes on mapped flash, else words in an eight-bit variable. */
  function SaveLength(cfg: Config, len: int): int
  {
    if cfg.mappedWrite then len else (len / 2) % 256
  }

  /** How many words the word-writing loop stores for a `writebuffer` length: 0 wraps round to 256. */
  function WordsStored(saveLength: int): int
  {
    if saveLength == 0 then 256 else saveLength
  }

  /**
   * A full 512-byte page truncates the word count to 0, and the word loop
   * still stores every word of it: for any even page length up to 512 the
   * words stored cover exactly the bytes received.
   */
  lemma WordCountCoversPage(cfg: Config, len: int)
    requires !cfg.mappedWrite && 2 <= len <= 512 && len % 2 == 0
    ensures 2 * WordsStored(SaveLength(cfg, len)) == len
  {
  }

  /** How many argument bytes PROG_PAGE or READ_PAGE has: two length bytes, the memory type, and for PROG_PAGE the data. */
  function PageArgs(cfg: Config, in0: seq<Frame>, withData: bool): (n: nat)
    ensures n >= 3
  {
    if |in0| < 2 || !withData then 3 else 3 + LoopCount(cfg, PageLength(cfg, in0[0].data, in0[1].data))
  }

  /** A `writebuffer` call: memory type, address, the page buffer's bytes, and the length argument. */
  datatype PageWrite = PageWrite(memtype: U8, address: int, data: seq<U8>, len: int)

  /**
   * The flash byte the `i`th LPM Z+ (sixteen-bit Z) or ELPM Z+ (RAMPZ:Z,
   * twenty-four bits) reads when Z starts at `a` and RAMPZ at `z`.
   */
  function FlashAddress(cfg: Config, z: U8, a: int, i: int): int
  {
    if cfg.hasRampz then (z * 65536 + a + i) % 0x100_0000 else (a + i) % 65536
  }

  /** The data-space address after adding `k`, on sixteen bits. */
  function Add16(a: int, k: int): int
  {
    (a + k) % 65536
  }

  // ---------------------------------------------------------------------
  // The bootloader

  class Bootloader {
    const cfg: Config
    /** A byte of the data space (flash mapped at 0x8000, EEPROM at 0x1400). */
    const dataByte: int -> U8
    /** A byte of flash as LPM/ELPM read it, by its full address. */
    const flashByte: int -> U8

    var input: seq<Frame>
    var output: seq<U8>
    var status: Status
    var watchdog: Watchdog
    /** Watchdog resets done by `getch`. */
    var kicks: nat
    /** `address`: the union's word. */
    var address: int
    var rampz: U8
    /** The RAM page buffer as the last PROG_PAGE filled it. */
    var buffer: seq<U8>
    var writes: seq<PageWrite>

    /** `address` is sixteen bits wide, and a spinning bootloader has set the short watchdog period. */
    predicate Valid()
      reads this
    {
      0 <= address < 65536 && (status == Spinning ==> watchdog == EightClocks)
    }

    /** The bootloader entered with these received frames; `address` and `length` are not initialised in the source, so any address will do. */
    constructor (cfg0: Config, dataByte0: int -> U8, flashByte0: int -> U8, frames: seq<Frame>, address0: int)
      requires 0 <= address0 < 65536
      ensures Valid() && cfg == cfg0 && dataByte == dataByte0 && flashByte == flashByte0
      ensures input == frames && output == [] && status == Running && watchdog == EntryPeriod
      ensures kicks == 0 && address == address0 && rampz == 0 && buffer == [] && writes == []
    {
      cfg, dataByte, flashByte := cfg0, dataByte0, flashByte0;
      input, output, status, watchdog := frames, [], Running, EntryPeriod;
      kicks, address, rampz, buffer, writes := 0, address0, 0, [], [];
    }

    /** `getch`: the next byte; the watchdog is reset only when the frame has no framing error. */
    method GetCh() returns (c: U8)
      requires Valid()
      modifies this`input, this`status, this`kicks
      ensures Valid()
      ensures old(status) != Running ==> input == old(input) && status == old(status) && kicks == old(kicks)
      ensures old(status) == Running && old(input) == [] ==> status == Starved && input == [] && kicks == old(kicks)
      ensures old(status) == Running && old(input) != [] ==>
        status == Running && c == old(input)[0].data && input == old(input)[1..] &&
        kicks == old(kicks) + (if old(input)[0].frameError then 0 else 1)
    {
      c := 0;
      if status != Running {
        return;
      }
      if input == [] {
        status := Starved;
        return;
      }
      var frame := input[0];
      input := input[1..];
      c := frame.data;
      if !frame.frameError {
        kicks := kicks + 1;
      }
    }

    /** `putch`, which nothing reaches once the bootloader waits or spins. */
    method PutCh(c: U8)
      modifies this`output
      ensures output == if status == Running then old(output) + [c] else old(output)
    {
      if status == Running {
        output := output + [c];
      }
    }

    /** `verifySpace`: STK_INSYNC if the next byte is CRC_EOP, else the 8-clock watchdog and a spin with no reply. */
    method VerifySpace()
      requires Valid()
      modifies this`input, this`status, this`kicks, this`output, this`watchdog
      ensures Valid()
      ensures old(status) != Running ==> input == old(input) && status == old(status) && output == old(output) && watchdog == old(watchdog)
      ensures old(status) == Running ==> Answered(old(input), old(output), 0, [], input, output, status)
      ensures status != Spinning ==> watchdog == old(watchdog)
    {
      var c := GetCh();
      if status != Running {
        return;
      }
      if c != CRC_EOP {
        watchdog := EightClocks;
        status := Spinning;
        return;
      }
      PutCh(STK_INSYNC);
    }

    /** `getNch(count)`: `count` bytes dropped (0 meaning 256), then `verifySpace`. */
    method GetNch(count: U8)
      requires Valid()
      modifies this`input, this`status, this`kicks, this`output, this`watchdog
      ensures Valid()
      ensures old(status) != Running ==> input == old(input) && status == old(status) && output == old(output)
      ensures old(status) == Running ==> Answered(old(input), old(output), if count == 0 then 256 else count, [], input, output, status)
      ensures status != Spinning ==> watchdog == old(watchdog)
    {
      if status != Running {
        return; // the caller is already stuck in `getch` or spinning
      }
      var n := if count == 0 then 256 else count;
      ghost var in0 := input;
      var _ := Receive(n);
      VerifySpace();
      if n <= |in0| {
        AnsweredAfter(in0, old(output), n, 0, [], input, output, status);
      }
    }

    /**
     * One pass of the forever loop: a command byte, its arguments, and its
     * reply. A command either sends nothing (it waits for bytes, or its
     * terminator was wrong and it spins) or sends one whole reply,
     * STK_INSYNC first and a single closing STK_OK.
     */
    method Command()
      requires Valid() && status == Running
      modifies this
      ensures Valid()
      ensures status == Running ==> |output| >= |old(output)| && output[..|old(output)|] == old(output) && Framed(output[|old(output)|..])
      ensures status != Running ==> output == old(output)
      ensures |input| <= |old(input)| && (status == Running ==> |input| < |old(input)|)
    {
      var ch := GetCh();
      if status != Running {
        return;
      }
      Dispatch(ch);
      ghost var mid := output;
      PutCh(STK_OK);
      if status == Running {
        assert output == mid + [STK_OK];
        assert output[|old(output)|..] == mid[|old(output)|..] + [STK_OK];
      }
    }

    /** The command handlers, chosen by the command byte; anything unknown only checks its terminator. */
    method Dispatch(ch: U8)
      requires Valid() && status == Running
      modifies this
      ensures Valid()
      ensures status == Running ==> Opened(old(output), output) && |input| < |old(input)|
      ensures status != Running ==> output == old(output) && |input| <= |old(input)|
      ensures ch == STK_GET_PARAMETER ==>
        Answered(old(input), old(output), 1, if |old(input)| > 0 then [ParameterValue(old(input)[0].data)] else [], input, output, status)
      ensures ch == STK_SET_DEVICE ==> Answered(old(input), old(output), 20, [], input, output, status)
      ensures ch == STK_SET_DEVICE_EXT ==> Answered(old(input), old(output), 5, [], input, output, status)
      ensures ch == STK_LOAD_ADDRESS ==> Answered(old(input), old(output), 2, [], input, output, status)
      ensures ch == STK_LOAD_ADDRESS ==>
        address == (if |old(input)| >= 2 then old(input)[0].data + 256 * old(input)[1].data else old(address))
      ensures ch == STK_UNIVERSAL ==> Answered(old(input), old(output), 4, [0], input, output, status)
      ensures ch == STK_PROG_PAGE ==> Answered(old(input), old(output), PageArgs(cfg, old(input), true), [], input, output, status)
      ensures ch == STK_READ_PAGE ==>
        Answered(old(input), old(output), 3, if |old(input)| >= 3 then PageRead(old(input), old(address), old(rampz)) else [], input, output, status)
      ensures ch == STK_READ_SIGN ==>
        Answered(old(input), old(output), 0, [0x1E, SizeByte(cfg.progmemSize, cfg.isDD, cfg.deviceId1), cfg.deviceId2], input, output, status)
      ensures ch == STK_LEAVE_PROGMODE ==> Answered(old(input), old(output), 0, [], input, output, status) && watchdog == EightClocks
      ensures !(ch in {STK_GET_PARAMETER, STK_SET_DEVICE, STK_SET_DEVICE_EXT, STK_LOAD_ADDRESS, STK_UNIVERSAL, STK_PROG_PAGE,
                       STK_READ_PAGE, STK_READ_SIGN, STK_LEAVE_PROGMODE}) ==>
        Answered(old(input), old(output), 0, [], input, output, status)
    {
      ghost var in0, out0 := input, output;
      if ch == STK_GET_PARAMETER {
        GetParameter();
        AnsweredOpens(in0, out0, 1, if |in0| > 0 then [ParameterValue(in0[0].data)] else [], input, output, status);
      } else if ch == STK_SET_DEVICE {
        GetNch(20);
        AnsweredOpens(in0, out0, 20, [], input, output, status);
      } else if ch == STK_SET_DEVICE_EXT {
        GetNch(5);
        AnsweredOpens(in0, out0, 5, [], input, output, status);
      } else if ch == STK_LOAD_ADDRESS {
        LoadAddress();
        AnsweredOpens(in0, out0, 2, [], input, output, status);
      } else if ch == STK_UNIVERSAL {
        Universal();
        AnsweredOpens(in0, out0, 4, [0], input, output, status);
      } else {
        DispatchPages(ch);
      }
    }

    /** The rest of the dispatch: the page commands, the signature, leaving programming mode, and the default. */
    method DispatchPages(ch: U8)
      requires Valid() && status == Running
      modifies this
      ensures Valid()
      ensures status == Running ==> Opened(old(output), output) && |input| < |old(input)|
      ensures status != Running ==> output == old(output) && |input| <= |old(input)|
      ensures ch == STK_PROG_PAGE ==> Answered(old(input), old(output), PageArgs(cfg, old(input), true), [], input, output, status)
      ensures ch == STK_READ_PAGE ==>
        Answered(old(input), old(output), 3, if |old(input)| >= 3 then PageRead(old(input), old(address), old(rampz)) else [], input, output, status)
      ensures ch == STK_READ_SIGN ==>
        Answered(old(input), old(output), 0, [0x1E, SizeByte(cfg.progmemSize, cfg.isDD, cfg.deviceId1), cfg.deviceId2], input, output, status)
      ensures ch == STK_LEAVE_PROGMODE ==> Answered(old(input), old(output), 0, [], input, output, status) && watchdog == EightClocks
      ensures !(ch in {STK_PROG_PAGE, STK_READ_PAGE, STK_READ_SIGN, STK_LEAVE_PROGMODE}) ==>
        Answered(old(input), old(output), 0, [], input, output, status)
    {
      ghost var in0, out0 := input, output;
      if ch == STK_PROG_PAGE {
        ProgPage();
        AnsweredOpens(in0, out0, PageArgs(cfg, in0, true), [], input, output, status);
      } else if ch == STK_READ_PAGE {
        ghost var a0, z0 := address, rampz;
        ReadPage();
        AnsweredOpens(in0, out0, 3, if |in0| >= 3 then PageRead(in0, a0, z0) else [], input, output, status);
      } else if ch == STK_READ_SIGN {
        ReadSign();
        AnsweredOpens(in0, out0, 0, [0x1E, SizeByte(cfg.progmemSize, cfg.isDD, cfg.deviceId1), cfg.deviceId2], input, output, status);
      } else if ch == STK_LEAVE_PROGMODE {
        watchdog := EightClocks;
        VerifySpace();
        AnsweredOpens(in0, out0, 0, [], input, output, status);
      } else {
        VerifySpace();
        AnsweredOpens(in0, out0, 0, [], input, output, status);
      }
    }

    /**
     * The `do { getch() } while (--n)` loops: `count` bytes, or, with fewer
     * left, the wait for bytes that never come.
     */
    method Receive(count: nat) returns (data: seq<U8>)
      requires Valid() && status == Running
      modifies this`input, this`status, this`kicks
      ensures Valid()
      ensures count <= |old(input)| ==> status == Running && input == old(input)[count..] && data == Bytes(old(input)[..count])
      ensures |old(input)| < count ==> status == Starved && input == []
    {
      data := [];
      var i := 0;
      while i < count
        invariant 0 <= i <= count && Valid()
        invariant status == Running ==> i <= |old(input)| && input == old(input)[i..] && data == Bytes(old(input)[..i])
        invariant status != Running ==> status == Starved && |old(input)| < i && input == []
      {
        var b := GetCh();
        if status == Running {
          data := data + [b];
          assert old(input)[..i + 1] == old(input)[..i] + [old(input)[i]];
        }
        i := i + 1;
      }
    }

    /** GET_PARAMETER: the parameter byte, the terminator, then the parameter's value. */
    method GetParameter()
      requires Valid() && status == Running
      modifies this`input, this`status, this`kicks, this`output, this`watchdog
      ensures Valid()
      ensures Answered(old(input), old(output), 1, if |old(input)| > 0 then [ParameterValue(old(input)[0].data)] else [], input, output, status)
    {
      var which := GetCh();
      VerifySpace();
      if which == STK_SW_MINOR {
        PutCh(OPTIBOOT_VERSION % 256);
      } else if which == STK_SW_MAJOR {
        PutCh(OPTIBOOT_VERSION / 256);
      } else {
        PutCh(0x03);
      }
    }

    /** LOAD_ADDRESS: the low and then the high byte of a byte address, then the terminator. */
    method LoadAddress()
      requires Valid() && status == Running
      modifies this`input, this`status, this`kicks, this`output, this`watchdog, this`address
      ensures Valid()
      ensures Answered(old(input), old(output), 2, [], input, output, status)
      ensures |old(input)| >= 2 ==> address == old(input)[0].data + 256 * old(input)[1].data
      ensures |old(input)| < 2 ==> address == old(address)
    {
      var lo := GetCh();
      var hi := GetCh();
      if status == Running {
        address := lo as int + 256 * hi as int;
      }
      VerifySpace();
    }

    /**
     * UNIVERSAL: four bytes and the terminator, answered with 0. On parts
     * with RAMPZ, the LOAD_EXT_ADDR opcode loads RAMPZ from its third byte.
     */
    method Universal()
      requires Valid() && status == Running
      modifies this`input, this`status, this`kicks, this`output, this`watchdog, this`rampz
      ensures Valid()
      ensures Answered(old(input), old(output), 4, [0], input, output, status)
      ensures cfg.hasRampz && |old(input)| >= 3 && old(input)[0].data == AVR_OP_LOAD_EXT_ADDR ==> rampz == old(input)[2].data
      ensures !(cfg.hasRampz && |old(input)| >= 3 && old(input)[0].data == AVR_OP_LOAD_EXT_ADDR) ==> rampz == old(rampz)
    {
      ghost var in0 := input;
      if cfg.hasRampz {
        var op := GetCh();
        if status == Running && op == AVR_OP_LOAD_EXT_ADDR {
          var _ := GetCh();
          var r := GetCh();
          if status == Running {
            rampz := r;
          }
          GetNch(1);
          assert Answered(in0, old(output), 4, [], input, output, status);
        } else if status == Running {
          GetNch(3);
        }
      } else {
        GetNch(4);
      }
      PutCh(0x00);
    }

    /**
     * PROG_PAGE: the length, the memory type, exactly `length` data bytes
     * (0 meaning the full width of the length) into the page buffer, the
     * terminator, and then one `writebuffer` call with the buffer, the
     * address, and the length in bytes (mapped flash) or words.
     */
    method ProgPage()
      requires Valid() && status == Running
      modifies this`input, this`status, this`kicks, this`output, this`watchdog, this`buffer, this`writes
      ensures Valid()
      ensures Answered(old(input), old(output), PageArgs(cfg, old(input), true), [], input, output, status)
      ensures status == Running ==>
        var len := PageLength(cfg, old(input)[0].data, old(input)[1].data);
        buffer == Bytes(old(input)[3..3 + LoopCount(cfg, len)]) &&
        writes == old(writes) + [PageWrite(old(input)[2].data, address, buffer, SaveLength(cfg, len))]
      ensures status != Running ==> writes == old(writes)
    {
      ghost var in0 := input;
      var length := GetLength();
      var saveLength := SaveLength(cfg, length);
      var desttype := GetCh();
      var count := LoopCount(cfg, length);
      if status == Running {
        var page := Receive(count);
        if status == Running {
          buffer := page;
        }
      }
      ghost var in1 := input;
      VerifySpace();
      if status == Running {
        writes := writes + [PageWrite(desttype, address, buffer, saveLength)];
      }
      if 3 + count <= |in0| {
        AnsweredAfter(in0, old(output), 3 + count, 0, [], input, output, status);
      }
    }

    /** GETLENGTH: the big-endian length, or the low byte with the high byte skipped. */
    method GetLength() returns (length: int)
      requires Valid() && status == Running
      modifies this`input, this`status, this`kicks
      ensures Valid()
      ensures |old(input)| >= 2 ==> status == Running && input == old(input)[2..] && length == PageLength(cfg, old(input)[0].data, old(input)[1].data)
      ensures |old(input)| < 2 ==> status == Starved && input == []
      ensures 0 <= length < 65536
    {
      var hi := GetCh();
      var lo := GetCh();
      length := PageLength(cfg, hi, lo);
    }

    /**
     * READ_PAGE: the length, the memory type and the terminator, then
     * `length` bytes (0 meaning the full width of the length) from the
     * address: through the data space on mapped flash or for EEPROM, which
     * moves `address` on, or by LPM/ELPM Z+ from flash on a copy of it.
     */
    method ReadPage()
      requires Valid() && status == Running
      modifies this`input, this`status, this`kicks, this`output, this`watchdog, this`address, this`rampz
      ensures Valid()
      ensures Answered(old(input), old(output), 3, if |old(input)| >= 3 then PageRead(old(input), old(address), old(rampz)) else [], input, output, status)
      ensures status == Running ==> (address, rampz) == PageReadEnd(old(input), old(address), old(rampz))
      ensures status != Running ==> address == old(address) && rampz == old(rampz)
    {
      var length := GetLength();
      var desttype := GetCh();
      VerifySpace();
      if status == Running {
        SendPage(LoopCount(cfg, length), desttype);
      }
    }

    /** The bytes READ_PAGE sends for its argument bytes `args`, from address `a` with RAMPZ `z`. */
    function PageRead(args: seq<Frame>, a: int, z: U8): (r: seq<U8>)
      requires |args| >= 3
      ensures |r| == LoopCount(cfg, PageLength(cfg, args[0].data, args[1].data))
    {
      PageBytes(LoopCount(cfg, PageLength(cfg, args[0].data, args[1].data)), args[2].data, a, z)
    }

    /** Where READ_PAGE leaves `address` and RAMPZ; with too few argument bytes, where they were. */
    function PageReadEnd(args: seq<Frame>, a: int, z: U8): (int, U8)
    {
      if |args| < 3 then (a, z) else PageEnd(LoopCount(cfg, PageLength(cfg, args[0].data, args[1].data)), args[2].data, a, z)
    }

    /** Whether a read of memory type `desttype` goes through the data space. */
    predicate ReadsMapped(desttype: U8)
    {
      cfg.mappedRead || desttype != 'F' as int
    }

    /** Where in the data space memory type `desttype` at address `a` appears: flash at 0x8000, anything else as EEPROM at 0x1400. */
    function MappedBase(desttype: U8, a: int): int
    {
      Add16(a, if desttype == 'F' as int then MAPPED_PROGMEM_START else MAPPED_EEPROM_START)
    }

    /**
     * `count` bytes of memory type `desttype` from address `a` with RAMPZ
     * `z`: from the data space at the mapped address, or from flash at
     * RAMPZ:address.
     */
    function PageBytes(count: nat, desttype: U8, a: int, z: U8): (r: seq<U8>)
      ensures |r| == count
      ensures forall i :: 0 <= i < count ==> r[i] == if ReadsMapped(desttype) then dataByte(Add16(MappedBase(desttype, a), i)) else flashByte(FlashAddress(cfg, z, a, i))
    {
      if ReadsMapped(desttype) then
        var base := MappedBase(desttype, a);
        seq(count, i => dataByte(Add16(base, i)))
      else
        seq(count, i => flashByte(FlashAddress(cfg, z, a, i)))
    }

    /** Where a read of `count` bytes leaves `address` and RAMPZ: the mapped pointer moves on; ELPM Z+ carries into RAMPZ. */
    function PageEnd(count: nat, desttype: U8, a: int, z: U8): (int, U8)
    {
      if ReadsMapped(desttype) then (Add16(MappedBase(desttype, a), count), z)
      else if cfg.hasRampz then (a, (z * 65536 + a + count) / 65536 % 256)
      else (a, z)
    }

    /** The read loops of READ_PAGE, after the terminator. */
    method SendPage(count: nat, desttype: U8)
      requires Valid() && status == Running && count > 0
      modifies this`output, this`address, this`rampz
      ensures Valid()
      ensures output == old(output) + PageBytes(count, desttype, old(address), old(rampz))
      ensures (address, rampz) == PageEnd(count, desttype, old(address), old(rampz))
    {
      if ReadsMapped(desttype) {
        address := MappedBase(desttype, address);
        ReadMapped(count);
      } else {
        ReadFlash(address, count);
      }
    }

    /** The data-space read loop: `count` bytes from `address` up, `address` moving on with each. */
    method ReadMapped(count: nat)
      requires Valid() && status == Running
      modifies this`output, this`address
      ensures Valid()
      ensures output == old(output) + seq(count, i => dataByte(Add16(old(address), i)))
      ensures address == Add16(old(address), count)
    {
      var start := address;
      var i := 0;
      while i < count
        invariant 0 <= i <= count && Valid()
        invariant output == old(output) + seq(i, k => dataByte(Add16(start, k)))
        invariant address == Add16(start, i)
      {
        PutCh(dataByte(address));
        address := Add16(address, 1);
        i := i + 1;
      }
    }

    /** `read_flash(address, length)`: `count` bytes by LPM Z+, or ELPM Z+ with RAMPZ, from a copy `a` of the address. */
    method ReadFlash(a: int, count: nat)
      requires Valid() && status == Running
      modifies this`output, this`rampz
      ensures output == old(output) + seq(count, i => flashByte(FlashAddress(cfg, old(rampz), a, i)))
      ensures cfg.hasRampz ==> rampz == (old(rampz) * 65536 + a + count) / 65536 % 256
      ensures !cfg.hasRampz ==> rampz == old(rampz)
    {
      var z := rampz;
      var i := 0;
      while i < count
        invariant 0 <= i <= count && rampz == z
        invariant output == old(output) + seq(i, k => flashByte(FlashAddress(cfg, z, a, k)))
      {
        PutCh(flashByte(FlashAddress(cfg, z, a, i)));
        i := i + 1;
      }
      if cfg.hasRampz {
        rampz := (z * 65536 + a + count) / 65536 % 256;
      }
    }

    /** READ_SIGN: the terminator, then 0x1E, the size byte and DEVICEID2. */
    method ReadSign()
      requires Valid() && status == Running
      modifies this`input, this`status, this`kicks, this`output, this`watchdog
      ensures Valid()
      ensures Answered(old(input), old(output), 0, [0x1E, SizeByte(cfg.progmemSize, cfg.isDD, cfg.deviceId1), cfg.deviceId2], input, output, status)
    {
      VerifySpace();
      PutCh(0x1E);
      PutCh(SizeByte(cfg.progmemSize, cfg.isDD, cfg.deviceId1));
      PutCh(cfg.deviceId2);
    }

    /**
     * The forever loop, run until the bootloader waits for input that is
     * not there or spins towards its watchdog reset. What it sent is a run
     * of whole replies, one per command handled.
     */
    method Serve() returns (ghost replies: seq<seq<U8>>)
      requires Valid() && status == Running
      modifies this
      ensures Valid() && status != Running
      ensures output == old(output) + Concat(replies)
      ensures forall r :: r in replies ==> Framed(r)
      ensures status == Spinning ==> watchdog == EightClocks
    {
      replies := [];
      while status == Running
        invariant Valid()
        invariant output == old(output) + Concat(replies)
        invariant forall r :: r in replies ==> Framed(r)
        invariant status == Spinning ==> watchdog == EightClocks
        decreases |input|, if status == Running then 1 else 0
      {
        ghost var before := output;
        Command();
        if status == Running {
          ghost var r := output[|before|..];
          ConcatSnoc(replies, r);
          assert output == before + r;
          replies := replies + [r];
        }
      }
    }
  }

  /** Replies one after another. */
  function Concat(rs: seq<seq<U8>>): seq<U8>
  {
    if rs == [] then [] else Concat(rs[..|rs| - 1]) + rs[|rs| - 1]
  }

  lemma ConcatSnoc(rs: seq<seq<U8>>, r: seq<U8>)
    ensures Concat(rs + [r]) == Concat(rs) + r
  {
    assert (rs + [r])[..|rs|] == rs;
  }
}
