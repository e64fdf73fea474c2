// The Flash library of the current core (megaavr/libraries/Flash): whether
// the application may write its own flash, and page erase, word, byte,
// multi-word and multi-byte writes, each a chain of argument checks followed
// by CTRLA commands and SPM instructions on the NVM controller.
//
// The build options the library is compiled under (where SPM lives, whether
// the core keeps the last page for itself, the flash and RAM sizes) are the
// `Config`; the BOOTSIZE and CODESIZE fuses are `Fuses`.

module Flash {
  import opened FlashNvm

  /** Where the SPM instruction the library reaches lives. */
  datatype SpmMode =
    /** USING_OPTIBOOT: the bootloader's `spm z+; ret` at 0x1FA. */
    | Optiboot
    /** SPM_FROM_APP == -1: an entry point somewhere in the first page of the application. */
    | AppEverywhere
    /** SPM_FROM_APP == n: `spm z+` in the application, whose CODESIZE fuse must then be n. */
    | AppCodesize(spmFromApp: bv8)

  /** The build options: SPM mode, whether the core reserves the last page (NO_CORE_RESERVED unset), flash and RAM size. */
  datatype Config = Config(mode: SpmMode, coreReserved: bool, size: FlashSize, ramSize: nat)

  /** The BOOTSIZE and CODESIZE fuses. */
  datatype Fuses = Fuses(bootsize: bv8, codesize: bv8)

  /** PROGMEM_SIZE. */
  function Progmem(cfg: Config): (p: nat)
    ensures p >= 0x8000
  {
    Bytes(cfg.size)
  }

  /** The fuse check every erase and write opens with: a one-page boot section, and the expected CODESIZE when SPM sits in the application. */
  predicate BootOk(cfg: Config, fuses: Fuses)
  {
    fuses.bootsize == 1 && (cfg.mode.AppCodesize? ==> fuses.codesize == cfg.mode.spmFromApp)
  }

  // ---------------------------------------------------------------------
  // checkWritable

  /** Whether the word at `i` is the `spm z+` opcode 0x95F8. */
  predicate IsSpmWord(flash: seq<bv8>, i: nat)
  {
    i + 1 < |flash| && flash[i] == SPM_ZPLUS_LO && flash[i + 1] == SPM_ZPLUS_HI
  }

  /** The first of the addresses `i`, `i + 2`, ... below 0x8000 holding `spm z+`. */
  function FirstSpm(flash: seq<bv8>, i: nat): Option<nat>
    decreases 0x8000 - i
  {
    if i >= 0x8000 then None
    else if IsSpmWord(flash, i) then Some(i)
    else FirstSpm(flash, i + 2)
  }

  /** The scan finds the first `spm z+` word from word `a` on, and finds none only when there is none. */
  lemma {:induction false} FirstSpmFinds(flash: seq<bv8>, a: nat)
    requires a <= 0x4000
    ensures FirstSpm(flash, 2 * a).None? <==> forall c :: a <= c < 0x4000 ==> !IsSpmWord(flash, 2 * c)
    ensures FirstSpm(flash, 2 * a).Some? ==>
      exists b :: a <= b < 0x4000 && FirstSpm(flash, 2 * a).value == 2 * b && IsSpmWord(flash, 2 * b)
        && forall c :: a <= c < b ==> !IsSpmWord(flash, 2 * c)
    decreases 0x4000 - a
  {
    if a < 0x4000 && !IsSpmWord(flash, 2 * a) {
      assert 2 * a + 2 == 2 * (a + 1);
      FirstSpmFinds(flash, a + 1);
      if FirstSpm(flash, 2 * a).Some? {
        var b :| a + 1 <= b < 0x4000 && FirstSpm(flash, 2 * a).value == 2 * b && IsSpmWord(flash, 2 * b)
          && forall c :: a + 1 <= c < b ==> !IsSpmWord(flash, 2 * c);
        assert forall c :: a <= c < b ==> !IsSpmWord(flash, 2 * c);
      }
    }
  }

  /** The verdict of the entry-point scan of SPM_FROM_APP == -1 builds. */
  function ScanVerdict(flash: seq<bv8>): Outcome
  {
    match FirstSpm(flash, 0)
    case None => NoEntry
    case Some(i) => if i < 512 then Ok else BogusEntry
  }

  /**
   * The scan accepts exactly when the first page holds `spm z+`, reports a
   * bogus entry exactly when the opcode appears only beyond it, and reports
   * no entry exactly when it is nowhere in the first 32 KB.
   */
  lemma ScanVerdictMeans(flash: seq<bv8>)
    ensures ScanVerdict(flash) == Ok <==> exists b :: 0 <= b < 256 && IsSpmWord(flash, 2 * b)
    ensures ScanVerdict(flash) == BogusEntry <==>
      (forall c :: 0 <= c < 256 ==> !IsSpmWord(flash, 2 * c)) && exists b :: 256 <= b < 0x4000 && IsSpmWord(flash, 2 * b)
    ensures ScanVerdict(flash) == NoEntry <==> forall c :: 0 <= c < 0x4000 ==> !IsSpmWord(flash, 2 * c)
  {
    FirstSpmFinds(flash, 0);
    if FirstSpm(flash, 0).Some? {
      var b :| 0 <= b < 0x4000 && FirstSpm(flash, 0).value == 2 * b && IsSpmWord(flash, 2 * b)
        && forall c :: 0 <= c < b ==> !IsSpmWord(flash, 2 * c);
      if b < 256 {
        assert exists b :: 0 <= b < 256 && IsSpmWord(flash, 2 * b);
      } else {
        assert forall c :: 0 <= c < 256 ==> !IsSpmWord(flash, 2 * c);
      }
    }
  }

  /** Whether the word at `i` has the bytes `lo`, `hi`. */
  predicate WordIs(flash: seq<bv8>, i: nat, lo: bv8, hi: bv8)
  {
    i + 1 < |flash| && flash[i] == lo && flash[i + 1] == hi
  }

  /**
   * `checkWritable`: without Optiboot, a zero BOOTSIZE is NOBOOTSIZE, then
   * either the entry-point scan or the CODESIZE comparison decides; with
   * Optiboot, the fuse must be 1 and the bootloader must be version 0x1901
   * (0x0901 is OLD) with `spm z+` at 0x1FA (0 there is DISABLED).
   */
  function Writable(cfg: Config, fuses: Fuses, flash: seq<bv8>): Outcome
  {
    match cfg.mode
    case Optiboot =>
      if fuses.bootsize == 0 then NoBoot
      else if fuses.bootsize > 1 then Unrecognized
      else if WordIs(flash, 0x1FE, 0x01, 0x09) then Old
      else if !WordIs(flash, 0x1FE, 0x01, 0x19) then Unrecognized
      else if WordIs(flash, 0x1FA, 0, 0) then Disabled
      else if IsSpmWord(flash, 0x1FA) then Ok
      else Unrecognized
    case AppEverywhere =>
      if fuses.bootsize == 0 then NoBootSize else ScanVerdict(flash)
    case AppCodesize(v) =>
      if fuses.bootsize == 0 then NoBootSize
      else if fuses.codesize != v then CfgMismatch
      else Ok
  }

  /** When `checkWritable` answers OK: for each SPM mode, the fuses and flash contents that allow writing. */
  lemma WritableOk(cfg: Config, fuses: Fuses, flash: seq<bv8>)
    requires |flash| == Progmem(cfg)
    ensures cfg.mode.Optiboot? ==>
      (Writable(cfg, fuses, flash) == Ok <==>
        fuses.bootsize == 1 && WordIs(flash, 0x1FE, 0x01, 0x19) && IsSpmWord(flash, 0x1FA))
    ensures cfg.mode.AppEverywhere? ==>
      (Writable(cfg, fuses, flash) == Ok <==>
        fuses.bootsize != 0 && exists b :: 0 <= b < 256 && IsSpmWord(flash, 2 * b))
    ensures cfg.mode.AppCodesize? ==>
      (Writable(cfg, fuses, flash) == Ok <==> fuses.bootsize != 0 && fuses.codesize == cfg.mode.spmFromApp)
  {
    ScanVerdictMeans(flash);
  }

  /**
   * The scan and the fuse checks of `checkWritable` ask for less than the
   * erases and writes do: a BOOTSIZE of 2 with an entry point in the first
   * page passes `checkWritable`, while every erase is refused with NOBOOT.
   */
  lemma WritableButNoBoot(cfg: Config, flash: seq<bv8>, address: nat)
    requires cfg.mode == AppEverywhere && |flash| == Progmem(cfg)
    requires IsSpmWord(flash, 0)
    ensures Writable(cfg, Fuses(2, 0), flash) == Ok
    ensures EraseCheck(cfg, Fuses(2, 0), address, 1) == NoBoot
  {
    ScanVerdictMeans(flash);
    assert IsSpmWord(flash, 2 * 0);
  }

  /** `checkWritable`, with the entry-point scan as a loop over the even addresses below 0x8000. */
  method CheckWritable(cfg: Config, fuses: Fuses, nvm: NvmCtrl) returns (r: Outcome)
    requires |nvm.flash| == Progmem(cfg)
    ensures r == Writable(cfg, fuses, nvm.flash)
  {
    var flash := nvm.flash;
    match cfg.mode {
      case Optiboot =>
        if fuses.bootsize == 0 {
          return NoBoot;
        }
        if fuses.bootsize > 1 {
          return Unrecognized;
        }
        if flash[0x1FE] == 0x01 && flash[0x1FF] == 0x09 {
          return Old;
        }
        if !(flash[0x1FE] == 0x01 && flash[0x1FF] == 0x19) {
          return Unrecognized;
        }
        if flash[0x1FA] == 0 && flash[0x1FB] == 0 {
          return Disabled;
        }
        if flash[0x1FA] == SPM_ZPLUS_LO && flash[0x1FB] == SPM_ZPLUS_HI {
          return Ok;
        }
        return Unrecognized;
      case AppEverywhere =>
        if fuses.bootsize == 0 {
          return NoBootSize;
        }
        var i := 0;
        while i < 0x8000
          invariant 0 <= i <= 0x8000 && i % 2 == 0
          invariant FirstSpm(flash, i) == FirstSpm(flash, 0)
          decreases 0x8000 - i
        {
          if flash[i] == SPM_ZPLUS_LO && flash[i + 1] == SPM_ZPLUS_HI {
            if i < 512 {
              return Ok;
            }
            return BogusEntry;
          }
          i := i + 2;
        }
        return NoEntry;
      case AppCodesize(v) =>
        if fuses.bootsize == 0 {
          return NoBootSize;
        }
        if fuses.codesize != v {
          return CfgMismatch;
        }
        return Ok;
    }
  }

  // ---------------------------------------------------------------------
  // The argument checks

  /**
   * The checks of `erasePage`, in their order: the fuses, an address past
   * the flash, the size (1, 2, 4, 8, 16 or 32 pages), an address below the
   * `size`-page block after the boot section, and, when the core reserves
   * it, an erase reaching the last block.
   */
  function EraseCheck(cfg: Config, fuses: Fuses, address: nat, size: bv8): Outcome
  {
    if !BootOk(cfg, fuses) then NoBoot
    else if address >= Progmem(cfg) then BadAddr
    else
      match EraseTable(size)
      case None => BadSize
      case Some(entry) =>
        var minaddress := entry.1;
        if address < minaddress then BadAddr
        else if cfg.coreReserved && address > Progmem(cfg) - minaddress - 1 then ReservedByCore
        else Ok
  }

  /** Which erases pass: the fuses are right, the size is in the table and the address lies past the boot section (and short of the last block when the core reserves it). */
  lemma EraseCheckOk(cfg: Config, fuses: Fuses, address: nat, size: bv8)
    ensures EraseCheck(cfg, fuses, address, size) == Ok <==>
      BootOk(cfg, fuses) && EraseTable(size).Some? &&
      PAGE * size as nat <= address < Progmem(cfg) &&
      (cfg.coreReserved ==> address < Progmem(cfg) - PAGE * size as nat)
  {
  }

  /** An erase the checks pass, with the core reserve on, keeps the boot section and the last page. */
  lemma EraseSparesBootAndCore(cfg: Config, fuses: Fuses, flash: seq<bv8>, address: nat, size: bv8)
    requires |flash| == Progmem(cfg) && cfg.coreReserved
    requires EraseCheck(cfg, fuses, address, size) == Ok
    ensures EraseBlock(flash, address, size as nat)[..PAGE] == flash[..PAGE]
    ensures EraseBlock(flash, address, size as nat)[|flash| - PAGE..] == flash[|flash| - PAGE..]
  {
    EraseCheckOk(cfg, fuses, address, size);
    var pages := size as nat;
    assert 0x8000 % (PAGE * pages) == 0 && 0x10000 % (PAGE * pages) == 0 && 0x20000 % (PAGE * pages) == 0;
    EraseBlockSpares(flash, address, pages);
  }

  /** The checks of `writeWord`: the fuses, an address outside 512 .. PROGMEM_SIZE - 2, an odd address. */
  function WordCheck(cfg: Config, fuses: Fuses, address: nat): Outcome
  {
    if !BootOk(cfg, fuses) then NoBoot
    else if address > Progmem(cfg) - 2 || address < 512 then BadAddr
    else if address % 2 == 1 then Align
    else Ok
  }

  /** Which word writes pass: the fuses are right and the address is an even one past the boot section with its word inside the flash. */
  lemma WordCheckOk(cfg: Config, fuses: Fuses, address: nat)
    ensures WordCheck(cfg, fuses, address) == Ok <==>
      BootOk(cfg, fuses) && 512 <= address && address + 2 <= Progmem(cfg) && address % 2 == 0
  {
  }

  /** The checks of `writeByte`: the fuses, an address outside 512 .. PROGMEM_SIZE - 2, and the last page when the core reserves it. */
  function ByteCheck(cfg: Config, fuses: Fuses, address: nat): Outcome
  {
    if !BootOk(cfg, fuses) then NoBoot
    else if address > Progmem(cfg) - 2 || address < 512 then BadAddr
    else if cfg.coreReserved && address > Progmem(cfg) - 513 then ReservedByCore
    else Ok
  }

  /** Which byte writes pass; the last byte of the flash is always refused, and the whole last page when the core reserves it. */
  lemma ByteCheckOk(cfg: Config, fuses: Fuses, address: nat)
    ensures ByteCheck(cfg, fuses, address) == Ok <==>
      BootOk(cfg, fuses) && 512 <= address && address + 2 <= Progmem(cfg) &&
      (cfg.coreReserved ==> address + PAGE < Progmem(cfg))
  {
  }

  /**
   * The checks of `writeWords`: a zero length first, then those of
   * `writeWord`, then a run past the flash or a length of at least RAMSIZE;
   * `2 * length` is 16-bit arithmetic.
   */
  function WordsCheck(cfg: Config, fuses: Fuses, address: nat, length: nat): Outcome
  {
    if length == 0 then ZeroLength
    else if !BootOk(cfg, fuses) then NoBoot
    else if address > Progmem(cfg) - 2 || address < 512 then BadAddr
    else if address % 2 == 1 then Align
    else if address + (2 * length) % 0x10000 > Progmem(cfg) || length >= cfg.ramSize then TooBig
    else Ok
  }

  /**
   * Which multi-word writes pass, on parts with at most 32 KB of RAM (all of
   * them): a non-empty run of fewer than RAMSIZE words from an even address
   * past the boot section, ending inside the flash.
   */
  lemma WordsCheckOk(cfg: Config, fuses: Fuses, address: nat, length: nat)
    requires cfg.ramSize <= 0x8000
    ensures WordsCheck(cfg, fuses, address, length) == Ok <==>
      BootOk(cfg, fuses) && 0 < length < cfg.ramSize && 512 <= address && address % 2 == 0 &&
      address + 2 * length <= Progmem(cfg)
  {
  }

  // ---------------------------------------------------------------------
  // The controller sequences

  /**
   * The state one SPM leaves, `r` being what the checks on STATUS and ADDR
   * answer: CTRLA got NONE then `cmd`, SPM ran at `z`, RAMPZ is back to 0 on
   * parts over 64 KB, and when an entry point answered, its error bits are in
   * STATUS (cleared again when the checks report them), ADDR is `z + 1` and
   * the flash took the SPM's effect.
   */
  twostate predicate SpmIssued(nvm: NvmCtrl, cfg: Config, cmd: NvmCommand, z: nat, lo: bv8, hi: bv8,
                               expected: int, missing: Outcome, r: Outcome)
    reads nvm
  {
    var s := if nvm.live then old(nvm.status) | NextFault(old(nvm.faults)) else old(nvm.status);
    && nvm.trace == old(nvm.trace) + [CtrlA(CmdNone), CtrlA(cmd), SpmAt(z)]
    && nvm.command == cmd
    && nvm.rampz == (if Progmem(cfg) > 0x10000 then 0 else old(nvm.rampz))
    && nvm.faults == (if nvm.live then Rest(old(nvm.faults)) else old(nvm.faults))
    && nvm.addr == (if nvm.live then z + 1 else old(nvm.addr))
    && nvm.flash == (if nvm.live then SpmEffect(old(nvm.flash), cmd, z, lo, hi, NextFault(old(nvm.faults))) else old(nvm.flash))
    && nvm.status == (if s & STATUS_ERROR != 0 then 0 else s)
    && r == PostVerdict(s, nvm.addr, expected, missing)
  }

  /** The sequence every erase and single write runs once its checks pass: RAMPZ, CTRLA, one SPM, RAMPZ cleared, then the checks. */
  method IssueSpm(cfg: Config, nvm: NvmCtrl, address: nat, cmd: NvmCommand, z: nat, lo: bv8, hi: bv8,
                  expected: int, missing: Outcome) returns (r: Outcome)
    modifies nvm
    ensures SpmIssued(nvm, cfg, cmd, z, lo, hi, expected, missing, r)
  {
    if Progmem(cfg) > 0x10000 {
      nvm.SetRampz(address);
    }
    nvm.DoNvmctrl(cmd);
    nvm.Spm(z, lo, hi);
    if Progmem(cfg) > 0x10000 {
      nvm.SetRampz(0);
    }
    r := nvm.PostCheck(expected, missing);
  }

  /** `erasePage`: erases the `size`-page block holding `address`. */
  method ErasePage(cfg: Config, fuses: Fuses, nvm: NvmCtrl, address: nat, size: bv8) returns (r: Outcome)
    modifies nvm
    ensures EraseCheck(cfg, fuses, address, size) != Ok ==> r == EraseCheck(cfg, fuses, address, size) && unchanged(nvm)
    ensures EraseCheck(cfg, fuses, address, size) == Ok ==>
      SpmIssued(nvm, cfg, PageErase(size as nat), address, 0xFF, 0xFF, address + 1, SpmNotUsed, r)
    ensures r == Ok && nvm.live ==> nvm.flash == EraseBlock(old(nvm.flash), address, size as nat)
  {
    r := EraseCheck(cfg, fuses, address, size);
    if r != Ok {
      return;
    }
    var command := EraseTable(size).value.0;
    ghost var faults := nvm.faults;
    ghost var status := nvm.status;
    r := IssueSpm(cfg, nvm, address, command, address, 0xFF, 0xFF, address + 1, SpmNotUsed);
    if r == Ok && nvm.live {
      CleanStatusNoFault(status, NextFault(faults));
    }
  }

  /** `writeWord`: programs the 16-bit `data`, low byte first, at the even `address`. */
  method WriteWord(cfg: Config, fuses: Fuses, nvm: NvmCtrl, address: nat, data: bv16) returns (r: Outcome)
    requires |nvm.flash| == Progmem(cfg)
    modifies nvm
    ensures WordCheck(cfg, fuses, address) != Ok ==> r == WordCheck(cfg, fuses, address) && unchanged(nvm)
    ensures WordCheck(cfg, fuses, address) == Ok ==>
      SpmIssued(nvm, cfg, FlashWrite, address, LowByte(data), HighByte(data), address + 1, NotWritten, r)
    ensures r == Ok && nvm.live ==>
      nvm.flash == ProgramBytes(old(nvm.flash), address, [LowByte(data), HighByte(data)])
  {
    r := WordCheck(cfg, fuses, address);
    if r != Ok {
      return;
    }
    ghost var faults := nvm.faults;
    ghost var status := nvm.status;
    ghost var flash := nvm.flash;
    r := IssueSpm(cfg, nvm, address, FlashWrite, address, LowByte(data), HighByte(data), address + 1, NotWritten);
    if r == Ok && nvm.live {
      CleanStatusNoFault(status, NextFault(faults));
      var bytes := [LowByte(data), HighByte(data)];
      assert WordSteps(address, bytes, 1) == [SpmWrite(address, LowByte(data), HighByte(data))];
      WordStepsProgram(flash, address, bytes, 1);
      assert bytes[..2] == bytes;
    }
  }

  /** `writeByte`: programs one byte through a word whose other half is 0xFF, at the even address below it. */
  method WriteByte(cfg: Config, fuses: Fuses, nvm: NvmCtrl, address: nat, data: bv8) returns (r: Outcome)
    requires |nvm.flash| == Progmem(cfg)
    modifies nvm
    ensures ByteCheck(cfg, fuses, address) != Ok ==> r == ByteCheck(cfg, fuses, address) && unchanged(nvm)
    ensures r == Ok ==> address + 2 <= |old(nvm.flash)|
    ensures |nvm.flash| == |old(nvm.flash)|
    ensures ByteCheck(cfg, fuses, address) == Ok ==>
      SpmIssued(nvm, cfg, FlashWrite, address - address % 2, ByteLo(address, data), ByteHi(address, data),
                address - address % 2 + 1, SpmNotUsed, r)
    ensures r == Ok && nvm.live ==> nvm.flash == ProgramBytes(old(nvm.flash), address, [data])
  {
    r := ByteCheck(cfg, fuses, address);
    if r != Ok {
      return;
    }
    var dataword := DataWord(address, data);
    ByteWordBytes(address, data);
    var zaddress := address - address % 2;
    var lo, hi := LowByte(dataword), HighByte(dataword);
    ghost var faults := nvm.faults;
    ghost var status := nvm.status;
    ghost var flash := nvm.flash;
    r := IssueSpm(cfg, nvm, address, FlashWrite, zaddress, lo, hi, zaddress + 1, SpmNotUsed);
    assert SpmIssued(nvm, cfg, FlashWrite, zaddress, ByteLo(address, data), ByteHi(address, data), zaddress + 1, SpmNotUsed, r);
    if r == Ok && nvm.live {
      CleanStatusNoFault(status, NextFault(faults));
      ByteStepProgram(flash, address, data);
    }
  }

  /** The SPM events of `n` word writes from `z` on. */
  function SpmsAt(z: nat, n: nat): (t: seq<NvmEvent>)
    ensures |t| == n
  {
    if n == 0 then [] else SpmsAt(z, n - 1) + [SpmAt(z + 2 * (n - 1))]
  }

  /** The flash after `n` FLWR SPMs from `z` on, the k-th raising the k-th queued fault. */
  function WordsEffect(flash: seq<bv8>, faults: seq<bv8>, z: nat, data: seq<bv8>, n: nat): (r: seq<bv8>)
    requires 2 * n <= |data|
    ensures |r| == |flash|
    decreases n
  {
    if n == 0 then flash
    else
      var k := n - 1;
      SpmEffect(WordsEffect(flash, faults, z, data, k), FlashWrite, z + 2 * k, data[2 * k], data[2 * k + 1],
                NextFault(RestN(faults, k)))
  }

  /** When none of the SPMs raises an error, the loop's SPMs are exactly the word writes of the run. */
  lemma {:induction false} WordsEffectClean(flash: seq<bv8>, faults: seq<bv8>, z: nat, data: seq<bv8>, n: nat)
    requires 2 * n <= |data| && FaultsOf(faults, n) == 0
    ensures WordsEffect(flash, faults, z, data, n) == Apply(flash, WordSteps(z, data, n))
    decreases n
  {
    if n > 0 {
      var k := n - 1;
      FaultsOfNext(faults, k);
      WordsEffectClean(flash, faults, z, data, k);
      ApplyAppend(flash, WordSteps(z, data, k), [SpmWrite(z + 2 * k, data[2 * k], data[2 * k + 1])]);
    }
  }

  /**
   * The state the SPM loop of `writeWords` leaves: CTRLA got NONE then FLWR,
   * one SPM per word at `address`, `address + 2`, ..., RAMPZ is back to 0 on
   * parts over 64 KB, and when an entry point answered, the error bits of
   * all the SPMs are in STATUS, ADDR is the last byte addressed and the flash
   * took each SPM's effect in turn.
   */
  twostate predicate WordsIssued(nvm: NvmCtrl, cfg: Config, address: nat, data: seq<bv8>, length: nat, r: Outcome)
    requires 0 < length && 2 * length <= |data|
    reads nvm
  {
    var s := if nvm.live then old(nvm.status) | FaultsOf(old(nvm.faults), length) else old(nvm.status);
    && nvm.trace == old(nvm.trace) + [CtrlA(CmdNone), CtrlA(FlashWrite)] + SpmsAt(address, length)
    && nvm.command == FlashWrite
    && nvm.rampz == (if Progmem(cfg) > 0x10000 then 0 else old(nvm.rampz))
    && nvm.faults == (if nvm.live then RestN(old(nvm.faults), length) else old(nvm.faults))
    && nvm.addr == (if nvm.live then address + 2 * length - 1 else old(nvm.addr))
    && nvm.flash == (if nvm.live then WordsEffect(old(nvm.flash), old(nvm.faults), address, data, length) else old(nvm.flash))
    && nvm.status == (if s & STATUS_ERROR != 0 then 0 else s)
    && r == PostVerdict(s, nvm.addr, address + 2 * length - 1, SpmNotUsed)
  }

  /**
   * What the first `k` SPMs of the `writeWords` loop leave, against the
   * state before the loop: their events on the trace and, when an entry
   * point answers, their faults consumed and ORed into STATUS, their effects
   * on the flash and ADDR at the last byte addressed.
   */
  ghost predicate WordsSoFar(nvm: NvmCtrl, flash0: seq<bv8>, faults0: seq<bv8>, status0: bv8, addr0: int,
                             trace0: seq<NvmEvent>, address: nat, data: seq<bv8>, k: nat)
    requires 2 * k <= |data|
    reads nvm
  {
    && nvm.trace == trace0 + SpmsAt(address, k)
    && (nvm.live ==>
          && nvm.faults == RestN(faults0, k)
          && nvm.status == status0 | FaultsOf(faults0, k)
          && nvm.flash == WordsEffect(flash0, faults0, address, data, k)
          && (k > 0 ==> nvm.addr == address + 2 * k - 1))
    && (!nvm.live ==> nvm.faults == faults0 && nvm.status == status0 && nvm.flash == flash0 && nvm.addr == addr0)
  }

  /** What one more SPM of the `writeWords` loop adds to the trace, the fault queue, STATUS and the flash. */
  lemma WordsNext(flash0: seq<bv8>, faults0: seq<bv8>, status0: bv8, address: nat, data: seq<bv8>, k: nat)
    requires 2 * k + 2 <= |data|
    ensures SpmsAt(address, k + 1) == SpmsAt(address, k) + [SpmAt(address + 2 * k)]
    ensures RestN(faults0, k + 1) == Rest(RestN(faults0, k))
    ensures status0 | FaultsOf(faults0, k + 1) == (status0 | FaultsOf(faults0, k)) | NextFault(RestN(faults0, k))
    ensures WordsEffect(flash0, faults0, address, data, k + 1) ==
      SpmEffect(WordsEffect(flash0, faults0, address, data, k), FlashWrite, address + 2 * k, data[2 * k], data[2 * k + 1],
                NextFault(RestN(faults0, k)))
  {
    FaultsOfNext(faults0, k);
  }

  /** One pass of the `writeWords` loop: r0 and r1 loaded from the buffer at `ptr`, then `spm z+` at `zaddress`. */
  method SpmWordStep(nvm: NvmCtrl, ghost flash0: seq<bv8>, ghost faults0: seq<bv8>, ghost status0: bv8, ghost addr0: int,
                     ghost trace0: seq<NvmEvent>, address: nat, data: seq<bv8>, ghost k: nat, zaddress: nat, ptr: nat)
    requires zaddress == address + 2 * k && ptr == 2 * k && ptr + 2 <= |data|
    requires WordsSoFar(nvm, flash0, faults0, status0, addr0, trace0, address, data, k)
    requires nvm.command == FlashWrite
    modifies nvm
    ensures WordsSoFar(nvm, flash0, faults0, status0, addr0, trace0, address, data, k + 1)
    ensures nvm.command == old(nvm.command) && nvm.rampz == old(nvm.rampz)
  {
    var r0 := data[ptr];
    var r1 := data[ptr + 1];
    WordsNext(flash0, faults0, status0, address, data, k);
    nvm.Spm(zaddress, r0, r1);
  }

  /** The loop of `writeWords`: for each of the `length` words, r0 and r1 from the buffer, then `spm z+`. */
  method SpmWordsLoop(nvm: NvmCtrl, address: nat, data: seq<bv8>, length: nat)
    requires 0 < length && 2 * length <= |data|
    requires nvm.command == FlashWrite
    modifies nvm
    ensures WordsSoFar(nvm, old(nvm.flash), old(nvm.faults), old(nvm.status), old(nvm.addr), old(nvm.trace), address, data, length)
    ensures nvm.command == old(nvm.command) && nvm.rampz == old(nvm.rampz)
  {
    ghost var flash0, faults0, status0, addr0, trace0 := nvm.flash, nvm.faults, nvm.status, nvm.addr, nvm.trace;
    ghost var command0, rampz0 := nvm.command, nvm.rampz;
    var zaddress := address;
    var declength := length;
    var ptr := 0;
    ghost var k := 0;
    // A do-while in the source; `length` is not zero, so its body runs first as here.
    while declength > 0
      invariant 0 <= declength <= length && k == length - declength
      invariant zaddress == address + 2 * k && ptr == 2 * k
      invariant nvm.command == command0 && nvm.rampz == rampz0
      invariant WordsSoFar(nvm, flash0, faults0, status0, addr0, trace0, address, data, k)
    {
      SpmWordStep(nvm, flash0, faults0, status0, addr0, trace0, address, data, k, zaddress, ptr);
      zaddress, ptr := zaddress + 2, ptr + 2;
      declength := declength - 1;
      k := k + 1;
    }
  }

  /**
   * The sequence `writeWords` runs once its checks pass: RAMPZ, CTRLA, the
   * loop of SPMs, RAMPZ cleared, then the checks.
   */
  method IssueWords(cfg: Config, nvm: NvmCtrl, address: nat, data: seq<bv8>, length: nat) returns (r: Outcome)
    requires 0 < length && 2 * length <= |data|
    modifies nvm
    ensures WordsIssued(nvm, cfg, address, data, length, r)
  {
    if Progmem(cfg) > 0x10000 {
      nvm.SetRampz(address);
    }
    nvm.DoNvmctrl(FlashWrite);
    SpmWordsLoop(nvm, address, data, length);
    if Progmem(cfg) > 0x10000 {
      nvm.SetRampz(0);
    }
    r := nvm.PostCheck(address + 2 * length - 1, SpmNotUsed);
  }

  /** `writeWords`: programs `length` words, taken from `data` two bytes at a time, from the even `address` on. */
  method WriteWords(cfg: Config, fuses: Fuses, nvm: NvmCtrl, address: nat, data: seq<bv8>, length: nat) returns (r: Outcome)
    requires |nvm.flash| == Progmem(cfg) && cfg.ramSize <= 0x8000
    requires length < 0x10000 && 2 * length <= |data|
    modifies nvm
    ensures WordsCheck(cfg, fuses, address, length) != Ok ==> r == WordsCheck(cfg, fuses, address, length) && unchanged(nvm)
    ensures r == Ok ==> address + 2 * length <= |old(nvm.flash)|
    ensures |nvm.flash| == |old(nvm.flash)|
    ensures WordsCheck(cfg, fuses, address, length) == Ok ==> WordsIssued(nvm, cfg, address, data, length, r)
    ensures r == Ok && nvm.live ==>
      address + 2 * length <= |old(nvm.flash)| &&
      nvm.flash == ProgramBytes(old(nvm.flash), address, data[..2 * length])
  {
    r := WordsCheck(cfg, fuses, address, length);
    if r != Ok {
      return;
    }
    WordsCheckOk(cfg, fuses, address, length);
    ghost var faults := nvm.faults;
    ghost var status := nvm.status;
    ghost var flash := nvm.flash;
    r := IssueWords(cfg, nvm, address, data, length);
    if r == Ok && nvm.live {
      FaultsOfMasked(faults, length);
      CleanStatusNoFault(status, FaultsOf(faults, length));
      WordsEffectClean(flash, faults, address, data, length);
      WordStepsProgram(flash, address, data, length);
    }
  }

  /** The controller's state at one moment, from which a later step is described. */
  datatype Snap = Snap(status: bv8, addr: int, rampz: bv8, faults: seq<bv8>, flash: seq<bv8>, trace: seq<NvmEvent>)

  function SnapOf(nvm: NvmCtrl): Snap
    reads nvm
  {
    Snap(nvm.status, nvm.addr, nvm.rampz, nvm.faults, nvm.flash, nvm.trace)
  }

  /** One programming step of `writeBytes`: a `writeByte` of one byte, or a `writeWords` of `n` words of `words`. */
  datatype SpmStep = ByteAt(address: nat, value: bv8) | WordsAt(address: nat, words: seq<bv8>, n: nat)

  /**
   * What a step whose checks passed leaves, against the state `mid` it
   * started from: its CTRLA writes and SPMs are the last events of the
   * trace, and when an entry point answers, its faults are consumed and
   * ORed into STATUS, ADDR is the last byte it addressed and the flash took
   * its effect; the answer is the post-SPM verdict on that STATUS and ADDR.
   */
  ghost predicate StepFrom(nvm: NvmCtrl, cfg: Config, mid: Snap, step: SpmStep, r: Outcome)
    reads nvm
  {
    && nvm.rampz == (if Progmem(cfg) > 0x10000 then 0 else mid.rampz)
    && match step
       case ByteAt(a, v) =>
         var z := a - a % 2;
         var s := if nvm.live then mid.status | NextFault(mid.faults) else mid.status;
         && nvm.trace == mid.trace + [CtrlA(CmdNone), CtrlA(FlashWrite), SpmAt(z)]
         && nvm.faults == (if nvm.live then Rest(mid.faults) else mid.faults)
         && nvm.addr == (if nvm.live then z + 1 else mid.addr)
         && nvm.flash == (if nvm.live then SpmEffect(mid.flash, FlashWrite, z, ByteLo(a, v), ByteHi(a, v), NextFault(mid.faults))
                          else mid.flash)
         && nvm.status == (if s & STATUS_ERROR != 0 then 0 else s)
         && r == PostVerdict(s, nvm.addr, z + 1, SpmNotUsed)
       case WordsAt(a, ws, n) =>
         && 0 < n && 2 * n <= |ws|
         && var s := if nvm.live then mid.status | FaultsOf(mid.faults, n) else mid.status;
            && nvm.trace == mid.trace + [CtrlA(CmdNone), CtrlA(FlashWrite)] + SpmsAt(a, n)
            && nvm.faults == (if nvm.live then RestN(mid.faults, n) else mid.faults)
            && nvm.addr == (if nvm.live then a + 2 * n - 1 else mid.addr)
            && nvm.flash == (if nvm.live then WordsEffect(mid.flash, mid.faults, a, ws, n) else mid.flash)
            && nvm.status == (if s & STATUS_ERROR != 0 then 0 else s)
            && r == PostVerdict(s, nvm.addr, a + 2 * n - 1, SpmNotUsed)
  }

  /** The step of `writeBytes`'s even part that starts `d` bytes into `data`: the words first, then the last byte. */
  function TailStep(tAddress: nat, data: seq<bv8>, d: nat): SpmStep
    requires d < |data|
  {
    if |data| / 2 > 0 && d == 0 then WordsAt(tAddress, data, |data| / 2)
    else ByteAt(tAddress + |data| - 1, data[|data| - 1])
  }

  /** The step of `writeBytes` that starts `done` bytes into `data`: the leading byte of an odd address, then the even part. */
  function BytesStep(address: nat, data: seq<bv8>, done: nat): SpmStep
    requires done < |data|
  {
    if address % 2 == 1 then
      if done == 0 then ByteAt(address, data[0]) else TailStep(address + 1, data[1..], done - 1)
    else TailStep(address, data, done)
  }

  /**
   * How a run of `writeBytes` that did not answer Ok stopped, against the
   * state `start` before the run: the failing step begins `d` bytes into
   * `data` from `base`, and `mid`, the state that step found, holds exactly
   * the bytes before it. A step its check refused (`check`) writes nothing;
   * a step whose check passed ran as StepFrom says, and no step ran after it.
   */
  ghost predicate StoppedAt(nvm: NvmCtrl, cfg: Config, start: Snap, base: nat, data: seq<bv8>, d: nat, mid: Snap,
                            check: Outcome, step: SpmStep, r: Outcome)
    reads nvm
  {
    && d < |data|
    && (d == 0 ==> mid == start)
    && (0 < d ==>
          base + d <= |start.flash| &&
          mid.flash == (if nvm.live then ProgramBytes(start.flash, base, data[..d]) else start.flash))
    && (check != Ok ==> r == check && nvm.flash == mid.flash)
    && (check == Ok ==> StepFrom(nvm, cfg, mid, step, r))
  }

  /**
   * The check of the step of `writeBytes`'s even part that starts `d` bytes
   * into a run of `len` bytes from `tAddress`: the words' check at the start
   * when there are whole words, the last byte's check otherwise; nothing
   * to check in an empty run.
   */
  function TailStepCheck(cfg: Config, fuses: Fuses, tAddress: nat, len: nat, d: nat): Outcome
  {
    if len == 0 then Ok
    else if len / 2 > 0 && d == 0 then WordsCheck(cfg, fuses, tAddress, len / 2)
    else ByteCheck(cfg, fuses, tAddress + len - 1)
  }

  /**
   * The check of the step of `writeBytes` that starts `done` bytes into a
   * run of `len` bytes from `address`: the leading byte's for an odd
   * address, then those of the even part after it; an empty run is refused.
   */
  function BytesStepCheck(cfg: Config, fuses: Fuses, address: nat, len: nat, done: nat): Outcome
  {
    if len == 0 then ZeroLength
    else if address % 2 == 1 then
      if done == 0 then ByteCheck(cfg, fuses, address) else TailStepCheck(cfg, fuses, address + 1, len - 1, done - 1)
    else TailStepCheck(cfg, fuses, address, len, done)
  }

  /**
   * `writeBytes` as intended: a leading byte for an odd address, then the
   * whole words from the byte after it, then a last byte at its own address,
   * stopping at the first step that fails. `done` counts the bytes of the
   * steps that completed: on failure it is where the failing step starts,
   * and `mid` is the controller as that step found it, holding exactly the
   * bytes before it. When that step's check refused it, the answer is the
   * check's and nothing more is written; when the check passed, the step ran
   * and its post-SPM verdict is the answer, and no later step ran.
   */
  method WriteBytes(cfg: Config, fuses: Fuses, nvm: NvmCtrl, address: nat, data: seq<bv8>)
    returns (r: Outcome, ghost done: nat, ghost mid: Snap)
    requires |nvm.flash| == Progmem(cfg) && cfg.ramSize <= 0x8000
    requires |data| < 0x10000
    modifies nvm
    ensures |data| == 0 ==> r == ZeroLength && done == 0 && unchanged(nvm)
    ensures r == Ok && nvm.live ==>
      address + |data| <= |old(nvm.flash)| && nvm.flash == ProgramBytes(old(nvm.flash), address, data)
    ensures r == Ok ==> done == |data|
    ensures !nvm.live ==> nvm.flash == old(nvm.flash)
    ensures done <= |data| && (0 < done ==> address + done <= |old(nvm.flash)|)
    ensures 0 < |data| && r != Ok ==>
      done < |data| &&
      StoppedAt(nvm, cfg, old(SnapOf(nvm)), address, data, done, mid, BytesStepCheck(cfg, fuses, address, |data|, done),
                BytesStep(address, data, done), r)
  {
    done, mid := 0, SnapOf(nvm);
    if |data| == 0 {
      return ZeroLength, 0, mid;
    }
    if address % 2 == 1 {
      r, done, mid := OddRun(cfg, fuses, nvm, address, data);
    } else {
      r, done, mid := WriteWordsThenByte(cfg, fuses, nvm, address, data);
    }
  }

  /** `writeBytes` from an odd address: the leading byte, then the even part from the next address. */
  method OddRun(cfg: Config, fuses: Fuses, nvm: NvmCtrl, address: nat, data: seq<bv8>)
    returns (r: Outcome, ghost done: nat, ghost mid: Snap)
    requires |nvm.flash| == Progmem(cfg) && cfg.ramSize <= 0x8000
    requires 0 < |data| < 0x10000 && address % 2 == 1
    modifies nvm
    ensures r == Ok && nvm.live ==>
      address + |data| <= |old(nvm.flash)| && nvm.flash == ProgramBytes(old(nvm.flash), address, data)
    ensures r == Ok ==> done == |data|
    ensures !nvm.live ==> nvm.flash == old(nvm.flash)
    ensures done <= |data| && (0 < done ==> address + done <= |old(nvm.flash)|)
    ensures r != Ok ==>
      done < |data| &&
      StoppedAt(nvm, cfg, old(SnapOf(nvm)), address, data, done, mid, BytesStepCheck(cfg, fuses, address, |data|, done),
                BytesStep(address, data, done), r)
  {
    done, mid := 0, SnapOf(nvm);
    r := SingleByte(cfg, fuses, nvm, address, data[0]);
    if r != Ok {
      return;
    }
    r, done, mid := AfterLead(cfg, fuses, nvm, address, data, old(SnapOf(nvm)));
  }

  /**
   * The even part of an odd-address `writeBytes` once its leading byte is
   * written, stated against the state `start` before that byte.
   */
  method AfterLead(cfg: Config, fuses: Fuses, nvm: NvmCtrl, address: nat, data: seq<bv8>, ghost start: Snap)
    returns (r: Outcome, ghost done: nat, ghost mid: Snap)
    requires |nvm.flash| == Progmem(cfg) && cfg.ramSize <= 0x8000
    requires 0 < |data| < 0x10000 && address % 2 == 1
    requires address + 2 <= |start.flash| && |nvm.flash| == |start.flash|
    requires nvm.flash == (if nvm.live then ProgramBytes(start.flash, address, [data[0]]) else start.flash)
    modifies nvm
    ensures r == Ok && nvm.live ==>
      address + |data| <= |start.flash| && nvm.flash == ProgramBytes(start.flash, address, data)
    ensures r == Ok ==> done == |data|
    ensures !nvm.live ==> nvm.flash == start.flash
    ensures 0 < done <= |data| && address + done <= |start.flash|
    ensures r != Ok ==>
      done < |data| &&
      StoppedAt(nvm, cfg, start, address, data, done, mid, TailStepCheck(cfg, fuses, address + 1, |data| - 1, done - 1),
                TailStep(address + 1, data[1..], done - 1), r)
  {
    ghost var s1 := SnapOf(nvm);
    ghost var d;
    r, d, mid := WriteWordsThenByte(cfg, fuses, nvm, address + 1, data[1..]);
    done := 1 + d;
    if r == Ok && nvm.live {
      LeadThenRest(start.flash, s1.flash, nvm.flash, address, data);
    }
    if r != Ok {
      StoppedShift(nvm, cfg, start, s1, address, data, d, mid, TailStepCheck(cfg, fuses, address + 1, |data| - 1, d),
                   TailStep(address + 1, data[1..], d), r);
    }
  }

  /**
   * A stop of the even part that follows a leading byte, counted from the
   * leading byte's address: the bytes before the failing step are the
   * leading byte and those of the even part before it.
   */
  lemma StoppedShift(nvm: NvmCtrl, cfg: Config, start: Snap, s1: Snap, address: nat, data: seq<bv8>, d: nat, mid: Snap,
                     check: Outcome, step: SpmStep, r: Outcome)
    requires 0 < |data| && address + 2 <= |start.flash| && |s1.flash| == |start.flash|
    requires s1.flash == (if nvm.live then ProgramBytes(start.flash, address, [data[0]]) else start.flash)
    requires StoppedAt(nvm, cfg, s1, address + 1, data[1..], d, mid, check, step, r)
    ensures StoppedAt(nvm, cfg, start, address, data, 1 + d, mid, check, step, r)
  {
    assert data[..1] == [data[0]];
    if nvm.live && 0 < d {
      assert data[1..][..d] == data[1..1 + d];
      ProgramBytesConcat(start.flash, address, data, 1, 1 + d);
    }
  }

  /**
   * The part of `writeBytes` from the even address on: the whole words with
   * `writeWords`, then the byte left over, if any, with `writeByte` at the
   * last address of the run. An empty remainder writes nothing and is Ok.
   * `d` and `mid` are where the failing step starts, as in WriteBytes.
   */
  method WriteWordsThenByte(cfg: Config, fuses: Fuses, nvm: NvmCtrl, tAddress: nat, data: seq<bv8>)
    returns (r: Outcome, ghost d: nat, ghost mid: Snap)
    requires |nvm.flash| == Progmem(cfg) && cfg.ramSize <= 0x8000
    requires |data| < 0x10000
    modifies nvm
    ensures |nvm.flash| == |old(nvm.flash)|
    ensures |data| == 0 ==> r == Ok && unchanged(nvm)
    ensures r == Ok && nvm.live && 0 < |data| ==>
      tAddress + |data| <= |old(nvm.flash)| && nvm.flash == ProgramBytes(old(nvm.flash), tAddress, data)
    ensures r == Ok ==> d == |data|
    ensures !nvm.live ==> nvm.flash == old(nvm.flash)
    ensures d <= |data| && (0 < d ==> tAddress + d <= |old(nvm.flash)|)
    ensures r != Ok ==>
      d < |data| &&
      StoppedAt(nvm, cfg, old(SnapOf(nvm)), tAddress, data, d, mid, TailStepCheck(cfg, fuses, tAddress, |data|, d),
                TailStep(tAddress, data, d), r)
  {
    r, d, mid := Ok, 0, SnapOf(nvm);
    if |data| == 0 {
      return;
    }
    var n := |data| / 2;
    if n > 0 {
      r := WholeWords(cfg, fuses, nvm, tAddress, data, n);
      if r != Ok {
        return;
      }
    }
    r, d, mid := TrailingByte(cfg, fuses, nvm, tAddress, data, n, old(SnapOf(nvm)));
  }

  /**
   * The byte left over after the whole words of `writeBytes`'s even part,
   * stated against the state `start` before the words.
   */
  method TrailingByte(cfg: Config, fuses: Fuses, nvm: NvmCtrl, tAddress: nat, data: seq<bv8>, n: nat, ghost start: Snap)
    returns (r: Outcome, ghost d: nat, ghost mid: Snap)
    requires |nvm.flash| == Progmem(cfg) && |nvm.flash| == |start.flash|
    requires 0 < |data| < 0x10000 && n == |data| / 2
    requires n == 0 ==> SnapOf(nvm) == start
    requires n > 0 ==>
      tAddress + 2 * n <= |start.flash| &&
      nvm.flash == (if nvm.live then ProgramBytes(start.flash, tAddress, data[..2 * n]) else start.flash)
    modifies nvm
    ensures |nvm.flash| == |start.flash|
    ensures r == Ok && nvm.live ==>
      tAddress + |data| <= |start.flash| && nvm.flash == ProgramBytes(start.flash, tAddress, data)
    ensures r == Ok ==> d == |data|
    ensures !nvm.live ==> nvm.flash == start.flash
    ensures d <= |data| && (0 < d ==> tAddress + d <= |start.flash|)
    ensures r != Ok ==>
      d < |data| &&
      StoppedAt(nvm, cfg, start, tAddress, data, d, mid, TailStepCheck(cfg, fuses, tAddress, |data|, d),
                TailStep(tAddress, data, d), r)
  {
    r, d, mid := Ok, |data|, SnapOf(nvm);
    ghost var f2 := nvm.flash;
    if 2 * n < |data| {
      d := 2 * n;
      r := SingleByte(cfg, fuses, nvm, tAddress + |data| - 1, data[|data| - 1]);
      if r != Ok {
        return;
      }
      d := |data|;
    }
    if nvm.live {
      WordsThenByte(start.flash, f2, nvm.flash, tAddress, data, n);
    }
  }

  /** The `writeWords` call of `writeBytes`: its check's refusal, or the step it runs. */
  method WholeWords(cfg: Config, fuses: Fuses, nvm: NvmCtrl, address: nat, data: seq<bv8>, n: nat) returns (r: Outcome)
    requires |nvm.flash| == Progmem(cfg) && cfg.ramSize <= 0x8000
    requires 0 < n < 0x10000 && 2 * n <= |data|
    modifies nvm
    ensures |nvm.flash| == |old(nvm.flash)|
    ensures r == Ok ==> address + 2 * n <= |old(nvm.flash)|
    ensures r == Ok && nvm.live ==> nvm.flash == ProgramBytes(old(nvm.flash), address, data[..2 * n])
    ensures !nvm.live ==> nvm.flash == old(nvm.flash)
    ensures WordsCheck(cfg, fuses, address, n) != Ok ==> r == WordsCheck(cfg, fuses, address, n) && nvm.flash == old(nvm.flash)
    ensures WordsCheck(cfg, fuses, address, n) == Ok ==> StepFrom(nvm, cfg, old(SnapOf(nvm)), WordsAt(address, data, n), r)
  {
    r := WriteWords(cfg, fuses, nvm, address, data, n);
  }

  /** A `writeByte` call of `writeBytes` (the leading or the last byte): its check's refusal, or the step it runs. */
  method SingleByte(cfg: Config, fuses: Fuses, nvm: NvmCtrl, address: nat, data: bv8) returns (r: Outcome)
    requires |nvm.flash| == Progmem(cfg)
    modifies nvm
    ensures |nvm.flash| == |old(nvm.flash)|
    ensures r == Ok ==> address + 2 <= |old(nvm.flash)|
    ensures r == Ok && nvm.live ==> nvm.flash == ProgramBytes(old(nvm.flash), address, [data])
    ensures !nvm.live ==> nvm.flash == old(nvm.flash)
    ensures ByteCheck(cfg, fuses, address) != Ok ==> r == ByteCheck(cfg, fuses, address) && nvm.flash == old(nvm.flash)
    ensures ByteCheck(cfg, fuses, address) == Ok ==> StepFrom(nvm, cfg, old(SnapOf(nvm)), ByteAt(address, data), r)
  {
    r := WriteByte(cfg, fuses, nvm, address, data);
  }
}
