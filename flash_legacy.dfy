// The older Flash library (libraries/Flash): the same controller sequences
// as the current one, reached only through Optiboot's `spm z+` at 0x1FA,
// with a simpler `checkWritable`, a different order of checks in
// `erasePage`, no page reserved for the core, and SPM_NOT_USED where the
// current `writeWord` answers NOT_WRITTEN.
//
// Its `writeByte`, `writeWords` and `writeBytes` are the current library's
// under `AsConfig`: Optiboot, nothing reserved for the core.

module FlashLegacy {
  import opened FlashNvm
  import Flash

  /** The build options of the older library: whether USING_OPTIBOOT is set, flash and RAM size. */
  datatype LegacyConfig = LegacyConfig(optiboot: bool, size: FlashSize, ramSize: nat)

  /** The current library's options that compile to the same write code: Optiboot, no core reserve. */
  function AsConfig(lc: LegacyConfig): (cfg: Flash.Config)
    ensures cfg.mode == Flash.Optiboot && !cfg.coreReserved
    ensures Flash.Progmem(cfg) == Bytes(lc.size) && cfg.ramSize == lc.ramSize
  {
    Flash.Config(Flash.Optiboot, false, lc.size, lc.ramSize)
  }

  /** The fuses as the older library sees them: BOOTSIZE only. */
  function AsFuses(bootsize: bv8): Flash.Fuses
  {
    Flash.Fuses(bootsize, 0)
  }

  // ---------------------------------------------------------------------
  // checkWritable

  /**
   * The older `checkWritable`. Without Optiboot the word at 0x0004 is
   * looked at only to tell NOBOOT from not-yet-implemented; with it,
   * BOOTSIZE must be 1, the bootloader version at 0x1FE must be 0x1901
   * (0x0901 is OLD), and 0x1FA must hold `spm z+` (0 there is DISABLED).
   */
  function Writable(lc: LegacyConfig, bootsize: bv8, flash: seq<bv8>): Outcome
  {
    if !lc.optiboot then
      if Flash.WordIs(flash, 0x0004, 0xFF, 0x95) then NotImplemented else NoBoot
    else if bootsize != 1 then NoBoot
    else if Flash.WordIs(flash, 0x1FE, 0x01, 0x09) then Old
    else if !Flash.WordIs(flash, 0x1FE, 0x01, 0x19) then Unrecognized
    else if Flash.WordIs(flash, 0x1FA, 0, 0) then Disabled
    else if Flash.IsSpmWord(flash, 0x1FA) then Ok
    else Unrecognized
  }

  /**
   * Writing is allowed only under Optiboot, with a one-page boot section,
   * bootloader version 0x1901 and `spm z+` at its entry point; without
   * Optiboot the answer is never OK.
   */
  lemma WritableOk(lc: LegacyConfig, bootsize: bv8, flash: seq<bv8>)
    ensures Writable(lc, bootsize, flash) == Ok <==>
      lc.optiboot && bootsize == 1 && Flash.WordIs(flash, 0x1FE, 0x01, 0x19) && Flash.IsSpmWord(flash, 0x1FA)
    ensures !lc.optiboot ==> Writable(lc, bootsize, flash) in {NotImplemented, NoBoot}
  {
  }

  /**
   * Under Optiboot the older and the current `checkWritable` give the same
   * answer exactly when BOOTSIZE is 0 or 1; for a larger BOOTSIZE the older
   * one says NOBOOT and the current one UNRECOGNIZED.
   */
  lemma WritableAgrees(lc: LegacyConfig, bootsize: bv8, flash: seq<bv8>)
    requires lc.optiboot
    ensures Writable(lc, bootsize, flash) == Flash.Writable(AsConfig(lc), AsFuses(bootsize), flash) <==> bootsize <= 1
    ensures bootsize > 1 ==>
      Writable(lc, bootsize, flash) == NoBoot && Flash.Writable(AsConfig(lc), AsFuses(bootsize), flash) == Unrecognized
  {
  }

  // ---------------------------------------------------------------------
  // erasePage

  /** The checks of the older `erasePage`: the fuse, then the size, then the address against the flash and the boot section. */
  function EraseCheck(lc: LegacyConfig, bootsize: bv8, address: nat, size: bv8): Outcome
  {
    if bootsize != 1 then NoBoot
    else
      match EraseTable(size)
      case None => BadSize
      case Some(entry) =>
        if address > Bytes(lc.size) - 1 || address < entry.1 then BadAddr
        else Ok
  }

  /**
   * The older checks pass exactly the erases the current ones pass with no
   * core reserve; the two answers differ only for an address past the flash
   * with a size not in the table (BADSIZE here, BADADDR there).
   */
  lemma EraseCheckAgrees(lc: LegacyConfig, bootsize: bv8, address: nat, size: bv8)
    ensures EraseCheck(lc, bootsize, address, size) == Ok <==>
      Flash.EraseCheck(AsConfig(lc), AsFuses(bootsize), address, size) == Ok
    ensures EraseCheck(lc, bootsize, address, size) != Flash.EraseCheck(AsConfig(lc), AsFuses(bootsize), address, size) <==>
      bootsize == 1 && address >= Bytes(lc.size) && EraseTable(size).None?
  {
  }

  /** Which erases the older library lets through: BOOTSIZE 1, a size in the table, an address past the boot section inside the flash. */
  lemma EraseCheckOk(lc: LegacyConfig, bootsize: bv8, address: nat, size: bv8)
    ensures EraseCheck(lc, bootsize, address, size) == Ok <==>
      bootsize == 1 && EraseTable(size).Some? && PAGE * size as nat <= address < Bytes(lc.size)
  {
  }

  /** The older `erasePage`: its checks, then one erase SPM at the address and the checks on STATUS and ADDR. */
  method ErasePage(lc: LegacyConfig, bootsize: bv8, nvm: NvmCtrl, address: nat, size: bv8) returns (r: Outcome)
    modifies nvm
    ensures EraseCheck(lc, bootsize, address, size) != Ok ==>
      r == EraseCheck(lc, bootsize, address, size) && unchanged(nvm)
    ensures EraseCheck(lc, bootsize, address, size) == Ok ==>
      Flash.SpmIssued(nvm, AsConfig(lc), PageErase(size as nat), address, 0xFF, 0xFF, address + 1, SpmNotUsed, r)
    ensures r == Ok && nvm.live ==> nvm.flash == EraseBlock(old(nvm.flash), address, size as nat)
  {
    r := EraseCheck(lc, bootsize, address, size);
    if r != Ok {
      return;
    }
    var command := EraseTable(size).value.0;
    ghost var faults := nvm.faults;
    ghost var status := nvm.status;
    r := Flash.IssueSpm(AsConfig(lc), nvm, address, command, address, 0xFF, 0xFF, address + 1, SpmNotUsed);
    if r == Ok && nvm.live {
      CleanStatusNoFault(status, NextFault(faults));
    }
  }

  // ---------------------------------------------------------------------
  // writeWord

  /**
   * The older `writeWord`: the current checks (BOOTSIZE, the address range,
   * alignment), one FLWR SPM of the word at the address, and SPM_NOT_USED
   * when ADDR is not left at the word's high byte.
   */
  method WriteWord(lc: LegacyConfig, bootsize: bv8, nvm: NvmCtrl, address: nat, data: bv16) returns (r: Outcome)
    requires |nvm.flash| == Bytes(lc.size)
    modifies nvm
    ensures Flash.WordCheck(AsConfig(lc), AsFuses(bootsize), address) != Ok ==>
      r == Flash.WordCheck(AsConfig(lc), AsFuses(bootsize), address) && unchanged(nvm)
    ensures Flash.WordCheck(AsConfig(lc), AsFuses(bootsize), address) == Ok ==>
      Flash.SpmIssued(nvm, AsConfig(lc), FlashWrite, address, LowByte(data), HighByte(data), address + 1, SpmNotUsed, r)
    ensures r == Ok && nvm.live ==>
      nvm.flash == ProgramBytes(old(nvm.flash), address, [LowByte(data), HighByte(data)])
  {
    var cfg := AsConfig(lc);
    r := Flash.WordCheck(cfg, AsFuses(bootsize), address);
    if r != Ok {
      return;
    }
    Flash.WordCheckOk(cfg, AsFuses(bootsize), address);
    ghost var faults := nvm.faults;
    ghost var status := nvm.status;
    ghost var flash := nvm.flash;
    r := Flash.IssueSpm(cfg, nvm, address, FlashWrite, address, LowByte(data), HighByte(data), address + 1, SpmNotUsed);
    if r == Ok && nvm.live {
      CleanStatusNoFault(status, NextFault(faults));
      var bytes := [LowByte(data), HighByte(data)];
      assert WordSteps(address, bytes, 1) == [SpmWrite(address, LowByte(data), HighByte(data))];
      WordStepsProgram(flash, address, bytes, 1);
      assert bytes[..2] == bytes;
    }
  }

  // ---------------------------------------------------------------------
  // writeByte, writeWords, writeBytes

  /**
   * The older `writeByte` checks BOOTSIZE and the address range only; with
   * no core reserve that is the current `ByteCheck`, so its write is
   * `Flash.WriteByte` under `AsConfig`.
   */
  lemma ByteCheckIsOlder(lc: LegacyConfig, bootsize: bv8, address: nat)
    ensures Flash.ByteCheck(AsConfig(lc), AsFuses(bootsize), address) ==
      if bootsize != 1 then NoBoot
      else if address > Bytes(lc.size) - 2 || address < 512 then BadAddr
      else Ok
  {
  }

  /**
   * The older `writeWords` checks, in order: zero length, BOOTSIZE, the
   * address range, alignment, then the run against the flash end and RAMSIZE;
   * that is the current `WordsCheck` under `AsConfig`, so its write is
   * `Flash.WriteWords`.
   */
  lemma WordsCheckIsOlder(lc: LegacyConfig, bootsize: bv8, address: nat, length: nat)
    ensures Flash.WordsCheck(AsConfig(lc), AsFuses(bootsize), address, length) ==
      if length == 0 then ZeroLength
      else if bootsize != 1 then NoBoot
      else if address > Bytes(lc.size) - 2 || address < 512 then BadAddr
      else if address % 2 == 1 then Align
      else if address + (2 * length) % 0x10000 > Bytes(lc.size) || length >= lc.ramSize then TooBig
      else Ok
  {
  }
}
