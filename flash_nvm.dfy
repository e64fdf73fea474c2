// What the two copies of the Flash library share: the return codes, the
// erase-size table, the 0xFF-padded word `writeByte` builds, the byte layout
// `writeBytes` is meant to produce, the mapping between flash addresses and
// pointers into the mapped-flash window, and the NVM controller the
// self-programming calls drive.
//
// The controller is modelled with an oracle for the SPM instruction: when an
// SPM entry point answers (`live`), each SPM takes the error bits it raises
// from a queue of faults, ORs them into STATUS, leaves ADDR at the last byte
// it addressed (z + 1) and, when it raised no error, erases or programs the
// flash image; when no entry point answers, an SPM changes nothing.

module FlashNvm {

  /** The return codes of the library (FLASHWRITE_*). */
  datatype Outcome =
    | Ok
    | NoBootSize | CfgMismatch | BogusEntry | NoEntry
    | NoBoot | Old | Disabled | Unrecognized | NotImplemented
    | SpmNotUsed | NotWritten | ReservedByCore
    | BadAddr | BadSize | Align | TooBig | ZeroLength
    /** FLASHWRITE_FAIL with the controller's error code (1..7) in its low bits. */
    | Fail(error: bv8)

  datatype Option<T> = None | Some(value: T)

  /** The ERROR field of NVMCTRL.STATUS. */
  const STATUS_ERROR: bv8 := 0x70
  /** Flash page size in bytes. */
  const PAGE: nat := 512
  /** The two bytes of the `spm z+` opcode (0x95F8) as they lie in flash. */
  const SPM_ZPLUS_LO: bv8 := 0xF8
  const SPM_ZPLUS_HI: bv8 := 0x95

  /** The NVMCTRL commands the library issues: NONE, FLWR and FLPER / FLMPERn (`pages` pages). */
  datatype NvmCommand = CmdNone | FlashWrite | PageErase(pages: nat)

  /**
   * The erase-size table: sizes 1, 2, 4, 8, 16 and 32 pages select FLPER or
   * FLMPERn, and the lowest address an erase of that size may start at is
   * 0x200 shifted left by log2(size); any other size is refused.
   */
  function EraseTable(size: bv8): (r: Option<(NvmCommand, nat)>)
    ensures r.Some? <==> size == 1 || size == 2 || size == 4 || size == 8 || size == 16 || size == 32
    ensures r.Some? ==> r.value.0 == PageErase(size as nat) && r.value.1 == PAGE * size as nat
  {
    if size == 1 then Some((PageErase(1), 0x200))
    else if size == 2 then Some((PageErase(2), 0x200 * 2))
    else if size == 4 then Some((PageErase(4), 0x200 * 4))
    else if size == 8 then Some((PageErase(8), 0x200 * 8))
    else if size == 16 then Some((PageErase(16), 0x200 * 16))
    else if size == 32 then Some((PageErase(32), 0x200 * 32))
    else None
  }

  /** The low byte of a 16-bit word, the one SPM takes from r0. */
  function LowByte(w: bv16): bv8
  {
    (w & 0xFF) as bv8
  }

  /** The high byte of a 16-bit word, the one SPM takes from r1. */
  function HighByte(w: bv16): bv8
  {
    (w >> 8) as bv8
  }

  /** The low byte (r0) of the word `writeByte` hands to SPM: the data byte for an even address, else 0xFF. */
  function ByteLo(address: nat, data: bv8): bv8
  {
    if address % 2 == 1 then 0xFF else data
  }

  /** The high byte (r1): the data byte for an odd address, else 0xFF. */
  function ByteHi(address: nat, data: bv8): bv8
  {
    if address % 2 == 1 then data else 0xFF
  }

  /** The word `writeByte` builds: `0x00FF | data << 8` for an odd address, `0xFF00 | data` for an even one. */
  function DataWord(address: nat, data: bv8): bv16
  {
    if address % 2 == 1 then 0x00FF | ((data as bv16) << 8) else 0xFF00 | (data as bv16)
  }

  /** The bytes of the word `writeByte` builds are ByteLo and ByteHi. */
  lemma ByteWordBytes(address: nat, data: bv8)
    ensures LowByte(DataWord(address, data)) == ByteLo(address, data)
    ensures HighByte(DataWord(address, data)) == ByteHi(address, data)
  {
  }

  /** Programming a byte can only clear bits: the cell becomes the AND of its old value and the data. */
  function Clear(cell: bv8, data: bv8): (r: bv8)
  {
    cell & data
  }

  /** The first address of the `pages`-page block holding `z`. */
  function BlockStart(z: nat, pages: nat): (s: nat)
    requires pages > 0
    ensures s <= z < s + PAGE * pages
  {
    DivBounds(z, PAGE * pages);
    (z / (PAGE * pages)) * (PAGE * pages)
  }

  lemma DivBounds(z: nat, b: nat)
    requires b > 0
    ensures (z / b) * b <= z < (z / b) * b + b
  {
  }

  lemma MulMono(k: nat, m: nat, b: nat)
    requires k < m
    ensures k * b + b <= m * b
  {
    var j := m - k;
    assert m * b == k * b + j * b by {
      assert m == k + j;
    }
    MulAtLeast(j, b);
  }

  lemma {:induction false} MulAtLeast(j: nat, b: nat)
    requires j >= 1
    ensures j * b >= b
  {
    if j > 1 {
      MulAtLeast(j - 1, b);
      assert j * b == (j - 1) * b + b;
    }
  }

  /** Erasing the `pages`-page block holding `z`: every byte of it reads 0xFF. */
  function EraseBlock(flash: seq<bv8>, z: nat, pages: nat): (r: seq<bv8>)
    requires pages > 0
    ensures |r| == |flash|
  {
    var s := BlockStart(z, pages);
    seq(|flash|, i requires 0 <= i < |flash| => if s <= i < s + PAGE * pages then 0xFF else flash[i])
  }

  /**
   * An erase that starts at or above `PAGE * pages` and below the last
   * `pages` pages of a flash made of whole blocks touches neither the first
   * page (the boot section) nor the last page (kept for the core).
   */
  lemma EraseBlockSpares(flash: seq<bv8>, z: nat, pages: nat)
    requires pages > 0
    requires |flash| % (PAGE * pages) == 0
    requires PAGE * pages <= z < |flash| - PAGE * pages
    ensures EraseBlock(flash, z, pages)[..PAGE] == flash[..PAGE]
    ensures EraseBlock(flash, z, pages)[|flash| - PAGE..] == flash[|flash| - PAGE..]
  {
    BlockInside(z, PAGE * pages, |flash|);
    var s := BlockStart(z, pages);
    assert PAGE <= PAGE * pages;
    var r := EraseBlock(flash, z, pages);
    assert forall i :: 0 <= i < PAGE ==> r[i] == flash[i];
    assert forall i :: |flash| - PAGE <= i < |flash| ==> r[i] == flash[i];
  }

  /** The block holding an address between the first and the last block lies strictly between them. */
  lemma BlockInside(z: nat, b: nat, size: nat)
    requires b > 0 && size % b == 0
    requires b <= z < size - b
    ensures b <= (z / b) * b && (z / b) * b + b <= size - b
  {
    var k := z / b;
    var m := size / b;
    DivBounds(z, b);
    DivBounds(size, b);
    assert size == m * b;
    assert k * b > 0;
    assert k >= 1;
    MulMono(0, k, b);
    if k >= m - 1 {
      MulMono(m - 2, k, b);
    } else {
      MulMono(k, m - 1, b);
      assert (m - 1) * b == size - b;
    }
  }

  /** The flash after the bytes `data` are programmed from `address` on. */
  function ProgramBytes(flash: seq<bv8>, address: nat, data: seq<bv8>): (r: seq<bv8>)
    requires address + |data| <= |flash|
    ensures |r| == |flash|
  {
    seq(|flash|, i => ProgrammedCell(flash, address, data, i))
  }

  /** Cell `i` after programming: ANDed with its data byte inside the run, kept outside it (0 off the flash). */
  function ProgrammedCell(flash: seq<bv8>, address: nat, data: seq<bv8>, i: int): bv8
  {
    if 0 <= i < |flash| then
      if address <= i < address + |data| then Clear(flash[i], data[i - address]) else flash[i]
    else 0
  }

  /** One SPM word write: the word address and the bytes in r0 and r1. */
  datatype SpmWrite = SpmWrite(z: nat, lo: bv8, hi: bv8)

  /** Cell `i` after the word writes of `plan`, in order (a write off the flash changes nothing). */
  function CellAfter(flash: seq<bv8>, plan: seq<SpmWrite>, i: int): bv8
    decreases |plan|
  {
    if |plan| == 0 then (if 0 <= i < |flash| then flash[i] else 0)
    else
      var w := plan[|plan| - 1];
      var before := CellAfter(flash, plan[..|plan| - 1], i);
      if i == w.z then Clear(before, w.lo)
      else if i == w.z + 1 then Clear(before, w.hi)
      else before
  }

  /** The flash after the word writes of `plan`, in order. */
  function Apply(flash: seq<bv8>, plan: seq<SpmWrite>): (r: seq<bv8>)
    ensures |r| == |flash|
  {
    seq(|flash|, i => CellAfter(flash, plan, i))
  }

  /** Cell by cell, a plan followed by more writes is the more writes on the flash the plan left. */
  lemma {:induction false} CellAfterAppend(flash: seq<bv8>, p: seq<SpmWrite>, q: seq<SpmWrite>, i: int)
    requires 0 <= i < |flash|
    ensures CellAfter(flash, p + q, i) == CellAfter(Apply(flash, p), q, i)
    decreases |q|
  {
    if |q| == 0 {
      assert p + q == p;
    } else {
      var k := |q| - 1;
      assert (p + q)[..|p + q| - 1] == p + q[..k];
      assert (p + q)[|p + q| - 1] == q[k];
      CellAfterAppend(flash, p, q[..k], i);
    }
  }

  /** Appending word writes to a plan applies them after it. */
  lemma ApplyAppend(flash: seq<bv8>, p: seq<SpmWrite>, q: seq<SpmWrite>)
    ensures Apply(flash, p + q) == Apply(Apply(flash, p), q)
  {
    var l := Apply(flash, p + q);
    var r := Apply(Apply(flash, p), q);
    forall i | 0 <= i < |flash|
      ensures l[i] == r[i]
    {
      CellAfterAppend(flash, p, q, i);
    }
  }

  /** The word write `writeByte` makes for one byte. */
  function ByteStep(address: nat, data: bv8): SpmWrite
  {
    SpmWrite(address - address % 2, ByteLo(address, data), ByteHi(address, data))
  }

  /** Cell by cell, a single word write ANDs its two bytes into the two cells of its word. */
  lemma CellAfterOne(flash: seq<bv8>, w: SpmWrite, i: int)
    ensures var cell := if 0 <= i < |flash| then flash[i] else 0;
      CellAfter(flash, [w], i) == (if i == w.z then Clear(cell, w.lo) else if i == w.z + 1 then Clear(cell, w.hi) else cell)
  {
    assert [w][..0] == [];
  }

  /** Cell by cell, the word write of one byte programs that byte and no other. */
  lemma ByteStepCell(flash: seq<bv8>, address: nat, data: bv8, i: int)
    ensures CellAfter(flash, [ByteStep(address, data)], i) == ProgrammedCell(flash, address, [data], i)
  {
    var w := ByteStep(address, data);
    CellAfterOne(flash, w, i);
    var cell := if 0 <= i < |flash| then flash[i] else 0;
    if address % 2 == 1 {
      assert w == SpmWrite(address - 1, 0xFF, data);
      ByteWriteCell(flash, address - 1, 0xFF, data, address, data, i);
    } else {
      assert w == SpmWrite(address, data, 0xFF);
      ByteWriteCell(flash, address, data, 0xFF, address, data, i);
    }
  }

  /** Cell by cell, a word write whose other half is 0xFF programs the byte at `address` and no other. */
  lemma ByteWriteCell(flash: seq<bv8>, z: nat, lo: bv8, hi: bv8, address: nat, data: bv8, i: int)
    requires (address == z && lo == data && hi == 0xFF) || (address == z + 1 && lo == 0xFF && hi == data)
    ensures CellAfter(flash, [SpmWrite(z, lo, hi)], i) == ProgrammedCell(flash, address, [data], i)
  {
    CellAfterOne(flash, SpmWrite(z, lo, hi), i);
    var cell := if 0 <= i < |flash| then flash[i] else 0;
    if i != address && (i == z || i == z + 1) {
      ClearOnes(cell);
    }
  }

  /** Programming 0xFF leaves a cell as it was. */
  lemma ClearOnes(cell: bv8)
    ensures Clear(cell, 0xFF) == cell
  {
  }

  /** The word write of a single byte, applied on its own, programs that byte. */
  lemma ByteStepProgram(flash: seq<bv8>, address: nat, data: bv8)
    requires address < |flash|
    ensures Apply(flash, [ByteStep(address, data)]) == ProgramBytes(flash, address, [data])
  {
    var l := Apply(flash, [ByteStep(address, data)]);
    var r := ProgramBytes(flash, address, [data]);
    forall i | 0 <= i < |flash|
      ensures l[i] == r[i]
    {
      ByteStepCell(flash, address, data, i);
    }
  }

  /** The `n` word writes `writeWords` makes from `z` on, taking the words from `bytes` two bytes at a time. */
  function WordSteps(z: nat, bytes: seq<bv8>, n: nat): (plan: seq<SpmWrite>)
    requires 2 * n <= |bytes|
    ensures |plan| == n
  {
    if n == 0 then [] else WordSteps(z, bytes, n - 1) + [SpmWrite(z + 2 * (n - 1), bytes[2 * (n - 1)], bytes[2 * (n - 1) + 1])]
  }

  /** Cell by cell, `n` word writes from `z` on program the first `2n` bytes there. */
  lemma {:induction false} WordStepsCell(flash: seq<bv8>, z: nat, bytes: seq<bv8>, n: nat, i: int)
    requires 2 * n <= |bytes|
    ensures CellAfter(flash, WordSteps(z, bytes, n), i) == ProgrammedCell(flash, z, bytes[..2 * n], i)
    decreases n
  {
    if n > 0 {
      var plan := WordSteps(z, bytes, n);
      var k := 2 * (n - 1);
      assert plan[..n - 1] == WordSteps(z, bytes, n - 1);
      assert plan[n - 1] == SpmWrite(z + k, bytes[k], bytes[k + 1]);
      var before := CellAfter(flash, WordSteps(z, bytes, n - 1), i);
      assert before == ProgrammedCell(flash, z, bytes[..k], i) by {
        WordStepsCell(flash, z, bytes, n - 1, i);
      }
      if i == z + k {
        assert CellAfter(flash, plan, i) == Clear(before, bytes[k]);
      } else if i == z + k + 1 {
        assert CellAfter(flash, plan, i) == Clear(before, bytes[k + 1]);
      } else {
        assert CellAfter(flash, plan, i) == before;
        if z <= i < z + k {
          assert bytes[..k][i - z] == bytes[..2 * n][i - z];
        }
      }
    }
  }

  /** Word writes from `z` on program exactly the bytes they carry. */
  lemma WordStepsProgram(flash: seq<bv8>, z: nat, bytes: seq<bv8>, n: nat)
    requires 2 * n <= |bytes| && z + 2 * n <= |flash|
    ensures Apply(flash, WordSteps(z, bytes, n)) == ProgramBytes(flash, z, bytes[..2 * n])
  {
    var l := Apply(flash, WordSteps(z, bytes, n));
    var r := ProgramBytes(flash, z, bytes[..2 * n]);
    forall i | 0 <= i < |flash|
      ensures l[i] == r[i]
    {
      WordStepsCell(flash, z, bytes, n, i);
    }
  }

  /**
   * The word writes `writeBytes` makes as written, when every call it makes
   * is accepted and succeeds: a leading byte for an odd address, then the
   * words, then a trailing byte. The data pointer is not advanced past the
   * leading byte, and the trailing byte goes two below the end instead of
   * one.
   */
  function BytesPlanAsWritten(address: nat, data: seq<bv8>): seq<SpmWrite>
    requires 0 < |data| && 2 <= address
  {
    var odd := address % 2 == 1;
    var lead := if odd then [ByteStep(address, data[0])] else [];
    var t := if odd then address + 1 else address;
    var len := if odd then |data| - 1 else |data|;
    var words := if len > 1 then WordSteps(t, data, len / 2) else [];
    var trail := if len % 2 == 1 then [ByteStep(t + len - 2, data[len - 1])] else [];
    lead + words + trail
  }

  /**
   * Writing three bytes at an even address leaves the third one erased: the
   * trailing byte lands on the second.
   */
  lemma BytesPlanAsWrittenMisplacesEven(flash: seq<bv8>)
    requires |flash| >= 0x1004 && flash[0x1002] == 0xFF
    ensures Apply(flash, BytesPlanAsWritten(0x1000, [1, 2, 3]))[0x1002] == 0xFF
    ensures ProgramBytes(flash, 0x1000, [1, 2, 3])[0x1002] == 3
  {
    var plan := BytesPlanAsWritten(0x1000, [1, 2, 3]);
    assert plan == [SpmWrite(0x1000, 1, 2), SpmWrite(0x1000, 0xFF, 3)];
    assert plan[..1] == [SpmWrite(0x1000, 1, 2)];
    assert plan[..1][..0] == [];
    assert CellAfter(flash, plan[..1], 0x1002) == 0xFF;
    assert CellAfter(flash, plan, 0x1002) == 0xFF;
    assert Apply(flash, plan)[0x1002] == CellAfter(flash, plan, 0x1002);
    assert ProgramBytes(flash, 0x1000, [1, 2, 3])[0x1002] == ProgrammedCell(flash, 0x1000, [1, 2, 3], 0x1002);
    assert Clear(0xFF, 3) == 3;
  }

  /**
   * Writing three bytes at an odd address puts the first byte twice and
   * drops the last.
   */
  lemma BytesPlanAsWrittenMisplacesOdd(flash: seq<bv8>)
    requires |flash| >= 0x1004 && flash[0x1002] == 0xFF
    ensures Apply(flash, BytesPlanAsWritten(0x1001, [1, 2, 3]))[0x1002] == 1
    ensures ProgramBytes(flash, 0x1001, [1, 2, 3])[0x1002] == 2
  {
    var plan := BytesPlanAsWritten(0x1001, [1, 2, 3]);
    assert plan == [SpmWrite(0x1000, 0xFF, 1), SpmWrite(0x1002, 1, 2)];
    assert plan[..1] == [SpmWrite(0x1000, 0xFF, 1)];
    assert plan[..1][..0] == [];
    assert CellAfter(flash, plan[..1], 0x1002) == 0xFF;
    assert CellAfter(flash, plan, 0x1002) == Clear(0xFF, 1);
    assert Apply(flash, plan)[0x1002] == CellAfter(flash, plan, 0x1002);
    assert ProgramBytes(flash, 0x1001, [1, 2, 3])[0x1002] == ProgrammedCell(flash, 0x1001, [1, 2, 3], 0x1002);
    assert Clear(0xFF, 1) == 1 && Clear(0xFF, 2) == 2;
  }

  /** How many bytes go before the words: one for an odd address. */
  function Lead(address: nat): nat
  {
    if address % 2 == 1 then 1 else 0
  }

  /** The word write for the leading byte of an odd address, if any. */
  function LeadSteps(address: nat, data: seq<bv8>): seq<SpmWrite>
    requires 0 < |data|
  {
    if address % 2 == 1 then [ByteStep(address, data[0])] else []
  }

  /** The whole words after the leading byte. */
  function WordCount(address: nat, data: seq<bv8>): (n: nat)
    requires Lead(address) <= |data|
    ensures Lead(address) + 2 * n <= |data| <= Lead(address) + 2 * n + 1
  {
    (|data| - Lead(address)) / 2
  }

  /** The word write for a last byte left over after the words, if any. */
  function TrailSteps(address: nat, data: seq<bv8>): seq<SpmWrite>
    requires 0 < |data|
  {
    if Lead(address) + 2 * WordCount(address, data) < |data| then [ByteStep(address + |data| - 1, data[|data| - 1])] else []
  }

  /**
   * The intended word writes: the leading byte, then the words from the
   * byte after it, then the last byte at its own address.
   */
  function BytesPlan(address: nat, data: seq<bv8>): seq<SpmWrite>
    requires 0 < |data|
  {
    var off := Lead(address);
    LeadSteps(address, data) + WordSteps(address + off, data[off..], WordCount(address, data)) + TrailSteps(address, data)
  }

  /** Programming no bytes leaves the flash as it was. */
  lemma ProgramNothing(flash: seq<bv8>, address: nat, data: seq<bv8>)
    requires |data| == 0 && address <= |flash|
    ensures ProgramBytes(flash, address, data) == flash
  {
    var r := ProgramBytes(flash, address, data);
    forall i | 0 <= i < |flash|
      ensures r[i] == flash[i]
    {
      assert r[i] == ProgrammedCell(flash, address, data, i);
    }
  }

  /** Programming a run and then the run right after it programs both runs. */
  lemma ProgramBytesConcat(flash: seq<bv8>, address: nat, data: seq<bv8>, j: nat, k: nat)
    requires j <= k <= |data| && address + k <= |flash|
    ensures ProgramBytes(ProgramBytes(flash, address, data[..j]), address + j, data[j..k]) == ProgramBytes(flash, address, data[..k])
  {
    var f := ProgramBytes(flash, address, data[..j]);
    var l := ProgramBytes(f, address + j, data[j..k]);
    var r := ProgramBytes(flash, address, data[..k]);
    forall i | 0 <= i < |flash|
      ensures l[i] == r[i]
    {
      assert l[i] == ProgrammedCell(f, address + j, data[j..k], i);
      assert f[i] == ProgrammedCell(flash, address, data[..j], i);
      assert r[i] == ProgrammedCell(flash, address, data[..k], i);
    }
  }

  /** Programming the bytes but the last, then the last on its own, programs them all. */
  lemma ProgramBytesLast(flash: seq<bv8>, address: nat, data: seq<bv8>)
    requires 0 < |data| && address + |data| <= |flash|
    ensures ProgramBytes(ProgramBytes(flash, address, data[..|data| - 1]), address + |data| - 1, [data[|data| - 1]])
      == ProgramBytes(flash, address, data)
  {
    var k := |data|;
    ProgramBytesConcat(flash, address, data, k - 1, k);
    assert data[k - 1..k] == [data[k - 1]];
    assert data[..k] == data;
  }

  /**
   * The words and then the byte left over compose: `f2` after the `n`
   * words from `address` (none when `n` is 0), `f3` after the last byte if
   * the run is odd, hold the whole run programmed.
   */
  lemma WordsThenByte(flash0: seq<bv8>, f2: seq<bv8>, f3: seq<bv8>, address: nat, data: seq<bv8>, n: nat)
    requires 2 * n <= |data| <= 2 * n + 1 && address + |data| <= |flash0|
    requires n == 0 ==> f2 == flash0
    requires n > 0 ==> f2 == ProgramBytes(flash0, address, data[..2 * n])
    requires 2 * n == |data| ==> f3 == f2
    requires 2 * n < |data| && |f2| == |flash0| ==> f3 == ProgramBytes(f2, address + |data| - 1, [data[|data| - 1]])
    ensures f3 == ProgramBytes(flash0, address, data)
  {
    if n == 0 {
      ProgramNothing(flash0, address, data[..0]);
    }
    assert f2 == ProgramBytes(flash0, address, data[..2 * n]);
    if 2 * n < |data| {
      ProgramBytesLast(flash0, address, data);
    } else {
      assert data[..2 * n] == data;
    }
  }

  /** A leading byte and then the rest of the run after it program the whole run. */
  lemma LeadThenRest(flash0: seq<bv8>, f1: seq<bv8>, f3: seq<bv8>, address: nat, data: seq<bv8>)
    requires 0 < |data| && address + |data| <= |flash0|
    requires f1 == ProgramBytes(flash0, address, [data[0]])
    requires |data| == 1 ==> f3 == f1
    requires 1 < |data| && |f1| == |flash0| ==> f3 == ProgramBytes(f1, address + 1, data[1..])
    ensures f3 == ProgramBytes(flash0, address, data)
  {
    if |data| == 1 {
      assert data == [data[0]];
      return;
    }
    ProgramBytesConcat(flash0, address, data, 1, |data|);
    assert data[..1] == [data[0]];
    assert data[1..|data|] == data[1..];
    assert data[..|data|] == data;
  }

  /** The leading byte write programs the data before the words. */
  lemma LeadPlaces(flash: seq<bv8>, address: nat, data: seq<bv8>)
    requires 0 < |data| && address + |data| <= |flash|
    ensures Apply(flash, LeadSteps(address, data)) == ProgramBytes(flash, address, data[..Lead(address)])
  {
    if address % 2 == 1 {
      assert data[..1] == [data[0]];
      ByteStepProgram(flash, address, data[0]);
    } else {
      ProgramNothing(flash, address, data[..0]);
      assert Apply(flash, []) == flash;
    }
  }

  /** `n` words after the first `off` bytes continue the programmed run. */
  lemma WordsPlace(flash: seq<bv8>, address: nat, data: seq<bv8>, off: nat, n: nat)
    requires off + 2 * n <= |data| && address + |data| <= |flash|
    ensures Apply(ProgramBytes(flash, address, data[..off]), WordSteps(address + off, data[off..], n))
         == ProgramBytes(flash, address, data[..off + 2 * n])
  {
    var rest := data[off..];
    var f1 := ProgramBytes(flash, address, data[..off]);
    WordStepsProgram(f1, address + off, rest, n);
    assert rest[..2 * n] == data[off..off + 2 * n];
    ProgramBytesConcat(flash, address, data, off, off + 2 * n);
  }

  /** The trailing byte write completes the run. */
  lemma TrailPlaces(flash: seq<bv8>, address: nat, data: seq<bv8>, m: nat)
    requires 0 < |data| && address + |data| <= |flash|
    requires m == Lead(address) + 2 * WordCount(address, data)
    ensures Apply(ProgramBytes(flash, address, data[..m]), TrailSteps(address, data)) == ProgramBytes(flash, address, data)
  {
    var f2 := ProgramBytes(flash, address, data[..m]);
    if m < |data| {
      var last := |data| - 1;
      assert m == last;
      assert TrailSteps(address, data) == [ByteStep(address + last, data[last])];
      ByteStepProgram(f2, address + last, data[last]);
      assert data[last..|data|] == [data[last]];
      ProgramBytesConcat(flash, address, data, last, |data|);
      assert data[..|data|] == data;
    } else {
      assert data[..m] == data;
      assert TrailSteps(address, data) == [];
      assert Apply(f2, []) == f2;
    }
  }

  /**
   * With the intended plan every byte of the data lands at its own address
   * and nothing else changes.
   */
  lemma BytesPlanPlaces(flash: seq<bv8>, address: nat, data: seq<bv8>)
    requires 0 < |data| && address + |data| <= |flash|
    ensures Apply(flash, BytesPlan(address, data)) == ProgramBytes(flash, address, data)
  {
    var off := Lead(address);
    var n := WordCount(address, data);
    var lead := LeadSteps(address, data);
    var words := WordSteps(address + off, data[off..], n);
    var trail := TrailSteps(address, data);
    var a := ProgramBytes(flash, address, data[..off]);
    var b := ProgramBytes(flash, address, data[..off + 2 * n]);
    assert Apply(flash, lead) == a by {
      LeadPlaces(flash, address, data);
    }
    assert Apply(a, words) == b by {
      WordsPlace(flash, address, data, off, n);
    }
    assert Apply(b, trail) == ProgramBytes(flash, address, data) by {
      TrailPlaces(flash, address, data, off + 2 * n);
    }
    ApplyAppend(flash, lead, words);
    ApplyAppend(flash, lead + words, trail);
  }

  /** The flash sizes the mapping code distinguishes. */
  datatype FlashSize = Flash32K | Flash64K | Flash128K

  function Bytes(size: FlashSize): nat
  {
    match size
    case Flash32K => 0x8000
    case Flash64K => 0x10000
    case Flash128K => 0x20000
  }

  /** Sets bit 15 of a 16-bit value: `0x8000 | x`. */
  function Bit15(x: nat): nat
    requires x < 0x10000
  {
    if x >= 0x8000 then x else x + 0x8000
  }

  const NULL: nat := 0

  /**
   * `mappedPointer` as written: an address above the flash gives NULL; on
   * 64 KB parts the address is mapped when `address > 0x8000` agrees with
   * FLMAP bit 0, on 128 KB parts when its 32 KB section equals FLMAP; all of
   * a 32 KB flash is mapped. A mapped address becomes `0x8000 | address`.
   */
  function MappedPointerAsWritten(size: FlashSize, flmap: nat, address: nat): (p: nat)
    requires flmap < 4
    ensures p == NULL || 0x8000 <= p < 0x10000
  {
    if address > Bytes(size) then NULL
    else
      match size
      case Flash64K => if (address > 0x8000) == (flmap % 2 == 1) then Bit15(address % 0x10000) else NULL
      case Flash128K => if address / 0x8000 == flmap then Bit15(address % 0x10000) else NULL
      case Flash32K => Bit15(address % 0x10000)
  }

  /**
   * `flashAddress`: a pointer below 0x8000 gives 0; otherwise the pointer's
   * offset into the window, plus the start of the mapped section.
   */
  function FlashAddress(size: FlashSize, flmap: nat, p: nat): (a: nat)
    requires flmap < 4 && p < 0x10000
    ensures p < 0x8000 ==> a == 0
    ensures p >= 0x8000 && size == Flash32K ==> a == p - 0x8000
    ensures p >= 0x8000 && size == Flash64K ==> a == p - 0x8000 + (flmap % 2) * 0x8000
    ensures p >= 0x8000 && size == Flash128K ==> a == p - 0x8000 + flmap * 0x8000
  {
    if p < 0x8000 then 0
    else
      match size
      case Flash64K => if flmap % 2 == 0 then p - 0x8000 else p
      case Flash128K =>
        var withHigh := if flmap >= 2 then p + 0x10000 else p;
        if flmap % 2 == 0 then withHigh - 0x8000 else withHigh
      case Flash32K => p % 0x8000
  }

  /**
   * On 128 KB parts the pair is a round trip: an address in the mapped
   * section comes back from its pointer, and every other address gets NULL.
   */
  lemma MappedRoundTrip128(flmap: nat, address: nat)
    requires flmap < 4 && address < 0x20000
    ensures address / 0x8000 == flmap ==>
      MappedPointerAsWritten(Flash128K, flmap, address) != NULL &&
      FlashAddress(Flash128K, flmap, MappedPointerAsWritten(Flash128K, flmap, address)) == address
    ensures address / 0x8000 != flmap ==> MappedPointerAsWritten(Flash128K, flmap, address) == NULL
  {
    if address / 0x8000 == flmap {
      var low := address % 0x10000;
      assert Bit15(low) == 0x8000 + address % 0x8000;
    }
  }

  /**
   * On 64 KB parts the first address of the upper section, 0x8000, is
   * refused while the upper section is mapped and, while the lower one is,
   * gets the pointer of address 0; on 32 KB parts the address one past the
   * end also gets the pointer of address 0.
   */
  lemma MappedPointerAsWrittenMisses()
    ensures MappedPointerAsWritten(Flash64K, 1, 0x8000) == NULL
    ensures FlashAddress(Flash64K, 0, MappedPointerAsWritten(Flash64K, 0, 0x8000)) == 0
    ensures FlashAddress(Flash32K, 0, MappedPointerAsWritten(Flash32K, 0, 0x8000)) == 0
  {
  }

  /** Whether `address` lies in the part of the flash the window shows. */
  predicate InWindow(size: FlashSize, flmap: nat, address: nat)
  {
    address < Bytes(size) &&
    match size
    case Flash32K => true
    case Flash64K => address / 0x8000 == flmap % 2
    case Flash128K => address / 0x8000 == flmap
  }

  /** The intended `mappedPointer`: only addresses inside the flash and inside the mapped section get a pointer. */
  function MappedPointer(size: FlashSize, flmap: nat, address: nat): (p: nat)
    requires flmap < 4
    ensures p == NULL || 0x8000 <= p < 0x10000
  {
    if address >= Bytes(size) then NULL
    else
      match size
      case Flash64K => if (address >= 0x8000) == (flmap % 2 == 1) then Bit15(address % 0x10000) else NULL
      case Flash128K => if address / 0x8000 == flmap then Bit15(address % 0x10000) else NULL
      case Flash32K => Bit15(address % 0x10000)
  }

  /** On every flash size, an address gets a pointer exactly when it is in the window, and its pointer leads back to it. */
  lemma MappedRoundTrip(size: FlashSize, flmap: nat, address: nat)
    requires flmap < 4
    ensures MappedPointer(size, flmap, address) != NULL <==> InWindow(size, flmap, address)
    ensures InWindow(size, flmap, address) ==>
      FlashAddress(size, flmap, MappedPointer(size, flmap, address)) == address
  {
    if InWindow(size, flmap, address) {
      assert Bit15(address % 0x10000) == 0x8000 + address % 0x8000;
    }
  }

  /** The events an NVM controller sees: CTRLA writes and SPM instructions. */
  datatype NvmEvent = CtrlA(cmd: NvmCommand) | SpmAt(z: nat)

  /** The error bits the next SPM raises: none once the queue is spent. */
  function NextFault(faults: seq<bv8>): bv8
  {
    if |faults| == 0 then 0 else faults[0] & STATUS_ERROR
  }

  function Rest(faults: seq<bv8>): seq<bv8>
  {
    if |faults| == 0 then [] else faults[1..]
  }

  /** The error bits the next `n` SPMs raise together. */
  function FaultsOf(faults: seq<bv8>, n: nat): (e: bv8)
    decreases n
  {
    if n == 0 then 0 else NextFault(faults) | FaultsOf(Rest(faults), n - 1)
  }

  function RestN(faults: seq<bv8>, n: nat): seq<bv8>
    decreases n
  {
    if n == 0 then faults else RestN(Rest(faults), n - 1)
  }

  lemma {:induction false} FaultsOfNext(faults: seq<bv8>, n: nat)
    ensures FaultsOf(faults, n + 1) == FaultsOf(faults, n) | NextFault(RestN(faults, n))
    ensures RestN(faults, n + 1) == Rest(RestN(faults, n))
    decreases n
  {
    if n > 0 {
      FaultsOfNext(Rest(faults), n - 1);
    }
  }

  /** The error bits of any number of SPMs lie inside the ERROR field. */
  lemma {:induction false} FaultsOfMasked(faults: seq<bv8>, n: nat)
    ensures FaultsOf(faults, n) & STATUS_ERROR == FaultsOf(faults, n)
    decreases n
  {
    if n > 0 {
      FaultsOfMasked(Rest(faults), n - 1);
    }
  }

  /** A STATUS whose ERROR field is clear after error bits `e` were ORed in means no error was raised. */
  lemma CleanStatusNoFault(status: bv8, e: bv8)
    requires e & STATUS_ERROR == e
    requires (status | e) & STATUS_ERROR == 0
    ensures e == 0
  {
  }

  /** What one SPM does to the flash image, given the command in CTRLA and the error bits it raises. */
  function SpmEffect(flash: seq<bv8>, cmd: NvmCommand, z: nat, lo: bv8, hi: bv8, fault: bv8): (r: seq<bv8>)
    ensures |r| == |flash|
  {
    if fault != 0 then flash
    else
      match cmd
      case FlashWrite => Apply(flash, [SpmWrite(z, lo, hi)])
      case PageErase(n) => if n > 0 then EraseBlock(flash, z, n) else flash
      case CmdNone => flash
  }

  /** The verdict of the post-operation checks on STATUS and ADDR. */
  function PostVerdict(status: bv8, addr: int, expected: int, missing: Outcome): Outcome
  {
    var s := status & STATUS_ERROR;
    if s != 0 then Fail(s >> 4)
    else if addr % 0x1000000 != expected then missing
    else Ok
  }

  /**
   * The checks accept a working SPM and catch a missing one: a clean STATUS
   * with ADDR at the expected address is Ok, error bits are reported as
   * FAIL with their code, and an ADDR left elsewhere is reported as
   * `missing`.
   */
  lemma PostVerdictCases(status: bv8, addr: int, expected: int, missing: Outcome)
    requires 0 <= expected < 0x1000000 && missing != Ok
    ensures status & STATUS_ERROR == 0 && addr == expected ==> PostVerdict(status, addr, expected, missing) == Ok
    ensures status & STATUS_ERROR != 0 ==>
      (PostVerdict(status, addr, expected, missing).Fail? && 1 <= PostVerdict(status, addr, expected, missing).error <= 7)
    ensures status & STATUS_ERROR == 0 && !(addr % 0x1000000 == expected) ==>
      PostVerdict(status, addr, expected, missing) == missing
  {
    var s := status & STATUS_ERROR;
    if s != 0 {
      assert s >> 4 != 0 && s >> 4 <= 7;
    }
  }

  /** NVMCTRL, the SPM entry point behind it, RAMPZ and the flash image. */
  class NvmCtrl {
    /** Whether an SPM entry point answers. */
    const live: bool
    var status: bv8
    var addr: int
    var rampz: bv8
    var command: NvmCommand
    var flash: seq<bv8>
    /** The error bits successive SPMs raise. */
    var faults: seq<bv8>
    var trace: seq<NvmEvent>

    constructor (answers: bool, image: seq<bv8>, errors: seq<bv8>, status0: bv8, addr0: int)
      ensures live == answers && flash == image && faults == errors
      ensures status == status0 && addr == addr0 && rampz == 0 && command == CmdNone && trace == []
    {
      live, flash, faults := answers, image, errors;
      status, addr, rampz, command, trace := status0, addr0, 0, CmdNone, [];
    }

    /** `do_nvmctrl`: (after the controller is idle) NONE, then the command, into CTRLA. */
    method DoNvmctrl(cmd: NvmCommand)
      modifies this
      ensures command == cmd
      ensures trace == old(trace) + [CtrlA(CmdNone), CtrlA(cmd)]
      ensures status == old(status) && addr == old(addr) && rampz == old(rampz)
      ensures flash == old(flash) && faults == old(faults)
    {
      trace := trace + [CtrlA(CmdNone)];
      command := CmdNone;
      trace := trace + [CtrlA(cmd)];
      command := cmd;
    }

    /** One SPM at byte address `z`, with r0:r1 = `lo`:`hi`. */
    method Spm(z: nat, lo: bv8, hi: bv8)
      modifies this
      ensures trace == old(trace) + [SpmAt(z)]
      ensures command == old(command) && rampz == old(rampz)
      ensures live ==> status == old(status) | NextFault(old(faults)) && addr == z + 1
      ensures live ==> faults == Rest(old(faults))
      ensures live ==> flash == SpmEffect(old(flash), old(command), z, lo, hi, NextFault(old(faults)))
      ensures !live ==> status == old(status) && addr == old(addr) && faults == old(faults) && flash == old(flash)
    {
      trace := trace + [SpmAt(z)];
      if live {
        var fault := NextFault(faults);
        faults := Rest(faults);
        status := status | fault;
        addr := z + 1;
        flash := SpmEffect(flash, command, z, lo, hi, fault);
      }
    }

    /** Selects the 64 KB half of flash that SPM addresses (parts with more than 64 KB). */
    method SetRampz(address: nat)
      modifies this
      ensures rampz == (if address > 0xFFFF then 1 else 0)
      ensures status == old(status) && addr == old(addr) && command == old(command)
      ensures flash == old(flash) && faults == old(faults) && trace == old(trace)
    {
      if address > 0xFFFF {
        rampz := 1;
      } else {
        rampz := 0;
      }
    }

    /** The checks after an erase or write: error bits clear STATUS and give FAIL; then ADDR must be `expected`. */
    method PostCheck(expected: int, missing: Outcome) returns (r: Outcome)
      modifies this
      ensures r == PostVerdict(old(status), addr, expected, missing)
      ensures status == (if old(status) & STATUS_ERROR != 0 then 0 else old(status))
      ensures addr == old(addr) && rampz == old(rampz) && command == old(command)
      ensures flash == old(flash) && faults == old(faults) && trace == old(trace)
    {
      var s := status & STATUS_ERROR;
      if s != 0 {
        status := 0;
        return Fail(s >> 4);
      }
      if addr % 0x1000000 != expected {
        return missing;
      }
      return Ok;
    }
  }
}
