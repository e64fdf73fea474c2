// The USERROW library: a small flash page (the user signature row) used like
// EEPROM through a RAM buffer that is loaded lazily. A write that only clears
// bits goes straight to the row; any other write loads the whole row into the
// buffer, and `flush` erases the page and writes the buffer back.
//
// Programming flash can only clear bits, so a byte written to the row becomes
// the AND of its old value and the data; a page erase sets every byte to 0xFF.
// CPUINT.STATUS is a field: a nonzero value means the caller runs inside an
// interrupt, where the library refuses to touch the row. The busy-waits on
// NVMCTRL.STATUS and the interrupt masking are not modelled.

module UserSig {

  const USIG_FROM_INTERRUPT: int := -16
  const USIG_WRITE_LOADED: int := -2
  const USIG_BAD_ADDRESS: int := -4

  /** Bytes in the user signature row of the Dx-series parts. */
  const USER_SIGNATURES_SIZE: nat := 32

  /** The cell an index names: the index as a byte, masked with USER_SIGNATURES_SIZE - 1. */
  function Cell(idx: int): (i: nat)
    ensures i < USER_SIGNATURES_SIZE
    ensures i == Cell(idx)
  {
    (idx % 256) % USER_SIGNATURES_SIZE
  }

  /** The cell `k` places after `idx`. */
  function Slot(idx: int, k: int): (i: nat)
    ensures i < USER_SIGNATURES_SIZE
  {
    Cell(idx + k)
  }

  /** Fewer than USER_SIGNATURES_SIZE steps apart never name the same cell. */
  lemma SlotsDistinct(idx: int, j: int, k: int)
    requires 0 <= j < k < j + USER_SIGNATURES_SIZE
    ensures Slot(idx, j) != Slot(idx, k)
  {
  }

  /** Programming `data` over the stored byte `was` only clears bits, so no erase is needed. */
  predicate ClearsOnly(was: bv8, data: bv8)
  {
    was & data == data
  }

  /** The NVM operations the library issues on the row. */
  datatype NvmOp = ErasePage | WriteByte(cell: nat, data: bv8)

  /** A row of `n` erased bytes. */
  function Erased(n: nat): (s: seq<bv8>)
    ensures |s| == n && forall i :: 0 <= i < n ==> s[i] == 0xFF
  {
    seq(n, _ => 0xFF)
  }

  /** How many bytes of the buffer differ from the row. */
  function Differing(row: seq<bv8>, buf: seq<bv8>): (n: nat)
    requires |row| == |buf|
    ensures n <= |row|
    ensures n == 0 <==> row == buf
  {
    if |row| == 0 then 0
    else (if row[|row| - 1] != buf[|row| - 1] then 1 else 0) + Differing(row[..|row| - 1], buf[..|row| - 1])
  }

  /** How many bytes of the buffer equal the row: what the flush tally counts as written. */
  function Matching(row: seq<bv8>, buf: seq<bv8>): (n: nat)
    requires |row| == |buf|
    ensures n <= |row|
    ensures n == |row| - Differing(row, buf)
  {
    if |row| == 0 then 0
    else (if row[|row| - 1] == buf[|row| - 1] then 1 else 0) + Matching(row[..|row| - 1], buf[..|row| - 1])
  }

  /**
   * The row a flush of a loaded buffer leaves, as written: the tally counts
   * equal bytes, and a tally of 0 is taken to mean "nothing changed", so a
   * buffer that differs from the row in every byte is dropped unwritten.
   */
  function FlushAsWritten(row: seq<bv8>, buf: seq<bv8>): (newRow: seq<bv8>)
    requires |row| == |buf|
    ensures Matching(row, buf) == 0 ==> newRow == row
    ensures Matching(row, buf) != 0 ==> newRow == buf
  {
    if Matching(row, buf) == 0 then row else buf
  }

  /** A two-byte row holding 0x00 0x00 whose buffer holds 0x01 0x01 keeps its old bytes. */
  lemma FlushAsWrittenLosesWrites()
    ensures FlushAsWritten([0x00, 0x00], [0x01, 0x01]) == [0x00, 0x00]
    ensures FlushAsWritten([0x00, 0x00], [0x01, 0x01]) != [0x01, 0x01]
  {
    assert Matching([0x00, 0x00], [0x01, 0x01]) == 0;
  }

  /**
   * The raw-write address check as written: only indices past the row size
   * are refused, so the index equal to the size, one past the last cell,
   * is accepted.
   */
  function RawAddressOkAsWritten(idx: nat, size: nat): (ok: bool)
    ensures ok <==> idx <= size
  {
    !(idx > size)
  }

  lemma RawAddressAsWrittenOverruns(size: nat)
    ensures RawAddressOkAsWritten(size, size) && !RawAddressOk(size, size)
  {
  }

  /** The intended check: exactly the cells of the row are accepted. */
  function RawAddressOk(idx: nat, size: nat): (ok: bool)
    ensures ok <==> idx < size
  {
    !(idx >= size)
  }

  /** The logical contents after a byte-by-byte `put` of `bs` at `idx`. */
  function PutView(v: seq<bv8>, idx: int, bs: seq<bv8>): (r: seq<bv8>)
    requires |v| == USER_SIGNATURES_SIZE
    ensures |r| == |v|
    decreases |bs|
  {
    if bs == [] then v else PutView(v[Slot(idx, 0) := bs[0]], idx + 1, bs[1..])
  }

  /** The `n` bytes a `get` at `idx` reads from the logical contents. */
  function GetView(v: seq<bv8>, idx: int, n: nat): (r: seq<bv8>)
    requires |v| == USER_SIGNATURES_SIZE
    ensures |r| == n
  {
    seq(n, k requires 0 <= k < n => v[Slot(idx, k)])
  }

  /** A `put` leaves the cells it does not cover untouched. */
  lemma {:induction false} PutViewElsewhere(v: seq<bv8>, idx: int, bs: seq<bv8>, i: nat)
    requires |v| == USER_SIGNATURES_SIZE && i < |v|
    requires forall k :: 0 <= k < |bs| ==> Slot(idx, k) != i
    ensures PutView(v, idx, bs)[i] == v[i]
    decreases |bs|
  {
    if bs != [] {
      assert Slot(idx, 0) != i;
      var next := idx + 1;
      forall k | 0 <= k < |bs| - 1
        ensures Slot(next, k) != i
      {
        assert Slot(idx, k + 1) != i;
        assert next + k == idx + (k + 1);
      }
      PutViewElsewhere(v[Slot(idx, 0) := bs[0]], next, bs[1..], i);
    }
  }

  /** `get` after `put` of at most a row's worth of bytes reads the bytes back. */
  lemma {:induction false} PutGetRoundTrip(v: seq<bv8>, idx: int, bs: seq<bv8>)
    requires |v| == USER_SIGNATURES_SIZE && |bs| <= |v|
    ensures GetView(PutView(v, idx, bs), idx, |bs|) == bs
    decreases |bs|
  {
    if bs != [] {
      var v1 := v[Slot(idx, 0) := bs[0]];
      PutGetRoundTrip(v1, idx + 1, bs[1..]);
      var r := PutView(v, idx, bs);
      assert r == PutView(v1, idx + 1, bs[1..]);
      forall k | 0 <= k < |bs|
        ensures r[Slot(idx, k)] == bs[k]
      {
        if k == 0 {
          var next := idx + 1;
          forall m | 0 <= m < |bs| - 1
            ensures Slot(next, m) != Slot(idx, 0)
          {
            SlotsDistinct(idx, 0, m + 1);
            assert next + m == idx + (m + 1);
          }
          PutViewElsewhere(v1, idx + 1, bs[1..], Slot(idx, 0));
        } else {
          assert GetView(r, idx + 1, |bs| - 1)[k - 1] == bs[k];
          assert idx + 1 + (k - 1) == idx + k;
        }
      }
    }
  }

  class UserRow {
    /** The user signature row in flash. */
    var row: seq<bv8>
    var buffer: array<bv8>
    var loaded: bool
    /** CPUINT.STATUS: nonzero while an interrupt is being served. */
    var cpuintStatus: bv8
    /** The NVM operations issued on the row, in order. */
    var ops: seq<NvmOp>

    ghost predicate Valid()
      reads this
    {
      |row| == USER_SIGNATURES_SIZE && buffer.Length == USER_SIGNATURES_SIZE
    }

    /** What a read sees: the buffer once loaded, the row otherwise. */
    ghost function View(): (v: seq<bv8>)
      reads this, buffer
      requires Valid()
      ensures |v| == USER_SIGNATURES_SIZE
    {
      if loaded then buffer[..] else row
    }

    constructor (row: seq<bv8>)
      requires |row| == USER_SIGNATURES_SIZE
      ensures Valid() && fresh(buffer) && this.row == row && !loaded && cpuintStatus == 0 && ops == []
      ensures View() == row
    {
      this.row := row;
      buffer := new bv8[|row|](_ => 0);
      loaded := false;
      cpuintStatus := 0;
      ops := [];
    }

    /** Copies the row into the buffer and marks it loaded; refused inside an interrupt. */
    method Load() returns (r: int)
      requires Valid()
      modifies buffer, this`loaded
      ensures Valid()
      ensures old(cpuintStatus) != 0 ==> r == USIG_FROM_INTERRUPT && loaded == old(loaded) && buffer[..] == old(buffer[..])
      ensures old(cpuintStatus) == 0 ==> r == 0 && loaded && buffer[..] == row
    {
      if cpuintStatus != 0 {
        return USIG_FROM_INTERRUPT;
      }
      var i := 0;
      while i < USER_SIGNATURES_SIZE
        invariant 0 <= i <= USER_SIGNATURES_SIZE
        invariant buffer[..i] == row[..i]
      {
        buffer[i] := row[i];
        i := i + 1;
      }
      loaded := true;
      return 0;
    }

    /** The byte at the masked index, from the buffer once loaded. */
    method Read(idx: int) returns (b: bv8)
      requires Valid()
      ensures b == View()[Cell(idx)]
    {
      var i := Cell(idx);
      if !loaded {
        return row[i];
      }
      return buffer[i];
    }

    /**
     * Programs one byte straight into the row. Refused inside an interrupt,
     * while the buffer is loaded, and for an index outside the row.
     */
    method WriteRaw(idx: nat, data: bv8) returns (r: int)
      requires Valid()
      modifies this`row, this`ops
      ensures Valid()
      ensures old(cpuintStatus) != 0 ==> r == USIG_FROM_INTERRUPT
      ensures old(cpuintStatus) == 0 && loaded ==> r == USIG_WRITE_LOADED
      ensures old(cpuintStatus) == 0 && !loaded && idx >= USER_SIGNATURES_SIZE ==> r == USIG_BAD_ADDRESS
      ensures r != 1 ==> row == old(row) && ops == old(ops)
      ensures r == 1 <==> cpuintStatus == 0 && !loaded && idx < USER_SIGNATURES_SIZE
      ensures r == 1 ==> row == old(row)[idx := old(row)[idx] & data] && ops == old(ops) + [WriteByte(idx, data)]
    {
      if cpuintStatus != 0 {
        return USIG_FROM_INTERRUPT;
      }
      if loaded {
        return USIG_WRITE_LOADED;
      }
      if !RawAddressOk(idx, USER_SIGNATURES_SIZE) {
        return USIG_BAD_ADDRESS;
      }
      row := row[idx := row[idx] & data];
      ops := ops + [WriteByte(idx, data)];
      return 1;
    }

    /**
     * Writes one byte at the masked index. Unloaded, a value that only clears
     * bits is programmed at once; any other value loads the row first. The
     * logical contents take the byte at that cell and keep every other cell.
     */
    method Write(idx: int, data: bv8) returns (r: int)
      requires Valid()
      modifies this`row, this`ops, this`loaded, buffer
      ensures Valid()
      ensures old(cpuintStatus) != 0 ==> r == USIG_FROM_INTERRUPT && row == old(row) && View() == old(View())
      ensures old(cpuintStatus) == 0 ==> View() == old(View())[Cell(idx) := data]
      ensures old(cpuintStatus) == 0 && !old(loaded) && ClearsOnly(old(row)[Cell(idx)], data) ==>
        r == 1 && !loaded && ops == old(ops) + [WriteByte(Cell(idx), data)]
      ensures old(cpuintStatus) == 0 && !(!old(loaded) && ClearsOnly(old(row)[Cell(idx)], data)) ==>
        r == 0 && loaded && row == old(row) && ops == old(ops)
    {
      if cpuintStatus != 0 {
        return USIG_FROM_INTERRUPT;
      }
      var i := Cell(idx);
      if !loaded {
        if !ClearsOnly(row[i], data) {
          var _ := Load();
        } else {
          ghost var before := row;
          r := WriteRaw(i, data);
          assert row == before[i := data];
          return r;
        }
      }
      ghost var buf := buffer[..];
      buffer[i] := data;
      assert buffer[..] == buf[i := data];
      return 0;
    }

    /**
     * Commits the buffer. Inside an interrupt nothing happens. `flush` with
     * nothing loaded, or with a buffer equal to the row, only unloads. Any
     * other call erases the page, and a flush then writes every buffered byte
     * back; afterwards the buffer is unloaded and filled with 0xFF.
     */
    method Flush(justErase: bool) returns (r: int)
      requires Valid()
      modifies this`row, this`ops, this`loaded, buffer
      ensures Valid()
      ensures old(cpuintStatus) != 0 ==>
        r == USIG_FROM_INTERRUPT && row == old(row) && ops == old(ops) && loaded == old(loaded) && buffer[..] == old(buffer[..])
      ensures old(cpuintStatus) == 0 && (justErase || old(loaded)) ==> !loaded && buffer[..] == Erased(USER_SIGNATURES_SIZE)
      ensures old(cpuintStatus) == 0 && !justErase && !old(loaded) ==>
        r == 0 && row == old(row) && ops == old(ops) && loaded == old(loaded) && buffer[..] == old(buffer[..])
      ensures old(cpuintStatus) == 0 && !justErase ==> row == old(View()) && View() == old(View())
      ensures old(cpuintStatus) == 0 && !justErase && old(loaded) ==> r == Differing(old(row), old(buffer[..]))
      ensures old(cpuintStatus) == 0 && !justErase && old(loaded) && r == 0 ==> ops == old(ops)
      ensures old(cpuintStatus) == 0 && !justErase && old(loaded) && r != 0 ==>
        ops == old(ops) + [ErasePage] + WriteOps(old(buffer[..]))
      ensures old(cpuintStatus) == 0 && justErase ==>
        r == 0 && row == Erased(USER_SIGNATURES_SIZE) && ops == old(ops) + [ErasePage]
    {
      if cpuintStatus != 0 {
        return USIG_FROM_INTERRUPT;
      }
      r := 0;
      if !justErase {
        if !loaded {
          return 0;
        }
        r := CountDiffering();
        if r == 0 {
          loaded := false;
          ClearBuffer();
          return 0;
        }
      }
      EraseAndRewrite(!justErase);
      loaded := false;
      ClearBuffer();
    }

    /** Erases the page, then, when asked to, writes every buffered byte back in order. */
    method EraseAndRewrite(rewrite: bool)
      requires Valid()
      modifies this`row, this`ops
      ensures Valid()
      ensures row == if rewrite then buffer[..] else Erased(USER_SIGNATURES_SIZE)
      ensures ops == old(ops) + [ErasePage] + (if rewrite then WriteOps(buffer[..]) else [])
    {
      row := Erased(USER_SIGNATURES_SIZE);
      ops := ops + [ErasePage];
      if rewrite {
        ghost var ops0 := ops;
        ghost var buf := buffer[..];
        var i := 0;
        while i < USER_SIGNATURES_SIZE
          invariant 0 <= i <= USER_SIGNATURES_SIZE && |row| == USER_SIGNATURES_SIZE
          invariant forall k :: 0 <= k < USER_SIGNATURES_SIZE ==> row[k] == if k < i then buf[k] else 0xFF
          invariant ops == ops0 + WriteOps(buf[..i])
        {
          var b := buffer[i];
          row := row[i := row[i] & b];
          ops := ops + [WriteByte(i, b)];
          WriteOpsSnoc(buf[..i], b);
          assert buf[..i + 1] == buf[..i] + [b];
          i := i + 1;
        }
        assert buf[..i] == buf;
      }
    }

    /** The flush tally, counting the buffered bytes that differ from the row. */
    method CountDiffering() returns (n: nat)
      requires Valid()
      ensures n == Differing(row, buffer[..])
    {
      n := 0;
      var i := 0;
      while i < USER_SIGNATURES_SIZE
        invariant 0 <= i <= USER_SIGNATURES_SIZE
        invariant n == Differing(row[..i], buffer[..i])
      {
        assert row[..i + 1][..i] == row[..i];
        assert buffer[..i + 1][..i] == buffer[..i];
        if row[i] != buffer[i] {
          n := n + 1;
        }
        i := i + 1;
      }
      assert row[..i] == row && buffer[..i] == buffer[..];
    }

    /** Fills the buffer with 0xFF. */
    method ClearBuffer()
      requires Valid()
      modifies buffer
      ensures buffer[..] == Erased(USER_SIGNATURES_SIZE)
    {
      var i := 0;
      while i < USER_SIGNATURES_SIZE
        invariant 0 <= i <= USER_SIGNATURES_SIZE
        invariant buffer[..i] == Erased(i)
      {
        buffer[i] := 0xFF;
        i := i + 1;
      }
    }

    /** `erase()`: the page is erased and nothing is written back. */
    method Erase() returns (r: int)
      requires Valid()
      modifies this`row, this`ops, this`loaded, buffer
      ensures Valid()
      ensures old(cpuintStatus) == 0 ==> r == 0 && row == Erased(USER_SIGNATURES_SIZE) && !loaded && ops == old(ops) + [ErasePage]
      ensures old(cpuintStatus) != 0 ==> r == USIG_FROM_INTERRUPT && row == old(row) && ops == old(ops)
    {
      r := Flush(true);
    }

    /** `get`: reads `n` consecutive cells starting at `idx`. */
    method Get(idx: int, n: nat) returns (bs: seq<bv8>)
      requires Valid()
      ensures bs == GetView(View(), idx, n)
    {
      bs := [];
      var k := 0;
      while k < n
        invariant 0 <= k <= n
        invariant bs == GetView(View(), idx, k)
      {
        var b := Read(idx + k);
        bs := bs + [b];
        k := k + 1;
      }
    }

    /**
     * `put`: writes the bytes one by one at consecutive cells; a value larger
     * than four bytes is committed with a flush after every byte.
     */
    method Put(idx: int, bs: seq<bv8>)
      requires Valid()
      modifies this`row, this`ops, this`loaded, buffer
      ensures Valid()
      ensures old(cpuintStatus) == 0 ==> View() == PutView(old(View()), idx, bs)
      ensures old(cpuintStatus) == 0 && |bs| > 4 ==> !loaded
      ensures old(cpuintStatus) != 0 ==> row == old(row) && View() == old(View())
    {
      ghost var v0 := View();
      var k := 0;
      while k < |bs|
        invariant 0 <= k <= |bs|
        invariant Valid() && cpuintStatus == old(cpuintStatus)
        invariant old(cpuintStatus) == 0 ==> PutView(View(), idx + k, bs[k..]) == PutView(v0, idx, bs)
        invariant old(cpuintStatus) == 0 && |bs| > 4 && k > 0 ==> !loaded
        invariant old(cpuintStatus) != 0 ==> row == old(row) && View() == v0
      {
        ghost var before := View();
        PutViewStep(before, idx + k, bs[k..]);
        assert bs[k..][1..] == bs[k + 1..];
        var _ := Write(idx + k, bs[k]);
        if |bs| > 4 {
          var _ := Flush(false);
        }
        k := k + 1;
      }
    }
  }

  lemma PutViewStep(v: seq<bv8>, idx: int, bs: seq<bv8>)
    requires |v| == USER_SIGNATURES_SIZE && bs != []
    ensures PutView(v, idx, bs) == PutView(v[Cell(idx) := bs[0]], idx + 1, bs[1..])
  {
    assert Slot(idx, 0) == Cell(idx);
  }

  /** The byte writes of a full-row rewrite. */
  function WriteOps(buf: seq<bv8>): (w: seq<NvmOp>)
    ensures |w| == |buf|
    ensures forall i :: 0 <= i < |buf| ==> w[i] == WriteByte(i, buf[i])
  {
    if buf == [] then [] else WriteOps(buf[..|buf| - 1]) + [WriteByte(|buf| - 1, buf[|buf| - 1])]
  }

  lemma WriteOpsSnoc(buf: seq<bv8>, b: bv8)
    ensures WriteOps(buf + [b]) == WriteOps(buf) + [WriteByte(|buf|, b)]
  {
    assert (buf + [b])[..|buf|] == buf;
  }
}
