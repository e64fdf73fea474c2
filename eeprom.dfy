// The EEPROM library of the core: a reference to one EEPROM cell (read,
// erase-and-write assignment, compound assignment, update, increment and
// decrement), the masked subscript of the EEPROM object and the byte-wise
// get/put of a value.
//
// The EEPROM is a field of 512 cells. Every register access a write makes is
// recorded in a trace, with the status register as it stood at that moment,
// so that the protocol of a write (idle wait, NONE, EEERWR, mapped store,
// status register restored) can be stated.

module Eeprom {

  /** Bytes of EEPROM on the parts the core targets. */
  const EEPROM_SIZE: nat := 512
  /** The highest EEPROM address; the subscript masks with it. */
  const EEPROM_END: bv16 := 0x1FF
  /** Where the EEPROM appears in the data space. */
  const MAPPED_EEPROM_START: int := 0x1400
  /** The global interrupt enable bit of the status register. */
  const SREG_I: bv8 := 0x80

  /** A C `int` on the AVR: 16 bits, two's complement. */
  newtype int16 = x: int | -0x8000 <= x < 0x8000

  datatype NvmCommand = CmdNone | CmdEeErWr

  datatype EeEvent =
    | AwaitIdle
    | ProtectedCtrlA(cmd: NvmCommand, sregAt: bv8)
    | Store(address: int, data: bv8, sregAt: bv8)

  /**
   * The accesses one assignment makes: wait until the EEPROM is idle, then
   * with interrupts masked select NONE, select erase-and-write, and store
   * the byte at its mapped address.
   */
  function WriteEvents(idx: int, v: bv8, sreg: bv8): seq<EeEvent>
  {
    var masked := sreg & !SREG_I;
    [AwaitIdle, ProtectedCtrlA(CmdNone, masked), ProtectedCtrlA(CmdEeErWr, masked),
     Store(MAPPED_EEPROM_START + idx, v, masked)]
  }

  /** Whether an access was made with interrupts masked (waiting is not an access). */
  predicate InterruptsMasked(e: EeEvent)
  {
    e.AwaitIdle? || e.sregAt & SREG_I == 0
  }

  /** Every register access of a write happens with interrupts masked. */
  lemma WriteMasksInterrupts(idx: int, v: bv8, sreg: bv8)
    ensures forall e :: e in WriteEvents(idx, v, sreg) ==> InterruptsMasked(e)
  {
    var m := sreg & !SREG_I;
    assert m & SREG_I == 0;
  }

  /** The EEPROM after a store at `idx`: a store outside the EEPROM changes no cell of it. */
  function Stored(cells: seq<bv8>, idx: int, v: bv8): (r: seq<bv8>)
    ensures |r| == |cells|
    ensures forall j :: 0 <= j < |cells| ==> r[j] == (if j == idx then v else cells[j])
  {
    if 0 <= idx < |cells| then cells[idx := v] else cells
  }

  /** The subscript: the index as a 16-bit pattern, masked with EEPROM_END (the low nine bits kept). */
  function Subscript(idx: int16): nat
  {
    ((idx as int) + 0x10000) % 0x10000 % (EEPROM_END as int + 1)
  }

  /**
   * The subscript always names a cell of the EEPROM, wraps around it (a
   * negative index counts from the top), and leaves an index already in
   * range alone.
   */
  lemma SubscriptWraps(idx: int16)
    ensures Subscript(idx) < EEPROM_SIZE
    ensures Subscript(idx) == (idx as int) % EEPROM_SIZE
    ensures 0 <= idx as int < EEPROM_SIZE ==> Subscript(idx) == idx as int
  {
    var i := idx as int;
    if i < 0 {
      assert (i + 0x10000) % 0x10000 == i + 0x10000;
      assert (i + 0x10000) % 512 == (i + 128 * 512) % 512 == i % 512;
    } else {
      assert (i + 0x10000) % 0x10000 == i;
    }
  }

  /** The compound assignment operators of a cell reference. */
  datatype CompoundOp = Add | Sub | Mul | Div | Xor | Mod | And | Or | Shl | Shr

  /** The operand values for which C defines the operation on promoted `int`s. */
  predicate Defined(op: CompoundOp, b: bv8)
  {
    match op
    case Div => b != 0
    case Mod => b != 0
    case Shl => b < 16
    case Shr => b < 16
    case _ => true
  }

  /**
   * The value stored by a compound assignment: the operation on the cell's
   * value and the operand, both promoted to `int`, truncated back to a byte.
   * Byte arithmetic wraps exactly as that truncation does; a shift by eight
   * or more is defined on the promoted `int` and leaves nothing of the byte.
   */
  function Combine(op: CompoundOp, a: bv8, b: bv8): bv8
    requires Defined(op, b)
  {
    match op
    case Add => a + b
    case Sub => a - b
    case Mul => a * b
    case Div => a / b
    case Xor => a ^ b
    case Mod => a % b
    case And => a & b
    case Or => a | b
    case Shl => if b >= 8 then 0 else a << b
    case Shr => if b >= 8 then 0 else a >> b
  }

  /** Adding and then subtracting the same operand gives the cell its value back, wrap-around included. */
  lemma AddThenSub(a: bv8, b: bv8)
    ensures Combine(Sub, Combine(Add, a, b), b) == a
  {
  }

  /** Incrementing 255 gives 0 and decrementing 0 gives 255. */
  lemma IncrementWraps()
    ensures Combine(Add, 255, 1) == 0
    ensures Combine(Sub, 0, 1) == 255
  {
  }

  /**
   * The events `put` makes for the bytes `bs` at `idx` over the EEPROM
   * `cells`: one full write for each byte that differs from its cell, none
   * for a byte already stored.
   */
  function PutEvents(cells: seq<bv8>, idx: nat, bs: seq<bv8>, sreg: bv8): seq<EeEvent>
    requires idx + |bs| <= |cells|
  {
    if |bs| == 0 then []
    else
      var k := |bs| - 1;
      PutEvents(cells, idx, bs[..k], sreg)
        + (if cells[idx + k] == bs[k] then [] else WriteEvents(idx + k, bs[k], sreg))
  }

  /** How many bytes of `bs` differ from the cells they go to. */
  function Changed(cells: seq<bv8>, idx: nat, bs: seq<bv8>): nat
    requires idx + |bs| <= |cells|
  {
    if |bs| == 0 then 0
    else
      var k := |bs| - 1;
      Changed(cells, idx, bs[..k]) + (if cells[idx + k] == bs[k] then 0 else 1)
  }

  /**
   * `put` costs one erase-and-write per byte that changes and no access at
   * all when the EEPROM already holds the value.
   */
  lemma {:induction false} PutWritesOnlyChanges(cells: seq<bv8>, idx: nat, bs: seq<bv8>, sreg: bv8)
    requires idx + |bs| <= |cells|
    ensures |PutEvents(cells, idx, bs, sreg)| == 4 * Changed(cells, idx, bs)
    ensures PutEvents(cells, idx, bs, sreg) == [] <==> cells[idx..idx + |bs|] == bs
    decreases |bs|
  {
    if |bs| > 0 {
      var k := |bs| - 1;
      PutWritesOnlyChanges(cells, idx, bs[..k], sreg);
      assert cells[idx..idx + |bs|] == cells[idx..idx + k] + [cells[idx + k]];
      assert bs == bs[..k] + [bs[k]];
    }
  }

  /** The EEPROM after `put`: the bytes of the value in place, every other cell kept. */
  function Spliced(cells: seq<bv8>, idx: nat, bs: seq<bv8>): (r: seq<bv8>)
    requires idx + |bs| <= |cells|
    ensures |r| == |cells|
  {
    cells[..idx] + bs + cells[idx + |bs|..]
  }

  /** One more byte of `put`: its cell joins the splice, and its events, if any, follow the others. */
  lemma PutStep(cells: seq<bv8>, idx: nat, bs: seq<bv8>, k: nat, sreg: bv8)
    requires idx + |bs| <= |cells| && k < |bs|
    ensures Spliced(cells, idx, bs[..k])[idx + k] == cells[idx + k]
    ensures Spliced(cells, idx, bs[..k])[idx + k := bs[k]] == Spliced(cells, idx, bs[..k + 1])
    ensures PutEvents(cells, idx, bs[..k + 1], sreg) ==
      PutEvents(cells, idx, bs[..k], sreg) + (if cells[idx + k] == bs[k] then [] else WriteEvents(idx + k, bs[k], sreg))
  {
    assert bs[..k + 1][..k] == bs[..k];
  }

  /** Reading back the bytes just put gives the value; the cells around it are untouched. */
  lemma PutGetRoundTrip(cells: seq<bv8>, idx: nat, bs: seq<bv8>)
    requires idx + |bs| <= |cells|
    ensures Spliced(cells, idx, bs)[idx..idx + |bs|] == bs
    ensures forall j :: 0 <= j < |cells| && !(idx <= j < idx + |bs|) ==> Spliced(cells, idx, bs)[j] == cells[j]
  {
  }

  /** The EEPROM, the status register and the trace of register accesses. */
  class EepromMemory {
    var cells: seq<bv8>
    var sreg: bv8
    var trace: seq<EeEvent>

    ghost predicate Valid()
      reads this
    {
      |cells| == EEPROM_SIZE
    }

    constructor (contents: seq<bv8>, status: bv8)
      requires |contents| == EEPROM_SIZE
      ensures Valid()
      ensures cells == contents && sreg == status && trace == []
    {
      cells, sreg, trace := contents, status, [];
    }

    /** Reading a cell: `*ref`, the conversion to a bv8, and `read`. */
    method Read(idx: int) returns (b: bv8)
      requires Valid()
      requires 0 <= idx < EEPROM_SIZE
      ensures b == cells[idx]
    {
      b := cells[idx];
    }

    /**
     * Assigning a byte to a cell, and `write`: erase-and-write of the byte at
     * its mapped address with interrupts masked, the status register
     * restored afterwards.
     */
    method Write(idx: int, v: bv8)
      requires Valid()
      modifies this
      ensures Valid()
      ensures cells == Stored(old(cells), idx, v)
      ensures trace == old(trace) + WriteEvents(idx, v, old(sreg))
      ensures sreg == old(sreg)
    {
      ghost var before := trace;
      trace := trace + [AwaitIdle];
      var oldSreg := sreg;
      var masked := oldSreg & !SREG_I;
      sreg := masked;
      trace := trace + [ProtectedCtrlA(CmdNone, masked), ProtectedCtrlA(CmdEeErWr, masked)];
      trace := trace + [Store(MAPPED_EEPROM_START + idx, v, masked)];
      assert trace == before + WriteEvents(idx, v, oldSreg);
      if 0 <= idx < |cells| {
        cells := cells[idx := v];
      }
      sreg := oldSreg;
    }

    /** Assigning one cell reference to another copies the byte. */
    method Copy(idx: int, from: int)
      requires Valid()
      requires 0 <= from < EEPROM_SIZE
      modifies this
      ensures Valid()
      ensures cells == Stored(old(cells), idx, old(cells)[from])
      ensures trace == old(trace) + WriteEvents(idx, old(cells)[from], old(sreg))
      ensures sreg == old(sreg)
    {
      var b := Read(from);
      Write(idx, b);
    }

    /** `update`: the cell is written only when the new byte differs from it. */
    method Update(idx: int, v: bv8)
      requires Valid()
      requires 0 <= idx < EEPROM_SIZE
      modifies this
      ensures Valid()
      ensures cells == old(cells)[idx := v]
      ensures old(cells)[idx] == v ==> trace == old(trace)
      ensures old(cells)[idx] != v ==> trace == old(trace) + WriteEvents(idx, v, old(sreg))
      ensures sreg == old(sreg)
    {
      var current := Read(idx);
      if v != current {
        Write(idx, v);
      }
    }

    /** A compound assignment: read the cell, combine, write the result back unconditionally. */
    method Compound(idx: int, op: CompoundOp, v: bv8)
      requires Valid()
      requires 0 <= idx < EEPROM_SIZE
      requires Defined(op, v)
      modifies this
      ensures Valid()
      ensures cells == old(cells)[idx := Combine(op, old(cells)[idx], v)]
      ensures trace == old(trace) + WriteEvents(idx, Combine(op, old(cells)[idx], v), old(sreg))
      ensures sreg == old(sreg)
    {
      var current := Read(idx);
      Write(idx, Combine(op, current, v));
    }

    /** Prefix `++`: the cell gains one, wrapping from 255 to 0. */
    method Increment(idx: int)
      requires Valid()
      requires 0 <= idx < EEPROM_SIZE
      modifies this
      ensures Valid()
      ensures cells == old(cells)[idx := Combine(Add, old(cells)[idx], 1)]
      ensures trace == old(trace) + WriteEvents(idx, Combine(Add, old(cells)[idx], 1), old(sreg))
      ensures sreg == old(sreg)
    {
      Compound(idx, Add, 1);
    }

    /** Prefix `--`: the cell loses one, wrapping from 0 to 255. */
    method Decrement(idx: int)
      requires Valid()
      requires 0 <= idx < EEPROM_SIZE
      modifies this
      ensures Valid()
      ensures cells == old(cells)[idx := Combine(Sub, old(cells)[idx], 1)]
      ensures trace == old(trace) + WriteEvents(idx, Combine(Sub, old(cells)[idx], 1), old(sreg))
      ensures sreg == old(sreg)
    {
      Compound(idx, Sub, 1);
    }

    /** Postfix `++`: answers the value before the increment. */
    method PostIncrement(idx: int) returns (ret: bv8)
      requires Valid()
      requires 0 <= idx < EEPROM_SIZE
      modifies this
      ensures Valid()
      ensures ret == old(cells)[idx]
      ensures cells == old(cells)[idx := Combine(Add, ret, 1)]
      ensures trace == old(trace) + WriteEvents(idx, Combine(Add, ret, 1), old(sreg))
      ensures sreg == old(sreg)
    {
      ret := Read(idx);
      Increment(idx);
    }

    /** Postfix `--`: answers the value before the decrement. */
    method PostDecrement(idx: int) returns (ret: bv8)
      requires Valid()
      requires 0 <= idx < EEPROM_SIZE
      modifies this
      ensures Valid()
      ensures ret == old(cells)[idx]
      ensures cells == old(cells)[idx := Combine(Sub, ret, 1)]
      ensures trace == old(trace) + WriteEvents(idx, Combine(Sub, ret, 1), old(sreg))
      ensures sreg == old(sreg)
    {
      ret := Read(idx);
      Decrement(idx);
    }

    /** `get`: the `|n|` bytes from `idx` on, read through an advancing, unmasked pointer. */
    method Get(idx: int, n: nat) returns (bs: seq<bv8>)
      requires Valid()
      requires 0 <= idx && idx + n <= EEPROM_SIZE
      ensures bs == cells[idx..idx + n]
    {
      bs := [];
      var e := idx;
      var count := n;
      while count != 0
        invariant 0 <= count <= n
        invariant e == idx + (n - count)
        invariant bs == cells[idx..e]
      {
        var b := Read(e);
        bs := bs + [b];
        count := count - 1;
        e := e + 1;
      }
    }

    /** `put`: each byte of the value goes to its cell through `update`. */
    method Put(idx: int, bs: seq<bv8>)
      requires Valid()
      requires 0 <= idx && idx + |bs| <= EEPROM_SIZE
      modifies this
      ensures Valid()
      ensures cells == Spliced(old(cells), idx, bs)
      ensures trace == old(trace) + PutEvents(old(cells), idx, bs, old(sreg))
      ensures sreg == old(sreg)
    {
      var e := idx;
      var k := 0;
      while k != |bs|
        invariant Valid()
        invariant 0 <= k <= |bs|
        invariant e == idx + k
        invariant cells == Spliced(old(cells), idx, bs[..k])
        invariant trace == old(trace) + PutEvents(old(cells), idx, bs[..k], old(sreg))
        invariant sreg == old(sreg)
      {
        PutStep(old(cells), idx, bs, k, old(sreg));
        Update(e, bs[k]);
        k := k + 1;
        e := e + 1;
      }
      assert bs[..k] == bs;
    }
  }
}
