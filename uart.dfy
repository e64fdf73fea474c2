// The buffered hardware-serial class of the core: the receive and transmit
// ring buffers shared between the interrupt handlers and the sketch, the
// pin-set selection and the hexadecimal printing helpers.
//
// The USART registers are fields of the object: `sent` records every byte
// written to TXDATAL, `dreInterrupt` is the data-register-empty interrupt
// enable, and `dataRegisterEmpty` is the DREIF status flag, which only the
// hardware changes. Each interrupt handler is a method the environment may
// call between the sketch's calls.

module Uart {
  import PinSwap

  /** Parity-error bit of RXDATAH. */
  const USART_PERR_BM: bv8 := 0x02
  /** The pin-set request that enables the USART with no pins. */
  const MUX_NONE: bv8 := 128

  /** A buffer size the index arithmetic supports: a power of two of at most 256. */
  predicate BufferSize(size: nat)
  {
    size in {2, 4, 8, 16, 32, 64, 128, 256}
  }

  /**
   * The index `x & (size - 1)` the code computes; for a power-of-two size
   * and a non-negative x this keeps the remainder of x by size.
   */
  function Masked(x: nat, size: nat): (r: nat)
    requires BufferSize(size)
    ensures r < size
    ensures x < size ==> r == x
    ensures size <= x < 2 * size ==> r == x - size
  {
    x % size
  }

  /** The ring index `k` places after `tail`. */
  function Idx(tail: nat, k: nat, size: nat): (r: nat)
    requires tail < size && k < size
    ensures r < size
  {
    if tail + k < size then tail + k else tail + k - size
  }

  /** How many bytes a ring holds between `tail` (next to leave) and `head` (next free). */
  function Count(head: nat, tail: nat, size: nat): (n: nat)
    requires head < size && tail < size
    ensures n < size
    ensures n == 0 <==> head == tail
    ensures Idx(tail, n, size) == head
  {
    if head >= tail then head - tail else size + head - tail
  }

  /** The bytes of a ring in the order they leave it. */
  function Ring(buf: seq<bv8>, head: nat, tail: nat): (q: seq<bv8>)
    requires head < |buf| && tail < |buf|
    ensures |q| == Count(head, tail, |buf|)
  {
    seq(Count(head, tail, |buf|), k requires 0 <= k < Count(head, tail, |buf|) => buf[Idx(tail, k, |buf|)])
  }

  /** Storing a byte at `head` and advancing `head` appends the byte, when the ring is not full. */
  lemma RingPush(buf: seq<bv8>, head: nat, tail: nat, c: bv8)
    requires head < |buf| && tail < |buf|
    requires BufferSize(|buf|)
    requires Masked(head + 1, |buf|) != tail
    ensures Ring(buf[head := c], Masked(head + 1, |buf|), tail) == Ring(buf, head, tail) + [c]
  {
    var size := |buf|;
    var n := Count(head, tail, size);
    assert Count(Masked(head + 1, size), tail, size) == n + 1;
    var after := Ring(buf[head := c], Masked(head + 1, size), tail);
    forall k | 0 <= k < n
      ensures after[k] == buf[Idx(tail, k, size)]
    {
      assert Idx(tail, k, size) != head;
    }
  }

  /** Advancing `tail` drops the first byte. */
  lemma RingPop(buf: seq<bv8>, head: nat, tail: nat)
    requires head < |buf| && tail < |buf| && head != tail
    requires BufferSize(|buf|)
    ensures Ring(buf, head, tail)[0] == buf[tail]
    ensures Ring(buf, head, Masked(tail + 1, |buf|)) == Ring(buf, head, tail)[1..]
  {
    var size := |buf|;
    var t := Masked(tail + 1, size);
    assert Count(head, t, size) == Count(head, tail, size) - 1;
    forall k | 0 <= k < Count(head, t, size)
      ensures Idx(t, k, size) == Idx(tail, k + 1, size)
    {
    }
  }

  /** The uppercase ASCII digit `printHex` emits for a nibble. */
  function HexDigit(nibble: bv8): (c: bv8)
    requires nibble < 16
    ensures nibble < 10 ==> c == 0x30 + nibble
    ensures nibble >= 10 ==> c == 0x41 + (nibble - 10)
  {
    var x := nibble | 0x30;
    if x > 0x39 then x + 7 else x
  }

  /** Reads an uppercase hexadecimal digit back. */
  function HexValue(c: bv8): (v: bv8)
  {
    if 0x30 <= c <= 0x39 then c - 0x30 else if 0x41 <= c <= 0x46 then c - 0x41 + 10 else 0
  }

  /** The two digits `printHex` emits for a byte, high nibble first. */
  function HexByte(b: bv8): (s: seq<bv8>)
  {
    [HexDigit(b >> 4), HexDigit(b & 0x0F)]
  }

  /** The digits emitted for a sequence of bytes, in the given order. */
  function HexBytes(bs: seq<bv8>): (s: seq<bv8>)
    ensures |s| == 2 * |bs|
  {
    if bs == [] then [] else HexByte(bs[0]) + HexBytes(bs[1..])
  }

  /** Reads pairs of hexadecimal digits back into bytes. */
  function ParseHex(s: seq<bv8>): (bs: seq<bv8>)
    decreases |s|
  {
    if |s| < 2 then [] else [(HexValue(s[0]) << 4) | HexValue(s[1])] + ParseHex(s[2..])
  }

  lemma HexByteRoundTrip(b: bv8)
    ensures (HexValue(HexDigit(b >> 4)) << 4) | HexValue(HexDigit(b & 0x0F)) == b
  {
  }

  /** Printing bytes in hexadecimal loses nothing: the digits read back to the same bytes. */
  lemma {:induction false} HexBytesRoundTrip(bs: seq<bv8>)
    ensures ParseHex(HexBytes(bs)) == bs
  {
    if bs != [] {
      HexByteRoundTrip(bs[0]);
      assert HexBytes(bs)[2..] == HexBytes(bs[1..]);
      HexBytesRoundTrip(bs[1..]);
    }
  }

  /** The bytes of a 16-bit value in memory order on the little-endian AVR. */
  function WordBytes(w: bv16): (bs: seq<bv8>)
  {
    [(w & 0xFF) as bv8, (w >> 8) as bv8]
  }

  /**
   * The byte order `printHex` uses for a 16-bit value: the most significant
   * byte first, or memory order when `swaporder` is set.
   */
  function WordOrder(w: bv16, swaporder: bool): (bs: seq<bv8>)
    ensures |bs| == 2
    ensures !swaporder ==> ((bs[0] as bv16) << 8) | (bs[1] as bv16) == w
  {
    var m := WordBytes(w);
    if swaporder then [m[0], m[1]] else [m[1], m[0]]
  }

  /** The bytes of a 32-bit value in memory order. */
  function LongBytes(l: bv32): (bs: seq<bv8>)
  {
    [(l & 0xFF) as bv8, ((l >> 8) & 0xFF) as bv8, ((l >> 16) & 0xFF) as bv8, (l >> 24) as bv8]
  }

  /** The byte order for a 32-bit value: most significant first, or memory order when swapped. */
  function LongOrder(l: bv32, swaporder: bool): (bs: seq<bv8>)
    ensures |bs| == 4
    ensures !swaporder ==>
      ((bs[0] as bv32) << 24) | ((bs[1] as bv32) << 16) | ((bs[2] as bv32) << 8) | (bs[3] as bv32) == l
  {
    var m := LongBytes(l);
    if swaporder then m else [m[3], m[2], m[1], m[0]]
  }

  /** The four digits `printHex` emits for a 16-bit value. */
  function WordDigits(w: bv16, swaporder: bool): seq<bv8>
  {
    var order := WordOrder(w, swaporder);
    HexByte(order[0]) + HexByte(order[1])
  }

  /** A 16-bit value printed most significant byte first reads back to the value. */
  lemma WordDigitsRoundTrip(w: bv16)
    ensures |ParseHex(WordDigits(w, false))| == 2
    ensures ((ParseHex(WordDigits(w, false))[0] as bv16) << 8) | (ParseHex(WordDigits(w, false))[1] as bv16) == w
  {
    var order := WordOrder(w, false);
    assert HexBytes(order[1..]) == HexByte(order[1]);
    assert WordDigits(w, false) == HexBytes(order);
    HexBytesRoundTrip(order);
  }

  /** CR LF, what `println()` without an argument writes. */
  const CRLF: seq<bv8> := [0x0D, 0x0A]

  /** What goes between two printed array elements: `sep`, or nothing when it is 0. */
  function Separator(sep: bv8): seq<bv8>
  {
    if sep == 0 then [] else [sep]
  }

  /**
   * The printed elements `gs` of an array, joined the way the array forms of
   * `printHex` join them: the separator stands between two elements, never
   * before the first or after the last.
   */
  function Joined(gs: seq<seq<bv8>>, sep: bv8): seq<bv8>
  {
    if |gs| == 0 then []
    else if |gs| == 1 then gs[0]
    else Joined(gs[..|gs| - 1], sep) + Separator(sep) + gs[|gs| - 1]
  }

  /** The digits of each byte of an array, one element per byte. */
  function ByteGroups(bs: seq<bv8>): seq<seq<bv8>>
  {
    seq(|bs|, i requires 0 <= i < |bs| => HexByte(bs[i]))
  }

  /** The digits of each 16-bit value of an array, one element per value. */
  function WordGroups(ws: seq<bv16>, swaporder: bool): seq<seq<bv8>>
  {
    seq(|ws|, i requires 0 <= i < |ws| => WordDigits(ws[i], swaporder))
  }

  lemma JoinedSnoc(gs: seq<seq<bv8>>, g: seq<bv8>, sep: bv8)
    ensures Joined(gs + [g], sep) == Joined(gs, sep) + (if gs == [] then [] else Separator(sep)) + g
  {
    assert (gs + [g])[..|gs|] == gs;
  }

  /** Without a separator, a byte array prints as the plain digits of its bytes, which read back to the bytes. */
  lemma {:induction false} HexArrayPlain(bs: seq<bv8>)
    ensures Joined(ByteGroups(bs), 0) == HexBytes(bs)
    ensures ParseHex(Joined(ByteGroups(bs), 0)) == bs
  {
    if bs != [] {
      var n := |bs| - 1;
      HexArrayPlain(bs[..n]);
      assert ByteGroups(bs) == ByteGroups(bs[..n]) + [HexByte(bs[n])];
      JoinedSnoc(ByteGroups(bs[..n]), HexByte(bs[n]), 0);
      HexBytesSnoc(bs[..n], bs[n]);
      assert bs[..n] + [bs[n]] == bs;
    }
    HexBytesRoundTrip(bs);
  }

  /**
   * With a separator, the digits of byte i sit at positions 3i and 3i+1 and
   * the separator at 3i+2, after every byte but the last.
   */
  lemma {:induction false} HexArrayLayout(bs: seq<bv8>, sep: bv8)
    requires sep != 0 && bs != []
    ensures |Joined(ByteGroups(bs), sep)| == 3 * |bs| - 1
    ensures forall k :: 0 <= k < |Joined(ByteGroups(bs), sep)| ==>
      Joined(ByteGroups(bs), sep)[k] == (if k % 3 == 2 then sep else HexByte(bs[k / 3])[k % 3])
  {
    var n := |bs| - 1;
    if n > 0 {
      HexArrayLayout(bs[..n], sep);
      assert ByteGroups(bs) == ByteGroups(bs[..n]) + [HexByte(bs[n])];
      JoinedSnoc(ByteGroups(bs[..n]), HexByte(bs[n]), sep);
      var r' := Joined(ByteGroups(bs[..n]), sep);
      var r := Joined(ByteGroups(bs), sep);
      assert r == r' + [sep] + HexByte(bs[n]);
      forall k | 0 <= k < |r|
        ensures r[k] == (if k % 3 == 2 then sep else HexByte(bs[k / 3])[k % 3])
      {
        if k < |r'| {
          assert r[k] == r'[k];
          assert k / 3 < n;
        } else if k == |r'| {
          assert k % 3 == 2;
        } else {
          assert k / 3 == n;
        }
      }
    }
  }

  class UartClass {
    const rxSize: nat
    const txSize: nat
    /** Number of pin sets in this USART's mux table. */
    const muxCount: bv8

    var rxBuffer: array<bv8>
    var txBuffer: array<bv8>
    var rxHead: nat
    var rxTail: nat
    var txHead: nat
    var txTail: nat
    var pinSet: bv8
    var written: bool
    /** Every byte written to TXDATAL, in order. */
    var sent: seq<bv8>
    var dreInterrupt: bool
    var dataRegisterEmpty: bool
    /** VPORTA.OUT: `write` drives PA7 low while it waits for room in the queue. */
    var portAOut: bv8

    ghost predicate Valid()
      reads this
    {
      && BufferSize(rxSize) && BufferSize(txSize)
      && rxBuffer.Length == rxSize && txBuffer.Length == txSize
      && rxBuffer != txBuffer
      && rxHead < rxSize && rxTail < rxSize
      && txHead < txSize && txTail < txSize
    }

    /** The received bytes not yet read, oldest first. */
    ghost function RxQueue(): seq<bv8>
      reads this, rxBuffer
      requires Valid()
    {
      Ring(rxBuffer[..], rxHead, rxTail)
    }

    /** The bytes queued for transmission, next to send first. */
    ghost function TxQueue(): seq<bv8>
      reads this, txBuffer
      requires Valid()
    {
      Ring(txBuffer[..], txHead, txTail)
    }

    /** Every byte handed to `write`: those already sent, then those still queued. */
    ghost function TxStream(): seq<bv8>
      reads this, txBuffer
      requires Valid()
    {
      sent + TxQueue()
    }

    constructor (rxSize: nat, txSize: nat, muxCount: bv8, muxDefault: bv8)
      requires BufferSize(rxSize) && BufferSize(txSize)
      ensures Valid() && fresh(rxBuffer) && fresh(txBuffer)
      ensures RxQueue() == [] && TxQueue() == [] && sent == []
      ensures pinSet == muxDefault && !written
    {
      this.rxSize := rxSize;
      this.txSize := txSize;
      this.muxCount := muxCount;
      rxBuffer := new bv8[rxSize];
      txBuffer := new bv8[txSize];
      rxHead, rxTail, txHead, txTail := 0, 0, 0, 0;
      pinSet := muxDefault;
      written := false;
      sent := [];
      dreInterrupt := false;
      dataRegisterEmpty := true;
    }

    /**
     * The receive-complete interrupt: a byte without a parity error is
     * appended unless the buffer is full (one slot is always left free);
     * otherwise the buffer is unchanged.
     */
    method RxComplete(rxDataH: bv8, c: bv8)
      requires Valid()
      modifies this`rxHead, rxBuffer
      ensures Valid()
      ensures old(rxDataH & USART_PERR_BM == 0 && |RxQueue()| < rxSize - 1) ==> RxQueue() == old(RxQueue()) + [c]
      ensures !old(rxDataH & USART_PERR_BM == 0 && |RxQueue()| < rxSize - 1) ==> RxQueue() == old(RxQueue())
    {
      var head := rxHead;
      if rxDataH & USART_PERR_BM == 0 {
        var i := Masked(head + 1, rxSize);
        if i != rxTail {
          RingPush(rxBuffer[..], head, rxTail, c);
          rxBuffer[head] := c;
          rxHead := i;
        }
      }
    }

    /** The number of bytes waiting to be read. */
    method Available() returns (n: int)
      requires Valid()
      ensures n == |RxQueue()|
      ensures 0 <= n < rxSize
      ensures n == 0 <==> rxHead == rxTail
    {
      n := Masked(rxSize + rxHead - rxTail, rxSize);
    }

    /** The next byte without consuming it, or -1 when nothing is waiting. */
    method Peek() returns (c: int)
      requires Valid()
      ensures RxQueue() == [] ==> c == -1
      ensures RxQueue() != [] ==> c == RxQueue()[0] as int
    {
      if rxHead == rxTail {
        c := -1;
      } else {
        RingPop(rxBuffer[..], rxHead, rxTail);
        c := rxBuffer[rxTail] as int;
      }
    }

    /** Takes the oldest byte, or answers -1 when nothing is waiting. */
    method Read() returns (c: int)
      requires Valid()
      modifies this`rxTail
      ensures Valid()
      ensures old(RxQueue()) == [] ==> c == -1 && RxQueue() == []
      ensures old(RxQueue()) != [] ==> c == old(RxQueue())[0] as int && RxQueue() == old(RxQueue())[1..]
    {
      if rxHead == rxTail {
        c := -1;
      } else {
        RingPop(rxBuffer[..], rxHead, rxTail);
        c := rxBuffer[rxTail] as int;
        rxTail := Masked(rxTail + 1, rxSize);
      }
    }

    /** How many more bytes `write` can queue without waiting. */
    method AvailableForWrite() returns (n: int)
      requires Valid()
      ensures n == txSize - 1 - |TxQueue()|
      ensures 0 <= n <= txSize - 1
    {
      var head := txHead;
      var tail := txTail;
      if head >= tail {
        return txSize - 1 - head + tail;
      }
      return tail - head - 1;
    }

    /**
     * The data-register-empty interrupt, entered only while bytes are queued:
     * sends the oldest queued byte and turns itself off once the queue is empty.
     */
    method TxDataEmpty()
      requires Valid() && TxQueue() != []
      modifies this`txTail, this`sent, this`dreInterrupt
      ensures Valid()
      ensures sent == old(sent) + [old(TxQueue())[0]]
      ensures TxQueue() == old(TxQueue())[1..]
      ensures dreInterrupt == (old(dreInterrupt) && TxQueue() != [])
      ensures TxStream() == old(TxStream())
    {
      var tail := txTail;
      RingPop(txBuffer[..], txHead, tail);
      var c := txBuffer[tail];
      sent := sent + [c];
      tail := Masked(tail + 1, txSize);
      if txHead == tail {
        dreInterrupt := false;
      }
      txTail := tail;
    }

    /**
     * Queues one byte for transmission; with an empty queue and an empty data
     * register the byte goes straight to the register and PA7 is left alone.
     * Otherwise PA7 is low while the queue is full, and high afterwards.
     */
    method Write(c: bv8) returns (n: int)
      requires Valid()
      modifies this`txHead, this`txTail, this`sent, this`dreInterrupt, this`written, this`portAOut, txBuffer
      ensures Valid() && n == 1 && written
      ensures TxStream() == old(TxStream()) + [c]
      ensures old(TxQueue() == [] && dataRegisterEmpty) ==> sent == old(sent) + [c] && TxQueue() == [] && portAOut == old(portAOut)
      ensures !old(TxQueue() == [] && dataRegisterEmpty) ==> dreInterrupt && TxQueue() != [] && portAOut == old(portAOut) | 0x80
    {
      written := true;
      if txHead == txTail && dataRegisterEmpty {
        sent := sent + [c];
        return 1;
      }
      Enqueue(c);
      return 1;
    }

    /**
     * The slow path of `write`: PA7 low, the wait for room in the queue,
     * PA7 high, then the byte joins the queue.
     */
    method Enqueue(c: bv8)
      requires Valid()
      modifies this`txHead, this`txTail, this`sent, this`dreInterrupt, this`portAOut, txBuffer
      ensures Valid()
      ensures TxStream() == old(TxStream()) + [c]
      ensures dreInterrupt && TxQueue() != [] && portAOut == old(portAOut) | 0x80
    {
      portAOut := portAOut & 0x7F;
      WaitForRoom();
      portAOut := portAOut | 0x80;
      assert portAOut == old(portAOut) | 0x80;
      Push(c);
    }

    /**
     * While the queue is full, each wait step is the interrupt handler
     * sending the oldest byte, so no queued byte is ever overwritten.
     */
    method WaitForRoom()
      requires Valid()
      modifies this`txTail, this`sent, this`dreInterrupt
      ensures Valid() && txHead == old(txHead)
      ensures Masked(txHead + 1, txSize) != txTail
      ensures TxStream() == old(TxStream())
    {
      var i := Masked(txHead + 1, txSize);
      while i == txTail
        invariant Valid()
        invariant TxStream() == old(TxStream())
        decreases |TxQueue()|
      {
        assert |TxQueue()| == txSize - 1;
        TxDataEmpty();
      }
    }

    /** The byte goes in at the head of a queue with room, and the data-register-empty interrupt is enabled. */
    method Push(c: bv8)
      requires Valid() && Masked(txHead + 1, txSize) != txTail
      modifies this`txHead, this`dreInterrupt, txBuffer
      ensures Valid()
      ensures TxStream() == old(TxStream()) + [c]
      ensures dreInterrupt && TxQueue() != []
    {
      var i := Masked(txHead + 1, txSize);
      RingPush(txBuffer[..], txHead, txTail, c);
      txBuffer[txHead] := c;
      txHead := i;
      dreInterrupt := true;
    }

    /** Writes the two hexadecimal digits of a byte. */
    method PrintHex(b: bv8)
      requires Valid()
      modifies this`txHead, this`txTail, this`sent, this`dreInterrupt, this`written, this`portAOut, txBuffer
      ensures Valid()
      ensures TxStream() == old(TxStream()) + HexByte(b)
    {
      var x: bv8 := (b >> 4) | 0x30;
      if x > 0x39 {
        x := x + 7;
      }
      var _ := Write(x);
      x := (b & 0x0F) | 0x30;
      if x > 0x39 {
        x := x + 7;
      }
      var _ := Write(x);
    }

    /** Writes the digits of each byte in turn. */
    method PrintHexBytes(bs: seq<bv8>)
      requires Valid()
      modifies this`txHead, this`txTail, this`sent, this`dreInterrupt, this`written, this`portAOut, txBuffer
      ensures Valid()
      ensures TxStream() == old(TxStream()) + HexBytes(bs)
    {
      var i := 0;
      while i < |bs|
        invariant 0 <= i <= |bs|
        invariant Valid()
        invariant TxStream() == old(TxStream()) + HexBytes(bs[..i])
      {
        HexBytesSnoc(bs[..i], bs[i]);
        assert bs[..i + 1] == bs[..i] + [bs[i]];
        PrintHex(bs[i]);
        i := i + 1;
      }
      assert bs[..i] == bs;
    }

    /** The separator before an array element: nothing before the first, and nothing when `sep` is 0. */
    method WriteSeparator(sep: bv8, first: bool)
      requires Valid()
      modifies this`txHead, this`txTail, this`sent, this`dreInterrupt, this`written, this`portAOut, txBuffer
      ensures Valid()
      ensures TxStream() == old(TxStream()) + (if first then [] else Separator(sep))
    {
      if sep != 0 && !first {
        var _ := Write(sep);
      }
    }

    /** `println()`: the end of a line. */
    method Println()
      requires Valid()
      modifies this`txHead, this`txTail, this`sent, this`dreInterrupt, this`written, this`portAOut, txBuffer
      ensures Valid()
      ensures TxStream() == old(TxStream()) + CRLF
    {
      var _ := Write(0x0D);
      var _ := Write(0x0A);
    }

    /** Element `i` of a byte array, whose digits are `gs[i]`: its separator, then its digits. */
    method PrintHexElement(bs: seq<bv8>, i: nat, sep: bv8, ghost gs: seq<seq<bv8>>, ghost base: seq<bv8>)
      requires Valid() && i < |bs| && i < |gs| && gs[i] == HexByte(bs[i])
      requires TxStream() == base + Joined(gs[..i], sep)
      modifies this`txHead, this`txTail, this`sent, this`dreInterrupt, this`written, this`portAOut, txBuffer
      ensures Valid()
      ensures TxStream() == base + Joined(gs[..i + 1], sep)
    {
      WriteSeparator(sep, i == 0);
      PrintHex(bs[i]);
      JoinedSnoc(gs[..i], gs[i], sep);
      assert gs[..i + 1] == gs[..i] + [gs[i]];
    }

    /** Element `i` of an array of 16-bit values, whose digits are `gs[i]`: its separator, then its digits. */
    method PrintHexWordElement(ws: seq<bv16>, i: nat, sep: bv8, swaporder: bool,
                               ghost gs: seq<seq<bv8>>, ghost base: seq<bv8>)
      requires Valid() && i < |ws| && i < |gs| && gs[i] == WordDigits(ws[i], swaporder)
      requires TxStream() == base + Joined(gs[..i], sep)
      modifies this`txHead, this`txTail, this`sent, this`dreInterrupt, this`written, this`portAOut, txBuffer
      ensures Valid()
      ensures TxStream() == base + Joined(gs[..i + 1], sep)
    {
      WriteSeparator(sep, i == 0);
      PrintHexWord(ws[i], swaporder);
      JoinedSnoc(gs[..i], gs[i], sep);
      assert gs[..i + 1] == gs[..i] + [gs[i]];
    }

    /** The elements of a byte array, each after its separator. */
    method PrintHexElements(bs: seq<bv8>, sep: bv8)
      requires Valid()
      modifies this`txHead, this`txTail, this`sent, this`dreInterrupt, this`written, this`portAOut, txBuffer
      ensures Valid()
      ensures TxStream() == old(TxStream()) + Joined(ByteGroups(bs), sep)
    {
      ghost var gs := ByteGroups(bs);
      var i := 0;
      while i < |bs|
        invariant 0 <= i <= |bs| == |gs|
        invariant Valid()
        invariant TxStream() == old(TxStream()) + Joined(gs[..i], sep)
      {
        PrintHexElement(bs, i, sep, gs, old(TxStream()));
        i := i + 1;
      }
      assert gs[..i] == gs;
    }

    /**
     * `printHex` of a byte array: the digits of each byte, the separator
     * between two bytes, then the end of the line.
     */
    method PrintHexArray(bs: seq<bv8>, sep: bv8)
      requires Valid() && |bs| < 256
      modifies this`txHead, this`txTail, this`sent, this`dreInterrupt, this`written, this`portAOut, txBuffer
      ensures Valid()
      ensures TxStream() == old(TxStream()) + Joined(ByteGroups(bs), sep) + CRLF
    {
      PrintHexElements(bs, sep);
      Println();
    }

    /** The elements of an array of 16-bit values, each after its separator. */
    method PrintHexWordElements(ws: seq<bv16>, sep: bv8, swaporder: bool)
      requires Valid()
      modifies this`txHead, this`txTail, this`sent, this`dreInterrupt, this`written, this`portAOut, txBuffer
      ensures Valid()
      ensures TxStream() == old(TxStream()) + Joined(WordGroups(ws, swaporder), sep)
    {
      ghost var gs := WordGroups(ws, swaporder);
      var i := 0;
      while i < |ws|
        invariant 0 <= i <= |ws| == |gs|
        invariant Valid()
        invariant TxStream() == old(TxStream()) + Joined(gs[..i], sep)
      {
        PrintHexWordElement(ws, i, sep, swaporder, gs, old(TxStream()));
        i := i + 1;
      }
      assert gs[..i] == gs;
    }

    /**
     * `printHex` of an array of 16-bit values: each value as `printHex` of a
     * word prints it, the separator between two values, then the end of the line.
     */
    method PrintHexWordArray(ws: seq<bv16>, sep: bv8, swaporder: bool)
      requires Valid() && |ws| < 256
      modifies this`txHead, this`txTail, this`sent, this`dreInterrupt, this`written, this`portAOut, txBuffer
      ensures Valid()
      ensures TxStream() == old(TxStream()) + Joined(WordGroups(ws, swaporder), sep) + CRLF
    {
      PrintHexWordElements(ws, sep, swaporder);
      Println();
    }

    /** A 16-bit value in hexadecimal, most significant byte first unless swapped. */
    method PrintHexWord(w: bv16, swaporder: bool)
      requires Valid()
      modifies this`txHead, this`txTail, this`sent, this`dreInterrupt, this`written, this`portAOut, txBuffer
      ensures Valid()
      ensures TxStream() == old(TxStream()) + WordDigits(w, swaporder)
    {
      var order := WordOrder(w, swaporder);
      PrintHex(order[0]);
      PrintHex(order[1]);
    }

    /** A 32-bit value in hexadecimal, most significant byte first unless swapped. */
    method PrintHexLong(l: bv32, swaporder: bool)
      requires Valid()
      modifies this`txHead, this`txTail, this`sent, this`dreInterrupt, this`written, this`portAOut, txBuffer
      ensures Valid()
      ensures TxStream() == old(TxStream()) + HexBytes(LongOrder(l, swaporder))
    {
      PrintHexBytes(LongOrder(l, swaporder));
    }

    /**
     * Selects a pin set: an index below the mux count is taken, MUX_NONE
     * selects the count itself (no pins); anything else falls back to pin set
     * 0 and is refused.
     */
    method Swap(state: bv8) returns (ok: bool)
      modifies this`pinSet
      ensures ok <==> state < muxCount || state == MUX_NONE
      ensures pinSet == (if state < muxCount then state else if state == MUX_NONE then muxCount else 0)
    {
      if state < muxCount {
        pinSet := state;
        return true;
      } else if state == MUX_NONE {
        pinSet := muxCount;
        return true;
      } else {
        pinSet := 0;
      }
      return false;
    }
  }

  lemma HexBytesSnoc(bs: seq<bv8>, b: bv8)
    ensures HexBytes(bs + [b]) == HexBytes(bs) + HexByte(b)
  {
    if bs != [] {
      assert (bs + [b])[1..] == bs[1..] + [b];
      HexBytesSnoc(bs[1..], b);
    }
  }

  /**
   * The pin set whose TX pin is `tx`, for a pin pair whose RX pin follows
   * its TX pin: 128 (MUX_NONE) when both are NOT_A_PIN, 255 (NOT_A_MUX) when the
   * pins are not adjacent or no row has that TX pin.
   */
  method PinsToSwap(table: seq<PinSwap.MuxRow>, muxCount: bv8, tx: bv8, rx: bv8) returns (r: int)
    requires muxCount as int <= |table|
    ensures 0 <= r < 256
    ensures tx == PinSwap.NOT_A_PIN && rx == PinSwap.NOT_A_PIN ==> r == 128
    ensures !(tx == PinSwap.NOT_A_PIN && rx == PinSwap.NOT_A_PIN) ==>
      (rx - tx == 1 && r < muxCount as int && FirstWithTx(table, r, tx))
      || (r == 255 && (rx - tx != 1 || NoneWithTx(table, muxCount as int, tx)))
  {
    if tx == PinSwap.NOT_A_PIN && rx == PinSwap.NOT_A_PIN {
      return 128;
    }
    var d := rx - tx;
    if d == 1 {
      r := FindTx(table, muxCount as int, tx);
      if r < muxCount as int {
        return;
      }
    }
    return 255;
  }

  /** The loop of `_pins_to_swap`: the first of the first `n` rows with TX pin `tx`, or `n`. */
  method FindTx(table: seq<PinSwap.MuxRow>, n: int, tx: bv8) returns (i: int)
    requires 0 <= n <= |table|
    ensures 0 <= i <= n
    ensures i < n ==> FirstWithTx(table, i, tx)
    ensures i == n ==> NoneWithTx(table, n, tx)
  {
    i := 0;
    while i < n
      invariant i <= n
      invariant NoneWithTx(table, i, tx)
    {
      if tx == table[i].tx {
        return;
      }
      i := i + 1;
    }
  }

  /** No row before `n` has TX pin `tx`. */
  ghost predicate NoneWithTx(table: seq<PinSwap.MuxRow>, n: int, tx: bv8)
    requires n <= |table|
  {
    forall j :: 0 <= j < n ==> table[j].tx != tx
  }

  /** Row `i` is the first whose TX pin is `tx`. */
  ghost predicate FirstWithTx(table: seq<PinSwap.MuxRow>, i: int, tx: bv8)
  {
    0 <= i < |table| && table[i].tx == tx && NoneWithTx(table, i, tx)
  }
}
