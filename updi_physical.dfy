// The serial transport underneath the UPDI stack: the constructor's break
// handshake, the echo-draining `send` and the bounded-retry `receive`.
//
// The serial port is an oracle: a queue of answers, one per underlying read
// call. A read asking for k bytes takes the next answer and keeps at most k
// bytes of it; once the queue is exhausted every read times out and returns
// nothing. Every call made on the port is recorded in a trace.

module UpdiPhysical {

  const UPDI_BREAK: bv8 := 0x00

  /** The retry budget `receive` starts with. */
  const RECEIVE_RETRIES: nat := 3

  datatype PortEvent =
    | PortWrite(data: seq<bv8>)
    | PortRead(requested: nat, got: seq<bv8>)

  /** What `receive` hands back, with the number of underlying reads it made. */
  datatype Received = Received(data: seq<bv8>, readCount: nat)

  /** The bytes a read asking for `k` bytes gets from the port. */
  function Answer(q: seq<seq<bv8>>, k: nat): (r: seq<bv8>)
    ensures |r| <= k
    ensures |q| == 0 ==> r == []
    ensures |q| > 0 ==> |r| <= |q[0]| && r == q[0][..|r|] && (|r| < k ==> r == q[0])
  {
    if |q| == 0 then [] else if |q[0]| <= k then q[0] else q[0][..k]
  }

  /** The answers still pending after one read. */
  function Drop(q: seq<seq<bv8>>): seq<seq<bv8>>
  {
    if |q| == 0 then [] else q[1..]
  }

  /** The answers still pending after `n` reads. */
  function DropN(q: seq<seq<bv8>>, n: nat): seq<seq<bv8>>
  {
    if n >= |q| then [] else q[n..]
  }

  lemma DropNNext(q: seq<seq<bv8>>, n: nat)
    ensures Drop(DropN(q, n)) == DropN(q, n + 1)
  {
  }

  /** The trace of `n` single-byte reads issued against the answers `q`. */
  function ReadLog(q: seq<seq<bv8>>, n: nat): (log: seq<PortEvent>)
    ensures |log| == n
  {
    if n == 0 then [] else ReadLog(q, n - 1) + [PortRead(1, Answer(DropN(q, n - 1), 1))]
  }

  /**
   * The receive loop: while bytes are still wanted and the retry budget is
   * not spent, read one byte; a byte is appended and lowers the wanted count,
   * a timed-out read lowers the budget. The budget is never restored.
   */
  function ReceiveSpec(q: seq<seq<bv8>>, size: nat, retry: nat): (r: Received)
    ensures |r.data| <= size
    ensures r.readCount <= size + retry
    decreases size + retry
  {
    if size == 0 || retry == 0 then Received([], 0)
    else
      var c := Answer(q, 1);
      var rest := ReceiveSpec(Drop(q), if |c| > 0 then size - 1 else size, if |c| > 0 then retry else retry - 1);
      Received(c + rest.data, rest.readCount + 1)
  }

  /** One pass of the receive loop: the first read's bytes, then what the rest of the call receives. */
  lemma ReceiveStep(q: seq<seq<bv8>>, size: nat, retry: nat)
    requires size > 0 && retry > 0
    ensures var c := Answer(q, 1);
      var rest := ReceiveSpec(Drop(q), if |c| > 0 then size - 1 else size, if |c| > 0 then retry else retry - 1);
      ReceiveSpec(q, size, retry) == Received(c + rest.data, rest.readCount + 1)
  {
  }

  /** Reference definition: the bytes the first `n` single-byte reads return, in order. */
  function Arrived(q: seq<seq<bv8>>, n: nat): seq<bv8>
  {
    if n == 0 then [] else Answer(q, 1) + Arrived(Drop(q), n - 1)
  }

  /** How many of the first `n` single-byte reads time out. */
  function Misses(q: seq<seq<bv8>>, n: nat): nat
  {
    if n == 0 then 0 else (if |Answer(q, 1)| == 0 then 1 else 0) + Misses(Drop(q), n - 1)
  }

  /** The received bytes are exactly those that arrived, in arrival order. */
  lemma {:induction false} ReceiveInArrivalOrder(q: seq<seq<bv8>>, size: nat, retry: nat)
    ensures var r := ReceiveSpec(q, size, retry); r.data == Arrived(q, r.readCount)
    decreases size + retry
  {
    if size > 0 && retry > 0 {
      var c := Answer(q, 1);
      ReceiveInArrivalOrder(Drop(q), if |c| > 0 then size - 1 else size, if |c| > 0 then retry else retry - 1);
    }
  }

  /**
   * Every read either delivers a byte or spends retry budget; the budget
   * is shared by the whole call, so at most `retry` reads time out, and the
   * call stops early (returning a short result) only when all of it is spent.
   */
  lemma {:induction false} ReceiveStops(q: seq<seq<bv8>>, size: nat, retry: nat)
    ensures var r := ReceiveSpec(q, size, retry);
      && r.readCount == |r.data| + Misses(q, r.readCount)
      && Misses(q, r.readCount) <= retry
      && (|r.data| == size || Misses(q, r.readCount) == retry)
    decreases size + retry
  {
    if size > 0 && retry > 0 {
      var c := Answer(q, 1);
      ReceiveStops(Drop(q), if |c| > 0 then size - 1 else size, if |c| > 0 then retry else retry - 1);
    }
  }

  /** A port that answers every read at once delivers the full `size` bytes in `size` reads. */
  lemma {:induction false} ReceiveFull(q: seq<seq<bv8>>, size: nat, retry: nat)
    requires retry > 0
    requires size <= |q|
    requires forall i :: 0 <= i < size ==> |q[i]| > 0
    ensures ReceiveSpec(q, size, retry).readCount == size
    ensures |ReceiveSpec(q, size, retry).data| == size
    decreases size
  {
    if size > 0 {
      assert |Answer(q, 1)| == 1;
      assert forall i :: 0 <= i < size - 1 ==> Drop(q)[i] == q[i + 1];
      ReceiveFull(Drop(q), size - 1, retry);
    }
  }

  class UpdiPhysicalPort {
    /** Every call made on the serial port, in order. */
    var trace: seq<PortEvent>
    /** The answers the port still holds for future reads. */
    var pending: seq<seq<bv8>>

    /** Opening the port sends exactly one break byte and drains its echo. */
    constructor (answers: seq<seq<bv8>>)
      ensures trace == [PortWrite([UPDI_BREAK]), PortRead(1, Answer(answers, 1))]
      ensures pending == Drop(answers)
    {
      trace := [];
      pending := answers;
      new;
      Send([UPDI_BREAK]);
    }

    /** One underlying read asking for `k` bytes. */
    method ReadPort(k: nat) returns (got: seq<bv8>)
      modifies this
      ensures got == Answer(old(pending), k)
      ensures pending == Drop(old(pending))
      ensures trace == old(trace) + [PortRead(k, got)]
    {
      got := Answer(pending, k);
      pending := Drop(pending);
      trace := trace + [PortRead(k, got)];
    }

    /** Writes the bytes, then reads back as many echoed bytes and discards them. */
    method Send(command: seq<bv8>)
      modifies this
      ensures trace == old(trace) + [PortWrite(command), PortRead(|command|, Answer(old(pending), |command|))]
      ensures pending == Drop(old(pending))
    {
      trace := trace + [PortWrite(command)];
      var echo := ReadPort(|command|);
    }

    /** The single-byte read of the receive loop, as the `n`-th read since the answers were `q0`. */
    method ReadOne(ghost q0: seq<seq<bv8>>, ghost t0: seq<PortEvent>, ghost n: nat) returns (character: seq<bv8>)
      requires pending == DropN(q0, n) && trace == t0 + ReadLog(q0, n)
      modifies this
      ensures character == Answer(old(pending), 1)
      ensures pending == DropN(q0, n + 1) && pending == Drop(old(pending))
      ensures trace == t0 + ReadLog(q0, n + 1)
    {
      character := ReadPort(1);
      DropNNext(q0, n);
    }

    /** Reads up to `size` bytes, one at a time, sharing three retries across the call. */
    method Receive(size: nat) returns (response: seq<bv8>)
      modifies this
      ensures response == ReceiveSpec(old(pending), size, RECEIVE_RETRIES).data
      ensures pending == DropN(old(pending), ReceiveSpec(old(pending), size, RECEIVE_RETRIES).readCount)
      ensures trace == old(trace) + ReadLog(old(pending), ReceiveSpec(old(pending), size, RECEIVE_RETRIES).readCount)
    {
      ghost var q0 := pending;
      ghost var t0 := trace;
      ghost var total := ReceiveSpec(q0, size, RECEIVE_RETRIES);
      ghost var n: nat := 0;
      response := [];
      var wanted := size;
      var retry := RECEIVE_RETRIES;
      ghost var rest := total;
      while wanted > 0 && retry > 0
        invariant pending == DropN(q0, n)
        invariant trace == t0 + ReadLog(q0, n)
        invariant rest == ReceiveSpec(pending, wanted, retry)
        invariant response + rest.data == total.data && n + rest.readCount == total.readCount
        decreases wanted + retry
      {
        ReceiveStep(pending, wanted, retry);
        var character := ReadOne(q0, t0, n);
        n := n + 1;
        if |character| > 0 {
          wanted := wanted - 1;
        } else {
          retry := retry - 1;
        }
        ghost var next := ReceiveSpec(pending, wanted, retry);
        assert rest == Received(character + next.data, next.readCount + 1);
        assert response + rest.data == (response + character) + next.data;
        response := response + character;
        rest := next;
      }
    }
  }
}
