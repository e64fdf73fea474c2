/*
 * The NVM-controller drivers of the serialupdi programming stack
 * (megaavr/tools/libs/pymcuprog/serialupdi/nvm.py and its predecessor
 * tools/libs/pymcuprog/serialupdi/nvm.py).
 *
 * Every driver turns an erase or write request into a fixed sequence of
 * transactions on the `readwrite` facade, bracketed by status polls that give
 * up after a deadline. The facade is modelled as a trace of events, the
 * STATUS register as an endless stream of answers, and the `Timeout` objects
 * as one expiry oracle: a finite sequence of answers to `expired()`, where
 * every call past its end answers "expired".
 */
module UpdiNvm {

  // ---------------------------------------------------------------------------
  // Constants (register offsets and command codes of the NVM controllers)
  // ---------------------------------------------------------------------------

  const CTRLA: nat := 0x00
  const V0_STATUS: nat := 0x02          // UPDI_NVMCTRL_STATUS
  const DATAL: nat := 0x06
  const ADDRL: nat := 0x08
  const ADDRH: nat := 0x09
  const V3_STATUS: nat := 0x06          // NVMCTRL_STATUS of the P:3/P:5 controllers

  const V0_WRITE_ERROR: bv8 := 0x04     // 1 << UPDI_NVM_STATUS_WRITE_ERROR
  const V3_WRITE_ERROR: bv8 := 0x70     // STATUS_WRITE_ERROR_bm
  const BUSY: bv8 := 0x03               // EEPROM-busy and flash-busy bits

  const FLASH_READY_MS: nat := 10000    // deadline of wait_flash_ready
  const NVM_READY_MS: nat := 100        // default deadline of wait_nvm_ready

  const V0_WRITE_PAGE: nat := 0x01
  const V0_ERASE_WRITE_PAGE: nat := 0x03
  const V0_PAGE_BUFFER_CLR: nat := 0x04
  const V0_CHIP_ERASE: nat := 0x05
  const V0_WRITE_FUSE: nat := 0x07

  const V1_NOCMD: nat := 0x00
  const V1_FLASH_WRITE: nat := 0x02
  const V1_EEPROM_ERASE_WRITE: nat := 0x13
  const V1_CHIP_ERASE: nat := 0x20

  const V3_NOCMD: nat := 0x00
  const V3_FLASH_PAGE_WRITE: nat := 0x04
  const V3_FLASH_PAGE_ERASE: nat := 0x08
  const V3_FLASH_PAGE_BUFFER_CLEAR: nat := 0x0F
  const V3_EEPROM_PAGE_ERASE_WRITE: nat := 0x15
  const V3_EEPROM_PAGE_BUFFER_CLEAR: nat := 0x1F
  const V3_CHIP_ERASE: nat := 0x20
  const V3_EEPROM_ERASE: nat := 0x30

  /** Start and end of the fuse window that P0 write_flash diverts. */
  const FUSE_WINDOW_LO: nat := 0x1280
  const FUSE_WINDOW_HI: nat := 0x128A

  // ---------------------------------------------------------------------------
  // Data model
  // ---------------------------------------------------------------------------

  /** One class per NVM-controller generation. */
  datatype Variant = Base | P0 | P2 | P3 | P4 | P5 | TinyMega | AvrDx

  /** The exceptions the drivers raise. */
  datatype Exc =
    | IOError
    | PymcuprogError
    | PlainException
    | NvmTimeout                // PymcuprogSerialUpdiNvmTimeout
    | NvmError(code: bv8)       // PymcuprogSerialUpdiNvmError(code = status >> 4)
    | NameError                 // an unqualified call to a method name
    | IndexError
    | NotImplemented

  datatype Outcome = Ok | Raised(exc: Exc)

  /** Whether write_data_words was given an explicit block size. */
  datatype Blocksize = DefaultBlocks | Blocks(n: nat)

  /**
   * What a driver does on the readwrite facade, in order. A StatusPoll is
   * one run of wait_flash_ready or wait_nvm_ready: a new Timeout with the
   * deadline, then reads of the STATUS register at addr until the loop ends
   * (their number is counted in Bus.polled).
   */
  datatype Event =
    | StatusPoll(addr: nat, deadline: nat)
    | WriteByte(addr: nat, value: nat)
    | WriteData(addr: nat, data: seq<nat>)
    | WriteDataWords(addr: nat, data: seq<nat>, blocks: Blocksize)
    | Pause(ms: nat)

  /**
   * What a driver has done so far: its trace, and how many answers of the
   * expiry oracle and of the STATUS register it has used.
   */
  datatype Bus = Bus(trace: seq<Event>, ticks: nat, polled: nat)

  /** The STATUS answers, the expiry answers and the controller address. */
  datatype Env = Env(feed: nat -> bv8, expiry: seq<bool>, nvmctrl: nat)

  datatype WaitResult = Ready | Failed(status: bv8) | Expired

  /** A poll loop: STATUS reads made, expiry answers used, and its result. */
  datatype Poll = Poll(polled: nat, ticks: nat, result: WaitResult)

  datatype Waited = Waited(bus: Bus, result: WaitResult)

  datatype Step = Step(outcome: Outcome, bus: Bus)

  // ---------------------------------------------------------------------------
  // Status polling
  // ---------------------------------------------------------------------------

  /** The status carries one of the error bits the driver checks. */
  predicate HasError(s: bv8, errorMask: bv8)
  {
    s & errorMask != 0
  }

  /** Neither the flash-busy nor the EEPROM-busy bit is set. */
  predicate Idle(s: bv8)
  {
    s & BUSY == 0
  }

  /** A status that keeps the poll loop going: no error bit, some busy bit. */
  predicate KeepsPolling(s: bv8, errorMask: bv8)
  {
    !HasError(s, errorMask) && !Idle(s)
  }

  /** The answer of the t-th call of expired(); past the end of the oracle it is always yes. */
  predicate TimedOut(expiry: seq<bool>, t: nat)
  {
    t >= |expiry| || expiry[t]
  }

  /**
   * The poll loop shared by wait_flash_ready and wait_nvm_ready, from expiry
   * answer t and STATUS answer k on: while the deadline has not expired,
   * read STATUS; an error bit ends the loop as a failure, a status with
   * neither busy bit ends it as ready.
   */
  function PollStatus(expiry: seq<bool>, t: nat, feed: nat -> bv8, k: nat, errorMask: bv8): (p: Poll)
    ensures p.ticks == p.polled + (if p.result == Expired then 1 else 0)
    ensures p.result != Expired ==> p.polled > 0
    decreases |expiry| - t
  {
    if TimedOut(expiry, t) then Poll(0, 1, Expired)
    else if HasError(feed(k), errorMask) then Poll(1, 1, Failed(feed(k)))
    else if Idle(feed(k)) then Poll(1, 1, Ready)
    else
      var p := PollStatus(expiry, t + 1, feed, k + 1, errorMask);
      Poll(p.polled + 1, p.ticks + 1, p.result)
  }

  /** The expiry answers t .. t + i are all "not yet". */
  predicate Running(expiry: seq<bool>, t: nat, i: nat)
  {
    forall j :: t <= j <= t + i ==> !TimedOut(expiry, j)
  }

  /** The statuses read at positions k .. k + i - 1 all keep the loop going. */
  predicate BusyRun(feed: nat -> bv8, k: nat, i: nat, errorMask: bv8)
  {
    forall j :: k <= j < k + i ==> KeepsPolling(feed(j), errorMask)
  }

  /** The i-th poll decides: it is read before the deadline after i busy ones. */
  predicate DecidesAt(expiry: seq<bool>, t: nat, feed: nat -> bv8, k: nat, errorMask: bv8, i: nat)
  {
    Running(expiry, t, i) && BusyRun(feed, k, i, errorMask) && !KeepsPolling(feed(k + i), errorMask)
  }

  lemma DecidesAtNext(expiry: seq<bool>, t: nat, feed: nat -> bv8, k: nat, errorMask: bv8, i: nat)
    requires !TimedOut(expiry, t) && KeepsPolling(feed(k), errorMask)
    ensures DecidesAt(expiry, t, feed, k, errorMask, i + 1) <==> DecidesAt(expiry, t + 1, feed, k + 1, errorMask, i)
  {
    assert feed(k + (i + 1)) == feed(k + 1 + i);
    if DecidesAt(expiry, t + 1, feed, k + 1, errorMask, i) {
      assert Running(expiry, t, i + 1) by {
        forall j | t <= j <= t + (i + 1) ensures !TimedOut(expiry, j) {
          if j > t { assert t + 1 <= j <= t + 1 + i; }
        }
      }
      assert BusyRun(feed, k, i + 1, errorMask) by {
        forall j | k <= j < k + (i + 1) ensures KeepsPolling(feed(j), errorMask) {
          if j > k { assert k + 1 <= j < k + 1 + i; }
        }
      }
    }
  }

  lemma DecidesAtZero(expiry: seq<bool>, t: nat, feed: nat -> bv8, k: nat, errorMask: bv8)
    ensures DecidesAt(expiry, t, feed, k, errorMask, 0) <==> !TimedOut(expiry, t) && !KeepsPolling(feed(k), errorMask)
  {
    assert feed(k + 0) == feed(k);
    if !TimedOut(expiry, t) {
      assert Running(expiry, t, 0) by {
        forall j | t <= j <= t + 0 ensures !TimedOut(expiry, j) { assert j == t; }
      }
    }
  }

  /** A deciding poll lies before the deadline, and only the first status can decide at once. */
  lemma DecidesAtFirst(expiry: seq<bool>, t: nat, feed: nat -> bv8, k: nat, errorMask: bv8, i: nat)
    requires DecidesAt(expiry, t, feed, k, errorMask, i)
    ensures !TimedOut(expiry, t) && (i > 0 <==> KeepsPolling(feed(k), errorMask))
  {
    assert t <= t <= t + i;
    if i > 0 { assert k <= k < k + i; } else { assert feed(k + 0) == feed(k); }
  }

  /**
   * The loop ends at the first deciding poll: when some poll i decides, the
   * loop reads exactly i + 1 statuses and reports on the last one; when none
   * does, it reports Expired.
   */
  lemma {:induction false} PollDecides(expiry: seq<bool>, t: nat, feed: nat -> bv8, k: nat, errorMask: bv8)
    ensures var p := PollStatus(expiry, t, feed, k, errorMask);
      p.result != Expired <==> exists i: nat :: DecidesAt(expiry, t, feed, k, errorMask, i)
    ensures var p := PollStatus(expiry, t, feed, k, errorMask);
      forall i: nat :: DecidesAt(expiry, t, feed, k, errorMask, i) ==>
        p.polled == i + 1 &&
        p.result == (if HasError(feed(k + i), errorMask) then Failed(feed(k + i)) else Ready)
    decreases |expiry| - t
  {
    DecidesAtZero(expiry, t, feed, k, errorMask);
    forall i: nat | DecidesAt(expiry, t, feed, k, errorMask, i)
      ensures !TimedOut(expiry, t) && (i > 0 <==> KeepsPolling(feed(k), errorMask))
    {
      DecidesAtFirst(expiry, t, feed, k, errorMask, i);
    }
    if TimedOut(expiry, t) {
    } else if !KeepsPolling(feed(k), errorMask) {
      assert feed(k + 0) == feed(k);
    } else {
      var t1, k1 := t + 1, k + 1;
      PollDecides(expiry, t1, feed, k1, errorMask);
      forall i: nat | DecidesAt(expiry, t, feed, k, errorMask, i)
        ensures i > 0 && DecidesAt(expiry, t1, feed, k1, errorMask, i - 1)
      {
        DecidesAtNext(expiry, t, feed, k, errorMask, i - 1);
        assert feed(k1 + (i - 1)) == feed(k + i);
      }
      forall i: nat | DecidesAt(expiry, t1, feed, k1, errorMask, i)
        ensures DecidesAt(expiry, t, feed, k, errorMask, i + 1)
      {
        DecidesAtNext(expiry, t, feed, k, errorMask, i);
      }
    }
  }

  /**
   * Ready exactly when, before the deadline, the statuses read are busy up
   * to one with no error bit and no busy bit.
   */
  lemma PollReadyIff(expiry: seq<bool>, t: nat, feed: nat -> bv8, k: nat, errorMask: bv8)
    ensures PollStatus(expiry, t, feed, k, errorMask).result == Ready <==>
      exists i: nat :: DecidesAt(expiry, t, feed, k, errorMask, i) && !HasError(feed(k + i), errorMask)
  {
    PollDecides(expiry, t, feed, k, errorMask);
  }

  /**
   * Failed(s) exactly when, before the deadline, the statuses read are busy
   * up to s, which carries an error bit.
   */
  lemma PollFailedIff(expiry: seq<bool>, t: nat, feed: nat -> bv8, k: nat, errorMask: bv8, s: bv8)
    ensures PollStatus(expiry, t, feed, k, errorMask).result == Failed(s) <==>
      exists i: nat :: DecidesAt(expiry, t, feed, k, errorMask, i) && HasError(feed(k + i), errorMask) && feed(k + i) == s
  {
    PollDecides(expiry, t, feed, k, errorMask);
  }

  // ---------------------------------------------------------------------------
  // Facade transactions
  // ---------------------------------------------------------------------------

  /** A poll: the loop runs on from the bus's position in both oracles. */
  function Wait(e: Env, b: Bus, addr: nat, errorMask: bv8, deadline: nat): Waited
  {
    var p := PollStatus(e.expiry, b.ticks, e.feed, b.polled, errorMask);
    Waited(Bus(b.trace + [StatusPoll(addr, deadline)], b.ticks + p.ticks, b.polled + p.polled), p.result)
  }

  /** wait_flash_ready: flash-busy and EEPROM-busy, WRITE_ERROR, 10 s. */
  function WaitFlash(e: Env, b: Bus): Waited
  {
    Wait(e, b, e.nvmctrl + V0_STATUS, V0_WRITE_ERROR, FLASH_READY_MS)
  }

  /** wait_nvm_ready of P3/P5: busy bits, the three error bits, 100 ms. */
  function WaitNvm(e: Env, b: Bus): Waited
  {
    Wait(e, b, e.nvmctrl + V3_STATUS, V3_WRITE_ERROR, NVM_READY_MS)
  }

  function FlashPoll(e: Env): Event
  {
    StatusPoll(e.nvmctrl + V0_STATUS, FLASH_READY_MS)
  }

  function NvmPoll(e: Env): Event
  {
    StatusPoll(e.nvmctrl + V3_STATUS, NVM_READY_MS)
  }

  /** A facade call other than a STATUS poll. */
  function Emit(b: Bus, e: Event): Bus
  {
    b.(trace := b.trace + [e])
  }

  function EmitAll(b: Bus, es: seq<Event>): (r: Bus)
    ensures r.trace == b.trace + es && r.ticks == b.ticks && r.polled == b.polled
    decreases |es|
  {
    if es == [] then b
    else
      var r := EmitAll(Emit(b, es[0]), es[1..]);
      assert b.trace + [es[0]] + es[1..] == b.trace + es;
      r
  }

  /** A write of a command to CTRLA. */
  function Ctrl(e: Env, cmd: nat): Event
  {
    WriteByte(e.nvmctrl + CTRLA, cmd)
  }

  function Command(e: Env, b: Bus, cmd: nat): Bus
  {
    Emit(b, Ctrl(e, cmd))
  }

  /** The page-buffer load: word or byte access. */
  function Load(address: nat, data: seq<nat>, useWordAccess: bool, blocks: Blocksize): Event
  {
    if useWordAccess then WriteDataWords(address, data, blocks) else WriteData(address, data)
  }

  /** How a failed wait_nvm_ready surfaces in the P:3/P:5 drivers. */
  function V3Exception(r: WaitResult): Exc
  {
    if r.Failed? then NvmError(r.status >> 4) else NvmTimeout
  }

  // ---------------------------------------------------------------------------
  // Operations as values
  // ---------------------------------------------------------------------------

  /** chip_erase of P0, P2, P4, TinyMega and AvrDx: wait, command, wait. */
  function ChipEraseLegacySpec(e: Env, b: Bus, cmd: nat, exc: Exc): Step
  {
    var w1 := WaitFlash(e, b);
    if w1.result != Ready then Step(Raised(exc), w1.bus)
    else
      var w2 := WaitFlash(e, Command(e, w1.bus, cmd));
      if w2.result != Ready then Step(Raised(exc), w2.bus) else Step(Ok, w2.bus)
  }

  /**
   * chip_erase, erase_flash_page and erase_eeprom of P3/P5: wait, the
   * events in pre, command, wait, then NOCMD unless the wait raised an NVM
   * error, then the timeout if the wait timed out.
   */
  function EraseV3Spec(e: Env, b: Bus, pre: seq<Event>, cmd: nat): Step
  {
    var w1 := WaitNvm(e, b);
    if w1.result.Failed? then Step(Raised(V3Exception(w1.result)), w1.bus)
    else if w1.result == Expired then Step(Raised(NvmTimeout), w1.bus)
    else
      var b2 := EmitAll(w1.bus, pre);
      var w3 := WaitNvm(e, Command(e, b2, cmd));
      if w3.result.Failed? then Step(Raised(V3Exception(w3.result)), w3.bus)
      else
        var b4 := Command(e, w3.bus, V3_NOCMD);
        if w3.result == Expired then Step(Raised(NvmTimeout), b4) else Step(Ok, b4)
  }

  /** write_nvm of P0 (and of TinyMega with bulkwrite 0 and no delay). */
  function WriteNvmV0Spec(e: Env, b: Bus, address: nat, data: seq<nat>, useWordAccess: bool, nvmcommand: nat,
                          blocks: Blocksize, bulkwrite: int, pagewriteDelay: int): Step
  {
    var ld := Load(address, data, useWordAccess, blocks);
    if !(bulkwrite == 0 || address == 0x8000 || address == 0x4000 || !useWordAccess) then
      CommitV0Spec(e, b, ld, nvmcommand, bulkwrite, pagewriteDelay)
    else
      var w1 := WaitFlash(e, b);
      if w1.result != Ready then Step(Raised(PymcuprogError), w1.bus)
      else
        var w2 := WaitFlash(e, Command(e, w1.bus, V0_PAGE_BUFFER_CLR));
        if w2.result != Ready then Step(Raised(PymcuprogError), w2.bus)
        else CommitV0Spec(e, w2.bus, ld, nvmcommand, bulkwrite, pagewriteDelay)
  }

  /** The second half of P0 write_nvm: load, command, pause, then the final poll unless bulkwrite is 1. */
  function CommitV0Spec(e: Env, b: Bus, ld: Event, nvmcommand: nat, bulkwrite: int, pagewriteDelay: int): Step
  {
    var b3 := Command(e, Emit(b, ld), nvmcommand);
    var b4 := if pagewriteDelay > 0 then Emit(b3, Pause(pagewriteDelay)) else b3;
    if bulkwrite == 1 then Step(Ok, b4)
    else
      var w5 := WaitFlash(e, b4);
      if w5.result != Ready then Step(Raised(PymcuprogError), w5.bus) else Step(Ok, w5.bus)
  }

  /**
   * write_flash of P0 as written: a single byte in the fuse window is meant
   * for write_fuse, but the call is not qualified with self, so it raises a
   * NameError before anything reaches the device.
   */
  function WriteFlashP0AsWritten(e: Env, b: Bus, address: nat, data: seq<nat>, blocksize: nat, bulkwrite: int,
                                 pagewriteDelay: int): Step
  {
    if |data| == 1 && FUSE_WINDOW_LO <= address <= FUSE_WINDOW_HI then Step(Raised(NameError), b)
    else WriteFlashP0Spec(e, b, address, data, blocksize, bulkwrite, pagewriteDelay)
  }

  /** write_flash of P0, with the fuse-window byte handed to write_fuse with a 2 ms delay. */
  function WriteFlashP0Spec(e: Env, b: Bus, address: nat, data: seq<nat>, blocksize: nat, bulkwrite: int,
                            pagewriteDelay: int): Step
  {
    if |data| == 1 && FUSE_WINDOW_LO <= address <= FUSE_WINDOW_HI then WriteFuseV0Spec(e, b, address, data, 2)
    else if |data| % 2 == 1 && |data| <= 256 then
      WriteNvmV0Spec(e, b, address, data, false, V0_WRITE_PAGE, Blocks(blocksize), 0, pagewriteDelay)
    else
      WriteNvmV0Spec(e, b, address, data, true, V0_WRITE_PAGE, Blocks(blocksize), bulkwrite, pagewriteDelay)
  }

  /** write_fuse of P0 (write_delay 1) and TinyMega (no delay). */
  function WriteFuseV0Spec(e: Env, b: Bus, address: nat, data: seq<nat>, writeDelay: int): Step
  {
    var w1 := WaitFlash(e, b);
    if w1.result != Ready then Step(Raised(PymcuprogError), w1.bus)
    else
      var b2 := Emit(Emit(w1.bus, WriteByte(e.nvmctrl + ADDRL, address % 256)),
                     WriteByte(e.nvmctrl + ADDRH, (address / 256) % 256));
      if |data| == 0 then Step(Raised(IndexError), b2)
      else
        var b3 := Command(e, Emit(b2, WriteByte(e.nvmctrl + DATAL, data[0] % 256)), V0_WRITE_FUSE);
        var b4 := if writeDelay > 0 then Emit(b3, Pause(writeDelay)) else b3;
        var w5 := WaitFlash(e, b4);
        if w5.result != Ready then Step(Raised(PymcuprogError), w5.bus) else Step(Ok, w5.bus)
  }

  /** write_nvm of P2/P4 (and of AvrDx with bulkwrite 0). */
  function WriteNvmV1Spec(e: Env, b: Bus, address: nat, data: seq<nat>, useWordAccess: bool, blocks: Blocksize,
                          bulkwrite: int): Step
  {
    var start := bulkwrite == 0 || address % 32768 == 0;
    var pre :=
      if !start then Waited(b, Ready)
      else
        var w1 := WaitFlash(e, b);
        if w1.result != Ready then w1 else Waited(Command(e, w1.bus, V1_FLASH_WRITE), Ready);
    if pre.result != Ready then Step(Raised(PlainException), pre.bus)
    else
      var b2 := Emit(pre.bus, Load(address, data, useWordAccess, blocks));
      if bulkwrite == 1 then Step(Ok, b2)
      else
        var w3 := WaitFlash(e, b2);
        if w3.result != Ready then Step(Raised(PlainException), w3.bus)
        else Step(Ok, Command(e, w3.bus, V1_NOCMD))
  }

  /** write_eeprom (and write_fuse) of P2/P4 and AvrDx. */
  function WriteEepromV1Spec(e: Env, b: Bus, address: nat, data: seq<nat>): Step
  {
    var w1 := WaitFlash(e, b);
    if w1.result != Ready then Step(Raised(PlainException), w1.bus)
    else
      var w2 := WaitFlash(e, Emit(Command(e, w1.bus, V1_EEPROM_ERASE_WRITE), WriteData(address, data)));
      if w2.result != Ready then Step(Raised(PlainException), w2.bus)
      else Step(Ok, Command(e, w2.bus, V1_NOCMD))
  }

  /** write_nvm of P3/P5: bulkwrite plays no part. */
  function WriteNvmV3Spec(e: Env, b: Bus, address: nat, data: seq<nat>, useWordAccess: bool, nvmcommand: nat,
                          bufferClear: nat, blocks: Blocksize): Step
  {
    var w1 := WaitNvm(e, b);
    if w1.result != Ready then Step(Raised(V3Exception(w1.result)), w1.bus)
    else
      var w2 := WaitNvm(e, Command(e, w1.bus, bufferClear));
      if w2.result != Ready then Step(Raised(V3Exception(w2.result)), w2.bus)
      else
        var w3 := WaitNvm(e, Command(e, Emit(w2.bus, Load(address, data, useWordAccess, blocks)), nvmcommand));
        if w3.result != Ready then Step(Raised(V3Exception(w3.result)), w3.bus)
        else Step(Ok, Command(e, w3.bus, V3_NOCMD))
  }

  function ChipEraseSpec(v: Variant, e: Env, b: Bus): Step
  {
    match v
    case Base => Step(Raised(NotImplemented), b)
    case P0 => ChipEraseLegacySpec(e, b, V0_CHIP_ERASE, IOError)
    case TinyMega => ChipEraseLegacySpec(e, b, V0_CHIP_ERASE, IOError)
    case P2 => ChipEraseLegacySpec(e, b, V1_CHIP_ERASE, PlainException)
    case P4 => ChipEraseLegacySpec(e, b, V1_CHIP_ERASE, PlainException)
    case AvrDx => ChipEraseLegacySpec(e, b, V1_CHIP_ERASE, PlainException)
    case P3 => EraseV3Spec(e, b, [], V3_CHIP_ERASE)
    case P5 => EraseV3Spec(e, b, [], V3_CHIP_ERASE)
  }

  function WriteFlashSpec(v: Variant, e: Env, b: Bus, address: nat, data: seq<nat>, blocksize: nat, bulkwrite: int,
                          pagewriteDelay: int): Step
  {
    match v
    case Base => Step(Raised(NotImplemented), b)
    case P0 => WriteFlashP0Spec(e, b, address, data, blocksize, bulkwrite, pagewriteDelay)
    case TinyMega => WriteNvmV0Spec(e, b, address, data, true, V0_WRITE_PAGE, DefaultBlocks, 0, 0)
    case P2 => WriteNvmV1Spec(e, b, address, data, true, Blocks(blocksize), bulkwrite)
    case P4 => WriteNvmV1Spec(e, b, address, data, true, Blocks(blocksize), bulkwrite)
    case AvrDx => WriteNvmV1Spec(e, b, address, data, true, DefaultBlocks, 0)
    case P3 => WriteNvmV3Spec(e, b, address, data, true, V3_FLASH_PAGE_WRITE, V3_FLASH_PAGE_BUFFER_CLEAR, Blocks(blocksize))
    case P5 => WriteNvmV3Spec(e, b, address, data, true, V3_FLASH_PAGE_WRITE, V3_FLASH_PAGE_BUFFER_CLEAR, Blocks(blocksize))
  }

  function WriteEepromSpec(v: Variant, e: Env, b: Bus, address: nat, data: seq<nat>): Step
  {
    match v
    case Base => Step(Raised(NotImplemented), b)
    case P0 => WriteNvmV0Spec(e, b, address, data, false, V0_ERASE_WRITE_PAGE, Blocks(2), 0, 0)
    case TinyMega => WriteNvmV0Spec(e, b, address, data, false, V0_ERASE_WRITE_PAGE, DefaultBlocks, 0, 0)
    case P2 => WriteEepromV1Spec(e, b, address, data)
    case P4 => WriteEepromV1Spec(e, b, address, data)
    case AvrDx => WriteEepromV1Spec(e, b, address, data)
    case P3 => WriteNvmV3Spec(e, b, address, data, false, V3_EEPROM_PAGE_ERASE_WRITE, V3_EEPROM_PAGE_BUFFER_CLEAR, Blocks(2))
    case P5 => WriteNvmV3Spec(e, b, address, data, false, V3_EEPROM_PAGE_ERASE_WRITE, V3_EEPROM_PAGE_BUFFER_CLEAR, Blocks(2))
  }

  function WriteFuseSpec(v: Variant, e: Env, b: Bus, address: nat, data: seq<nat>): Step
  {
    match v
    case Base => Step(Raised(NotImplemented), b)
    case P0 => WriteFuseV0Spec(e, b, address, data, 1)
    case TinyMega => WriteFuseV0Spec(e, b, address, data, 0)
    case _ => WriteEepromSpec(v, e, b, address, data)
  }

  predicate IsV3(v: Variant) { v == P3 || v == P5 }

  // ---------------------------------------------------------------------------
  // Properties of the operations
  // ---------------------------------------------------------------------------

  /**
   * Legacy chip erase: a controller that never becomes ready gets no
   * command; otherwise exactly one erase command between two polls, never
   * NOCMD; success needs both polls to see a ready controller.
   */
  lemma ChipEraseLegacyTrace(e: Env, b: Bus, cmd: nat, exc: Exc)
    ensures var s := ChipEraseLegacySpec(e, b, cmd, exc);
      var w1 := WaitFlash(e, b);
      && s.bus.trace == b.trace + (if w1.result == Ready then [FlashPoll(e), Ctrl(e, cmd), FlashPoll(e)] else [FlashPoll(e)])
      && (s.outcome == Ok <==> w1.result == Ready && WaitFlash(e, Command(e, w1.bus, cmd)).result == Ready)
      && (s.outcome != Ok ==> s.outcome == Raised(exc))
  {
  }

  /**
   * P3/P5 erase: a controller that is not ready gets nothing and the poll's
   * error is raised; otherwise pre and the command are written, and NOCMD
   * follows unless the second poll reported an NVM error, so a timed-out
   * erase still clears the command.
   */
  lemma EraseV3Trace(e: Env, b: Bus, pre: seq<Event>, cmd: nat)
    ensures var s := EraseV3Spec(e, b, pre, cmd);
      var w1 := WaitNvm(e, b);
      var w3 := WaitNvm(e, Command(e, EmitAll(w1.bus, pre), cmd));
      && (w1.result != Ready ==> s.bus.trace == b.trace + [NvmPoll(e)] && s.outcome == Raised(V3Exception(w1.result)))
      && (w1.result == Ready ==>
            s.bus.trace == b.trace + [NvmPoll(e)] + pre + [Ctrl(e, cmd), NvmPoll(e)] +
              (if w3.result.Failed? then [] else [Ctrl(e, V3_NOCMD)]) &&
            s.outcome == (if w3.result == Ready then Ok else Raised(V3Exception(w3.result))))
  {
  }

  /**
   * P3/P5 write_nvm: buffer clear, load, commit and NOCMD, each after a
   * ready controller; a failed poll stops the sequence before the next
   * write, and success needs all three polls.
   */
  lemma WriteNvmV3Trace(e: Env, b: Bus, address: nat, data: seq<nat>, useWordAccess: bool, nvmcommand: nat,
                        bufferClear: nat, blocks: Blocksize)
    ensures var s := WriteNvmV3Spec(e, b, address, data, useWordAccess, nvmcommand, bufferClear, blocks);
      var w1 := WaitNvm(e, b);
      var w2 := WaitNvm(e, Command(e, w1.bus, bufferClear));
      var ld := Load(address, data, useWordAccess, blocks);
      var w3 := WaitNvm(e, Command(e, Emit(w2.bus, ld), nvmcommand));
      var n := if w1.result != Ready then 1 else if w2.result != Ready then 3 else if w3.result != Ready then 6 else 7;
      && s.bus.trace == b.trace + [NvmPoll(e), Ctrl(e, bufferClear), NvmPoll(e), ld, Ctrl(e, nvmcommand), NvmPoll(e),
                                   Ctrl(e, V3_NOCMD)][..n]
      && (s.outcome == Ok <==> n == 7)
      && (s.outcome != Ok ==> s.outcome == Raised(V3Exception(if n == 1 then w1.result else if n == 3 then w2.result else w3.result)))
  {
    var all := [NvmPoll(e), Ctrl(e, bufferClear), NvmPoll(e), Load(address, data, useWordAccess, blocks),
                Ctrl(e, nvmcommand), NvmPoll(e), Ctrl(e, V3_NOCMD)];
    assert all[..1] == [NvmPoll(e)];
    assert all[..3] == [NvmPoll(e), Ctrl(e, bufferClear), NvmPoll(e)];
    assert all[..6] == all[..3] + [all[3], all[4], all[5]];
    assert all[..7] == all;
  }

  /**
   * P0 write_nvm: the buffer clear comes iff bulkwrite is 0, the address is
   * 0x4000 or 0x8000, or access is bytewise; load and commit are the same in
   * every mode; the final poll runs iff bulkwrite is not 1, so with
   * bulkwrite 1 nothing is checked afterwards. A failed poll ends the
   * sequence right after itself and raises.
   */
  lemma WriteNvmV0Trace(e: Env, b: Bus, address: nat, data: seq<nat>, useWordAccess: bool, nvmcommand: nat,
                        blocks: Blocksize, bulkwrite: int, pagewriteDelay: int)
    ensures var s := WriteNvmV0Spec(e, b, address, data, useWordAccess, nvmcommand, blocks, bulkwrite, pagewriteDelay);
      var prelude := bulkwrite == 0 || address == 0x8000 || address == 0x4000 || !useWordAccess;
      var ld := Load(address, data, useWordAccess, blocks);
      var delay := if pagewriteDelay > 0 then [Pause(pagewriteDelay)] else [];
      var all := (if prelude then [FlashPoll(e), Ctrl(e, V0_PAGE_BUFFER_CLR), FlashPoll(e)] else []) +
                 ([ld, Ctrl(e, nvmcommand)] + delay + (if bulkwrite != 1 then [FlashPoll(e)] else []));
      var w1 := WaitFlash(e, b);
      var w2 := WaitFlash(e, Command(e, w1.bus, V0_PAGE_BUFFER_CLR));
      var w5 := WaitFlash(e, EmitAll(if prelude then w2.bus else b, [ld, Ctrl(e, nvmcommand)] + delay));
      var n := if prelude && w1.result != Ready then 1 else if prelude && w2.result != Ready then 3 else |all|;
      && s.bus.trace == b.trace + all[..n]
      && (s.outcome == Ok <==> n == |all| && (bulkwrite != 1 ==> w5.result == Ready))
      && (s.outcome != Ok ==> s.outcome == Raised(PymcuprogError))
  {
    var prelude := bulkwrite == 0 || address == 0x8000 || address == 0x4000 || !useWordAccess;
    var ld := Load(address, data, useWordAccess, blocks);
    var w1 := WaitFlash(e, b);
    var w2 := WaitFlash(e, Command(e, w1.bus, V0_PAGE_BUFFER_CLR));
    var head := [FlashPoll(e), Ctrl(e, V0_PAGE_BUFFER_CLR), FlashPoll(e)];
    var tail := [ld, Ctrl(e, nvmcommand)] + (if pagewriteDelay > 0 then [Pause(pagewriteDelay)] else []) +
                (if bulkwrite != 1 then [FlashPoll(e)] else []);
    if !prelude {
      assert ([] + tail)[..|[] + tail|] == tail;
      WriteNvmV0Commits(e, b, address, data, useWordAccess, nvmcommand, blocks, bulkwrite, pagewriteDelay, b);
    } else if w1.result != Ready || w2.result != Ready {
      assert (head + tail)[..1] == [FlashPoll(e)];
      assert (head + tail)[..3] == head;
      WriteNvmV0Stops(e, b, address, data, useWordAccess, nvmcommand, blocks, bulkwrite, pagewriteDelay);
    } else {
      assert w2.bus.trace == b.trace + head;
      assert b.trace + head + tail == b.trace + (head + tail);
      WriteNvmV0Commits(e, b, address, data, useWordAccess, nvmcommand, blocks, bulkwrite, pagewriteDelay, w2.bus);
    }
  }

  /** WriteNvmV0Trace when a poll of the prelude does not report ready. */
  lemma WriteNvmV0Stops(e: Env, b: Bus, address: nat, data: seq<nat>, useWordAccess: bool, nvmcommand: nat,
                        blocks: Blocksize, bulkwrite: int, pagewriteDelay: int)
    requires bulkwrite == 0 || address == 0x8000 || address == 0x4000 || !useWordAccess
    requires var w1 := WaitFlash(e, b);
      w1.result != Ready || WaitFlash(e, Command(e, w1.bus, V0_PAGE_BUFFER_CLR)).result != Ready
    ensures var s := WriteNvmV0Spec(e, b, address, data, useWordAccess, nvmcommand, blocks, bulkwrite, pagewriteDelay);
      && s.bus.trace == b.trace + (if WaitFlash(e, b).result != Ready then [FlashPoll(e)]
                                   else [FlashPoll(e), Ctrl(e, V0_PAGE_BUFFER_CLR), FlashPoll(e)])
      && s.outcome == Raised(PymcuprogError)
  {
  }

  /** WriteNvmV0Trace once the prelude, if any, has passed and left the bus at pb. */
  lemma WriteNvmV0Commits(e: Env, b: Bus, address: nat, data: seq<nat>, useWordAccess: bool, nvmcommand: nat,
                          blocks: Blocksize, bulkwrite: int, pagewriteDelay: int, pb: Bus)
    requires var prelude := bulkwrite == 0 || address == 0x8000 || address == 0x4000 || !useWordAccess;
      var w1 := WaitFlash(e, b);
      var w2 := WaitFlash(e, Command(e, w1.bus, V0_PAGE_BUFFER_CLR));
      pb == (if prelude then w2.bus else b) && (prelude ==> w1.result == Ready && w2.result == Ready)
    ensures var s := WriteNvmV0Spec(e, b, address, data, useWordAccess, nvmcommand, blocks, bulkwrite, pagewriteDelay);
      var ld := Load(address, data, useWordAccess, blocks);
      var delay := if pagewriteDelay > 0 then [Pause(pagewriteDelay)] else [];
      && s.bus.trace == pb.trace + ([ld, Ctrl(e, nvmcommand)] + delay + (if bulkwrite != 1 then [FlashPoll(e)] else []))
      && (s.outcome == Ok <==> (bulkwrite != 1 ==> WaitFlash(e, EmitAll(pb, [ld, Ctrl(e, nvmcommand)] + delay)).result == Ready))
      && (s.outcome != Ok ==> s.outcome == Raised(PymcuprogError))
  {
    var ld := Load(address, data, useWordAccess, blocks);
    assert WriteNvmV0Spec(e, b, address, data, useWordAccess, nvmcommand, blocks, bulkwrite, pagewriteDelay) ==
           CommitV0Spec(e, pb, ld, nvmcommand, bulkwrite, pagewriteDelay);
    CommitV0Trace(e, pb, ld, nvmcommand, bulkwrite, pagewriteDelay);
  }

  /** CommitV0Spec: the load, the command and the pause always go out; only the final poll can fail. */
  lemma CommitV0Trace(e: Env, b: Bus, ld: Event, nvmcommand: nat, bulkwrite: int, pagewriteDelay: int)
    ensures var s := CommitV0Spec(e, b, ld, nvmcommand, bulkwrite, pagewriteDelay);
      var delay := if pagewriteDelay > 0 then [Pause(pagewriteDelay)] else [];
      && s.bus.trace == b.trace + ([ld, Ctrl(e, nvmcommand)] + delay + (if bulkwrite != 1 then [FlashPoll(e)] else []))
      && (s.outcome == Ok <==> (bulkwrite != 1 ==> WaitFlash(e, EmitAll(b, [ld, Ctrl(e, nvmcommand)] + delay)).result == Ready))
      && (s.outcome != Ok ==> s.outcome == Raised(PymcuprogError))
  {
    var b3 := Command(e, Emit(b, ld), nvmcommand);
    var b4 := if pagewriteDelay > 0 then Emit(b3, Pause(pagewriteDelay)) else b3;
    assert EmitAll(b, [ld, Ctrl(e, nvmcommand)] + (if pagewriteDelay > 0 then [Pause(pagewriteDelay)] else [])) == b4;
  }

  /**
   * P2/P4 write_nvm: FLASH_WRITE is issued iff bulkwrite is 0 or the
   * address is a multiple of 32768 (the start of a 32 KiB section); the
   * final poll and NOCMD are skipped exactly when bulkwrite is 1. A failed
   * poll ends the sequence right after itself and raises, so NOCMD never
   * follows a failed poll.
   */
  lemma WriteNvmV1Trace(e: Env, b: Bus, address: nat, data: seq<nat>, useWordAccess: bool, blocks: Blocksize,
                        bulkwrite: int)
    ensures var s := WriteNvmV1Spec(e, b, address, data, useWordAccess, blocks, bulkwrite);
      var start := bulkwrite == 0 || address % 32768 == 0;
      var ld := Load(address, data, useWordAccess, blocks);
      var all := (if start then [FlashPoll(e), Ctrl(e, V1_FLASH_WRITE)] else []) + [ld] +
                 (if bulkwrite != 1 then [FlashPoll(e), Ctrl(e, V1_NOCMD)] else []);
      var w1 := WaitFlash(e, b);
      var w3 := WaitFlash(e, Emit(if start then Command(e, w1.bus, V1_FLASH_WRITE) else b, ld));
      var n := if start && w1.result != Ready then 1 else if bulkwrite != 1 && w3.result != Ready then |all| - 1 else |all|;
      && s.bus.trace == b.trace + all[..n]
      && (s.outcome == Ok <==> n == |all|)
      && (s.outcome != Ok ==> s.outcome == Raised(PlainException))
  {
    var start := bulkwrite == 0 || address % 32768 == 0;
    var ld := Load(address, data, useWordAccess, blocks);
    var head := (if start then [FlashPoll(e), Ctrl(e, V1_FLASH_WRITE)] else []) + [ld];
    var all := head + (if bulkwrite != 1 then [FlashPoll(e), Ctrl(e, V1_NOCMD)] else []);
    if start {
      assert all[..1] == [FlashPoll(e)];
    }
    if bulkwrite != 1 {
      assert all[..|all| - 1] == head + [FlashPoll(e)];
    }
    assert all[..|all|] == all;
  }

  /**
   * write_fuse of P0 and TinyMega: ADDRL and ADDRH take the low and high
   * byte of the address, DATAL the low byte of the first data byte, then
   * WRITE_FUSE and the pause, all after a ready controller.
   */
  lemma WriteFuseV0Trace(e: Env, b: Bus, address: nat, data: seq<nat>, writeDelay: int)
    requires |data| > 0
    ensures var s := WriteFuseV0Spec(e, b, address, data, writeDelay);
      var w1 := WaitFlash(e, b);
      && (w1.result != Ready ==> s.bus.trace == b.trace + [FlashPoll(e)] && s.outcome == Raised(PymcuprogError))
      && (w1.result == Ready ==>
            s.bus.trace == b.trace + [FlashPoll(e),
              WriteByte(e.nvmctrl + ADDRL, address % 256), WriteByte(e.nvmctrl + ADDRH, (address / 256) % 256),
              WriteByte(e.nvmctrl + DATAL, data[0] % 256), Ctrl(e, V0_WRITE_FUSE)] +
              (if writeDelay > 0 then [Pause(writeDelay)] else []) + [FlashPoll(e)])
      && (s.outcome == Ok <==> w1.result == Ready && WaitFlash(e, EmitAll(w1.bus, FuseBody(e, address, data, writeDelay))).result == Ready)
      && (s.outcome != Ok ==> s.outcome == Raised(PymcuprogError))
  {
    var w1 := WaitFlash(e, b);
    if w1.result == Ready {
      var b2 := Emit(Emit(w1.bus, WriteByte(e.nvmctrl + ADDRL, address % 256)),
                     WriteByte(e.nvmctrl + ADDRH, (address / 256) % 256));
      var b3 := Command(e, Emit(b2, WriteByte(e.nvmctrl + DATAL, data[0] % 256)), V0_WRITE_FUSE);
      var b4 := if writeDelay > 0 then Emit(b3, Pause(writeDelay)) else b3;
      var r := EmitAll(w1.bus, FuseBody(e, address, data, writeDelay));
      assert b4.trace == r.trace;
      assert b4 == r;
    }
  }

  /** The events write_fuse sends between its two polls: the address, the byte, WRITE_FUSE and the pause. */
  function FuseBody(e: Env, address: nat, data: seq<nat>, writeDelay: int): seq<Event>
    requires |data| > 0
  {
    [WriteByte(e.nvmctrl + ADDRL, address % 256), WriteByte(e.nvmctrl + ADDRH, (address / 256) % 256),
     WriteByte(e.nvmctrl + DATAL, data[0] % 256), Ctrl(e, V0_WRITE_FUSE)] +
    (if writeDelay > 0 then [Pause(writeDelay)] else [])
  }

  /**
   * write_fuse with an empty data list: the address is loaded, then the
   * missing first byte raises before DATAL and the command.
   */
  lemma WriteFuseV0Empty(e: Env, b: Bus, address: nat, writeDelay: int)
    requires WaitFlash(e, b).result == Ready
    ensures var s := WriteFuseV0Spec(e, b, address, [], writeDelay);
      s.outcome == Raised(IndexError) &&
      s.bus.trace == b.trace + [FlashPoll(e), WriteByte(e.nvmctrl + ADDRL, address % 256),
                                WriteByte(e.nvmctrl + ADDRH, (address / 256) % 256)]
  {
  }

  /**
   * P0 write_flash as written never writes a single fuse-window byte: it
   * raises before any transaction, whereas the corrected write_flash hands
   * the byte to write_fuse, which loads ADDRL and ADDRH with the address.
   */
  lemma FuseWindowByteLost(e: Env, b: Bus, value: nat, blocksize: nat, bulkwrite: int, pagewriteDelay: int)
    requires WaitFlash(e, b).result == Ready
    ensures WriteFlashP0AsWritten(e, b, 0x1280, [value], blocksize, bulkwrite, pagewriteDelay) == Step(Raised(NameError), b)
    ensures var s := WriteFlashP0Spec(e, b, 0x1280, [value], blocksize, bulkwrite, pagewriteDelay);
      s.bus.trace[..|b.trace| + 5] ==
        b.trace + [FlashPoll(e), WriteByte(e.nvmctrl + ADDRL, 0x80), WriteByte(e.nvmctrl + ADDRH, 0x12),
                   WriteByte(e.nvmctrl + DATAL, value % 256), Ctrl(e, V0_WRITE_FUSE)]
  {
    WriteFuseV0Trace(e, b, 0x1280, [value], 2);
  }

  /**
   * P0 write_flash of a single byte in the fuse window: write_fuse with a
   * 2 ms delay loads ADDRL and ADDRH with the address and DATAL with the
   * byte, all after a ready controller.
   */
  lemma WriteFlashP0Fuse(e: Env, b: Bus, address: nat, data: seq<nat>, blocksize: nat, bulkwrite: int,
                         pagewriteDelay: int)
    requires |data| == 1 && FUSE_WINDOW_LO <= address <= FUSE_WINDOW_HI
    ensures var s := WriteFlashP0Spec(e, b, address, data, blocksize, bulkwrite, pagewriteDelay);
      var all := [FlashPoll(e), WriteByte(e.nvmctrl + ADDRL, address % 256), WriteByte(e.nvmctrl + ADDRH, address / 256),
                  WriteByte(e.nvmctrl + DATAL, data[0] % 256), Ctrl(e, V0_WRITE_FUSE), Pause(2), FlashPoll(e)];
      && s.bus.trace == b.trace + (if WaitFlash(e, b).result == Ready then all else all[..1])
      && (s.outcome == Ok <==>
            WaitFlash(e, b).result == Ready && WaitFlash(e, EmitAll(WaitFlash(e, b).bus, all[1..6])).result == Ready)
      && (s.outcome != Ok ==> s.outcome == Raised(PymcuprogError))
  {
    var all := [FlashPoll(e), WriteByte(e.nvmctrl + ADDRL, address % 256), WriteByte(e.nvmctrl + ADDRH, address / 256),
                WriteByte(e.nvmctrl + DATAL, data[0] % 256), Ctrl(e, V0_WRITE_FUSE), Pause(2), FlashPoll(e)];
    assert all[1..6] == FuseBody(e, address, data, 2) by {
      assert (address / 256) % 256 == address / 256;
    }
    WriteFuseV0Trace(e, b, address, data, 2);
    assert (address / 256) % 256 == address / 256;
  }

  /**
   * P0 write_flash of other data of odd length up to 256 bytes: loaded
   * bytewise with bulkwrite forced to 0, so it always gets the buffer clear
   * and the final poll. The events sent are a prefix of that sequence: all
   * of it on success, ending at the failing poll otherwise.
   */
  lemma WriteFlashP0Bytewise(e: Env, b: Bus, address: nat, data: seq<nat>, blocksize: nat, bulkwrite: int,
                             pagewriteDelay: int)
    requires !(|data| == 1 && FUSE_WINDOW_LO <= address <= FUSE_WINDOW_HI) && |data| % 2 == 1 && |data| <= 256
    ensures var s := WriteFlashP0Spec(e, b, address, data, blocksize, bulkwrite, pagewriteDelay);
      var tail := if pagewriteDelay > 0 then [Pause(pagewriteDelay)] else [];
      var all := [FlashPoll(e), Ctrl(e, V0_PAGE_BUFFER_CLR), FlashPoll(e)] +
                 ([WriteData(address, data), Ctrl(e, V0_WRITE_PAGE)] + tail + [FlashPoll(e)]);
      var t := s.bus.trace[|b.trace|..];
      && |b.trace| <= |s.bus.trace| && s.bus.trace[..|b.trace|] == b.trace && t <= all
      && (s.outcome == Ok ==> t == all)
      && (s.outcome != Ok ==> s.outcome == Raised(PymcuprogError) && |t| > 0 && t[|t| - 1] == FlashPoll(e))
  {
    WriteNvmV0Prefix(e, b, address, data, false, V0_WRITE_PAGE, Blocks(blocksize), 0, pagewriteDelay);
  }

  /**
   * P0 write_flash of even-length data, or of more than 256 bytes: loaded
   * by words with the caller's bulkwrite. The buffer clear comes with
   * bulkwrite 0 or at 0x4000 or 0x8000, and the final poll whenever
   * bulkwrite is not 1, so with bulkwrite 1 elsewhere nothing can fail. The
   * events sent are a prefix of that sequence: all of it on success, ending
   * at the failing poll otherwise.
   */
  lemma WriteFlashP0Access(e: Env, b: Bus, address: nat, data: seq<nat>, blocksize: nat, bulkwrite: int,
                           pagewriteDelay: int)
    requires !(|data| % 2 == 1 && |data| <= 256)
    ensures var s := WriteFlashP0Spec(e, b, address, data, blocksize, bulkwrite, pagewriteDelay);
      var clear := bulkwrite == 0 || address == 0x4000 || address == 0x8000;
      var tail := if pagewriteDelay > 0 then [Pause(pagewriteDelay)] else [];
      var all := (if clear then [FlashPoll(e), Ctrl(e, V0_PAGE_BUFFER_CLR), FlashPoll(e)] else []) +
                 ([WriteDataWords(address, data, Blocks(blocksize)), Ctrl(e, V0_WRITE_PAGE)] + tail +
                  (if bulkwrite != 1 then [FlashPoll(e)] else []));
      var t := s.bus.trace[|b.trace|..];
      && |b.trace| <= |s.bus.trace| && s.bus.trace[..|b.trace|] == b.trace && t <= all
      && (s.outcome == Ok ==> t == all)
      && (s.outcome != Ok ==> s.outcome == Raised(PymcuprogError) && |t| > 0 && t[|t| - 1] == FlashPoll(e))
      && (bulkwrite == 1 && !clear ==> s.outcome == Ok)
  {
    WriteNvmV0Prefix(e, b, address, data, true, V0_WRITE_PAGE, Blocks(blocksize), bulkwrite, pagewriteDelay);
  }

  /** WriteNvmV0Trace read as a prefix: the events sent end at a poll unless the write succeeded. */
  lemma WriteNvmV0Prefix(e: Env, b: Bus, address: nat, data: seq<nat>, useWordAccess: bool, nvmcommand: nat,
                         blocks: Blocksize, bulkwrite: int, pagewriteDelay: int)
    ensures var s := WriteNvmV0Spec(e, b, address, data, useWordAccess, nvmcommand, blocks, bulkwrite, pagewriteDelay);
      var prelude := bulkwrite == 0 || address == 0x8000 || address == 0x4000 || !useWordAccess;
      var delay := if pagewriteDelay > 0 then [Pause(pagewriteDelay)] else [];
      var all := (if prelude then [FlashPoll(e), Ctrl(e, V0_PAGE_BUFFER_CLR), FlashPoll(e)] else []) +
                 ([Load(address, data, useWordAccess, blocks), Ctrl(e, nvmcommand)] + delay +
                  (if bulkwrite != 1 then [FlashPoll(e)] else []));
      var t := s.bus.trace[|b.trace|..];
      && |b.trace| <= |s.bus.trace| && s.bus.trace[..|b.trace|] == b.trace && t <= all
      && (s.outcome == Ok ==> t == all)
      && (s.outcome != Ok ==> s.outcome == Raised(PymcuprogError) && |t| > 0 && t[|t| - 1] == FlashPoll(e))
      && (bulkwrite == 1 && !prelude ==> s.outcome == Ok)
  {
    WriteNvmV0Trace(e, b, address, data, useWordAccess, nvmcommand, blocks, bulkwrite, pagewriteDelay);
    var s := WriteNvmV0Spec(e, b, address, data, useWordAccess, nvmcommand, blocks, bulkwrite, pagewriteDelay);
    var prelude := bulkwrite == 0 || address == 0x8000 || address == 0x4000 || !useWordAccess;
    var delay := if pagewriteDelay > 0 then [Pause(pagewriteDelay)] else [];
    var all := (if prelude then [FlashPoll(e), Ctrl(e, V0_PAGE_BUFFER_CLR), FlashPoll(e)] else []) +
               ([Load(address, data, useWordAccess, blocks), Ctrl(e, nvmcommand)] + delay +
                (if bulkwrite != 1 then [FlashPoll(e)] else []));
    var n: nat :| n <= |all| && s.bus.trace == b.trace + all[..n];
    assert s.bus.trace[|b.trace|..] == all[..n];
  }

  /** write_eeprom of P2/P4/AvrDx: poll, EEPROM_ERASE_WRITE, data, poll, NOCMD. */
  lemma WriteEepromV1Trace(e: Env, b: Bus, address: nat, data: seq<nat>)
    ensures var s := WriteEepromV1Spec(e, b, address, data);
      var w1 := WaitFlash(e, b);
      var head := [FlashPoll(e), Ctrl(e, V1_EEPROM_ERASE_WRITE), WriteData(address, data), FlashPoll(e)];
      && (w1.result != Ready ==> s.bus.trace == b.trace + [FlashPoll(e)])
      && (w1.result == Ready && s.outcome != Ok ==> s.bus.trace == b.trace + head)
      && (s.outcome == Ok ==> s.bus.trace == b.trace + head + [Ctrl(e, V1_NOCMD)])
      && (s.outcome == Ok <==>
            w1.result == Ready && WaitFlash(e, EmitAll(w1.bus, head[1..3])).result == Ready)
      && (s.outcome != Ok ==> s.outcome == Raised(PlainException))
  {
    var w1 := WaitFlash(e, b);
    var b2 := Emit(Command(e, w1.bus, V1_EEPROM_ERASE_WRITE), WriteData(address, data));
    var r := EmitAll(w1.bus, [Ctrl(e, V1_EEPROM_ERASE_WRITE), WriteData(address, data)]);
    assert b2.trace == r.trace;
    assert b2 == r;
  }

  /** The base class implements nothing: every operation raises and touches nothing. */
  lemma BaseNotImplemented(e: Env, b: Bus, address: nat, data: seq<nat>, blocksize: nat, bulkwrite: int, delay: int)
    ensures ChipEraseSpec(Base, e, b) == Step(Raised(NotImplemented), b)
    ensures WriteFlashSpec(Base, e, b, address, data, blocksize, bulkwrite, delay) == Step(Raised(NotImplemented), b)
    ensures WriteEepromSpec(Base, e, b, address, data) == Step(Raised(NotImplemented), b)
    ensures WriteFuseSpec(Base, e, b, address, data) == Step(Raised(NotImplemented), b)
  {
  }

  /** The events after the start of a write hold the bytewise load and no word-wise load. */
  ghost predicate LoadsBytewise(t: seq<Event>, address: nat, data: seq<nat>)
  {
    WriteData(address, data) in t && forall i :: 0 <= i < |t| ==> !t[i].WriteDataWords?
  }

  lemma EepromBytewiseV0(e: Env, b: Bus, address: nat, data: seq<nat>, blocks: Blocksize)
    ensures var s := WriteNvmV0Spec(e, b, address, data, false, V0_ERASE_WRITE_PAGE, blocks, 0, 0);
      s.outcome == Ok ==> |b.trace| <= |s.bus.trace| && LoadsBytewise(s.bus.trace[|b.trace|..], address, data)
  {
    var s := WriteNvmV0Spec(e, b, address, data, false, V0_ERASE_WRITE_PAGE, blocks, 0, 0);
    if s.outcome == Ok {
      WriteNvmV0Trace(e, b, address, data, false, V0_ERASE_WRITE_PAGE, blocks, 0, 0);
      assert s.bus.trace[|b.trace|..] == [FlashPoll(e), Ctrl(e, V0_PAGE_BUFFER_CLR), FlashPoll(e), WriteData(address, data),
                                          Ctrl(e, V0_ERASE_WRITE_PAGE), FlashPoll(e)];
    }
  }

  lemma EepromBytewiseV1(e: Env, b: Bus, address: nat, data: seq<nat>)
    ensures var s := WriteEepromV1Spec(e, b, address, data);
      s.outcome == Ok ==> |b.trace| <= |s.bus.trace| && LoadsBytewise(s.bus.trace[|b.trace|..], address, data)
  {
    var s := WriteEepromV1Spec(e, b, address, data);
    if s.outcome == Ok {
      WriteEepromV1Trace(e, b, address, data);
      assert s.bus.trace[|b.trace|..] == [FlashPoll(e), Ctrl(e, V1_EEPROM_ERASE_WRITE), WriteData(address, data),
                                          FlashPoll(e), Ctrl(e, V1_NOCMD)];
    }
  }

  lemma EepromBytewiseV3(e: Env, b: Bus, address: nat, data: seq<nat>)
    ensures var s := WriteNvmV3Spec(e, b, address, data, false, V3_EEPROM_PAGE_ERASE_WRITE, V3_EEPROM_PAGE_BUFFER_CLEAR, Blocks(2));
      s.outcome == Ok ==> |b.trace| <= |s.bus.trace| && LoadsBytewise(s.bus.trace[|b.trace|..], address, data)
  {
    var s := WriteNvmV3Spec(e, b, address, data, false, V3_EEPROM_PAGE_ERASE_WRITE, V3_EEPROM_PAGE_BUFFER_CLEAR, Blocks(2));
    if s.outcome == Ok {
      WriteNvmV3Trace(e, b, address, data, false, V3_EEPROM_PAGE_ERASE_WRITE, V3_EEPROM_PAGE_BUFFER_CLEAR, Blocks(2));
      assert s.bus.trace[|b.trace|..] == [NvmPoll(e), Ctrl(e, V3_EEPROM_PAGE_BUFFER_CLEAR), NvmPoll(e), WriteData(address, data),
                                          Ctrl(e, V3_EEPROM_PAGE_ERASE_WRITE), NvmPoll(e), Ctrl(e, V3_NOCMD)];
    }
  }

  /**
   * Every generation loads EEPROM data bytewise and in one piece: a
   * successful write_eeprom has written WriteData(address, data) and no
   * word-wise load.
   */
  lemma EepromWritesBytewise(v: Variant, e: Env, b: Bus, address: nat, data: seq<nat>)
    requires v != Base
    ensures var s := WriteEepromSpec(v, e, b, address, data);
      s.outcome == Ok ==>
        WriteData(address, data) in s.bus.trace[|b.trace|..] &&
        forall i :: |b.trace| <= i < |s.bus.trace| ==> !s.bus.trace[i].WriteDataWords?
  {
    var s := WriteEepromSpec(v, e, b, address, data);
    match v
    case P0 => EepromBytewiseV0(e, b, address, data, Blocks(2));
    case TinyMega => EepromBytewiseV0(e, b, address, data, DefaultBlocks);
    case P2 => EepromBytewiseV1(e, b, address, data);
    case P4 => EepromBytewiseV1(e, b, address, data);
    case AvrDx => EepromBytewiseV1(e, b, address, data);
    case P3 => EepromBytewiseV3(e, b, address, data);
    case P5 => EepromBytewiseV3(e, b, address, data);
    if s.outcome == Ok {
      var t := s.bus.trace[|b.trace|..];
      forall i | |b.trace| <= i < |s.bus.trace|
        ensures !s.bus.trace[i].WriteDataWords?
      {
        assert s.bus.trace[i] == t[i - |b.trace|];
      }
    }
  }

  // ---------------------------------------------------------------------------
  // The driver object
  // ---------------------------------------------------------------------------

  class NvmUpdi {
    const variant: Variant
    const nvmctrl: nat
    const feed: nat -> bv8
    const expiry: seq<bool>
    var trace: seq<Event>
    var ticks: nat
    var polled: nat

    function BusState(): Bus
      reads this
    {
      Bus(trace, ticks, polled)
    }

    function Wiring(): Env
    {
      Env(feed, expiry, nvmctrl)
    }

    constructor (variant: Variant, nvmctrl: nat, feed: nat -> bv8, expiry: seq<bool>)
      ensures this.variant == variant && Wiring() == Env(feed, expiry, nvmctrl)
      ensures BusState() == Bus([], 0, 0)
    {
      this.variant := variant;
      this.nvmctrl := nvmctrl;
      this.feed := feed;
      this.expiry := expiry;
      trace := [];
      ticks := 0;
      polled := 0;
    }

    /** Timeout.expired(): the next answer of the expiry oracle. */
    method TimeoutExpired() returns (expired: bool)
      modifies this`ticks
      ensures expired == TimedOut(expiry, old(ticks))
      ensures ticks == old(ticks) + 1
      ensures trace == old(trace) && polled == old(polled)
    {
      expired := ticks >= |expiry| || expiry[ticks];
      ticks := ticks + 1;
    }

    /** readwrite.read_byte of the STATUS register: the next answer. */
    method ReadStatus() returns (status: bv8)
      modifies this`polled
      ensures status == feed(old(polled)) && polled == old(polled) + 1
      ensures trace == old(trace) && ticks == old(ticks)
    {
      status := feed(polled);
      polled := polled + 1;
    }

    /** The poll loop of wait_flash_ready and wait_nvm_ready, under a new Timeout. */
    method WaitReady(addr: nat, errorMask: bv8, deadline: nat) returns (r: WaitResult)
      modifies this`trace, this`ticks, this`polled
      ensures var p := PollStatus(expiry, old(ticks), feed, old(polled), errorMask);
        && r == p.result && polled == old(polled) + p.polled && ticks == old(ticks) + p.ticks
        && trace == old(trace) + [StatusPoll(addr, deadline)]
    {
      ghost var p0 := PollStatus(expiry, ticks, feed, polled, errorMask);
      trace := trace + [StatusPoll(addr, deadline)];
      ghost var n: nat := 0;
      while true
        invariant polled == old(polled) + n && ticks == old(ticks) + n
        invariant trace == old(trace) + [StatusPoll(addr, deadline)]
        invariant var p := PollStatus(expiry, ticks, feed, polled, errorMask);
          p0 == Poll(p.polled + n, p.ticks + n, p.result)
        decreases |expiry| - ticks
      {
        var done;
        done, r := PollOnce(errorMask);
        if done {
          return;
        }
        n := n + 1;
      }
    }

    /**
     * One pass of the poll loop: the timeout, then one STATUS read. When it
     * ends the wait, its answer is the whole poll's; otherwise the poll
     * goes on from one tick and one read later.
     */
    method PollOnce(errorMask: bv8) returns (done: bool, r: WaitResult)
      modifies this`ticks, this`polled
      ensures var p := PollStatus(expiry, old(ticks), feed, old(polled), errorMask);
        done ==> r == p.result && polled == old(polled) + p.polled && ticks == old(ticks) + p.ticks
      ensures !done ==> ticks == old(ticks) + 1 && polled == old(polled) + 1 && ticks <= |expiry|
      ensures !done ==>
        var q := PollStatus(expiry, ticks, feed, polled, errorMask);
        PollStatus(expiry, old(ticks), feed, old(polled), errorMask) == Poll(q.polled + 1, q.ticks + 1, q.result)
    {
      var expired := TimeoutExpired();
      if expired {
        return true, Expired;
      }
      var status := ReadStatus();
      if HasError(status, errorMask) {
        return true, Failed(status);
      }
      if Idle(status) {
        return true, Ready;
      }
      done, r := false, Ready;
    }

    /** wait_flash_ready: True iff STATUS showed ready before the 10 s deadline. */
    method WaitFlashReady() returns (ready: bool)
      modifies this
      ensures var w := WaitFlash(Wiring(), old(BusState()));
        BusState() == w.bus && ready == (w.result == Ready)
    {
      var r := WaitReady(nvmctrl + V0_STATUS, V0_WRITE_ERROR, FLASH_READY_MS);
      ready := r == Ready;
    }

    /**
     * wait_nvm_ready: Ready, Expired (returns False), or Failed, which the
     * source raises as an NVM error carrying status >> 4.
     */
    method WaitNvmReady() returns (r: WaitResult)
      modifies this
      ensures Waited(BusState(), r) == WaitNvm(Wiring(), old(BusState()))
    {
      r := WaitReady(nvmctrl + V3_STATUS, V3_WRITE_ERROR, NVM_READY_MS);
    }

    /** execute_nvm_command: one write of the command to CTRLA. */
    method ExecuteNvmCommand(cmd: nat)
      modifies this
      ensures BusState() == Command(Wiring(), old(BusState()), cmd)
    {
      trace := trace + [WriteByte(nvmctrl + CTRLA, cmd)];
    }

    method Put(e: Event)
      modifies this
      ensures BusState() == Emit(old(BusState()), e)
    {
      trace := trace + [e];
    }

    method ChipEraseLegacy(cmd: nat, exc: Exc) returns (outcome: Outcome)
      modifies this
      ensures Step(outcome, BusState()) == ChipEraseLegacySpec(Wiring(), old(BusState()), cmd, exc)
    {
      var ready := WaitFlashReady();
      if !ready {
        return Raised(exc);
      }
      ExecuteNvmCommand(cmd);
      ready := WaitFlashReady();
      if !ready {
        return Raised(exc);
      }
      return Ok;
    }

    method EraseV3(pre: seq<Event>, cmd: nat) returns (outcome: Outcome)
      modifies this
      ensures Step(outcome, BusState()) == EraseV3Spec(Wiring(), old(BusState()), pre, cmd)
    {
      var r := WaitNvmReady();
      if r.Failed? {
        return Raised(V3Exception(r));
      }
      if r == Expired {
        return Raised(NvmTimeout);
      }
      var i := 0;
      ghost var b1 := BusState();
      while i < |pre|
        invariant 0 <= i <= |pre|
        invariant EmitAll(BusState(), pre[i..]) == EmitAll(b1, pre)
      {
        assert pre[i..][1..] == pre[i + 1..];
        Put(pre[i]);
        i := i + 1;
      }
      ExecuteNvmCommand(cmd);
      var status := WaitNvmReady();
      if status.Failed? {
        return Raised(V3Exception(status));
      }
      ExecuteNvmCommand(V3_NOCMD);
      if status != Ready {
        return Raised(NvmTimeout);
      }
      return Ok;
    }

    method WriteNvmV0(address: nat, data: seq<nat>, useWordAccess: bool, nvmcommand: nat, blocks: Blocksize,
                      bulkwrite: int, pagewriteDelay: int) returns (outcome: Outcome)
      modifies this
      ensures Step(outcome, BusState()) ==
        WriteNvmV0Spec(Wiring(), old(BusState()), address, data, useWordAccess, nvmcommand, blocks, bulkwrite, pagewriteDelay)
    {
      if bulkwrite == 0 || address == 0x8000 || address == 0x4000 || !useWordAccess {
        var ready := WaitFlashReady();
        if !ready {
          return Raised(PymcuprogError);
        }
        ExecuteNvmCommand(V0_PAGE_BUFFER_CLR);
        ready := WaitFlashReady();
        if !ready {
          return Raised(PymcuprogError);
        }
      }
      Put(Load(address, data, useWordAccess, blocks));
      ExecuteNvmCommand(nvmcommand);
      if pagewriteDelay > 0 {
        Put(Pause(pagewriteDelay));
      }
      if bulkwrite != 1 {
        var ready := WaitFlashReady();
        if !ready {
          return Raised(PymcuprogError);
        }
      }
      return Ok;
    }

    method WriteFuseV0(address: nat, data: seq<nat>, writeDelay: int) returns (outcome: Outcome)
      modifies this
      ensures Step(outcome, BusState()) == WriteFuseV0Spec(Wiring(), old(BusState()), address, data, writeDelay)
    {
      var ready := WaitFlashReady();
      if !ready {
        return Raised(PymcuprogError);
      }
      Put(WriteByte(nvmctrl + ADDRL, address % 256));
      Put(WriteByte(nvmctrl + ADDRH, (address / 256) % 256));
      if |data| == 0 {
        return Raised(IndexError);
      }
      Put(WriteByte(nvmctrl + DATAL, data[0] % 256));
      ExecuteNvmCommand(V0_WRITE_FUSE);
      if writeDelay > 0 {
        Put(Pause(writeDelay));
      }
      ready := WaitFlashReady();
      if !ready {
        return Raised(PymcuprogError);
      }
      return Ok;
    }

    method WriteNvmV1(address: nat, data: seq<nat>, useWordAccess: bool, blocks: Blocksize, bulkwrite: int)
      returns (outcome: Outcome)
      modifies this
      ensures Step(outcome, BusState()) == WriteNvmV1Spec(Wiring(), old(BusState()), address, data, useWordAccess, blocks, bulkwrite)
    {
      if bulkwrite == 0 || address % 32768 == 0 {
        var ready := WaitFlashReady();
        if !ready {
          return Raised(PlainException);
        }
        ExecuteNvmCommand(V1_FLASH_WRITE);
      }
      Put(Load(address, data, useWordAccess, blocks));
      if bulkwrite != 1 {
        var ready := WaitFlashReady();
        if !ready {
          return Raised(PlainException);
        }
        ExecuteNvmCommand(V1_NOCMD);
      }
      return Ok;
    }

    method WriteEepromV1(address: nat, data: seq<nat>) returns (outcome: Outcome)
      modifies this
      ensures Step(outcome, BusState()) == WriteEepromV1Spec(Wiring(), old(BusState()), address, data)
    {
      var ready := WaitFlashReady();
      if !ready {
        return Raised(PlainException);
      }
      ExecuteNvmCommand(V1_EEPROM_ERASE_WRITE);
      Put(WriteData(address, data));
      ready := WaitFlashReady();
      if !ready {
        return Raised(PlainException);
      }
      ExecuteNvmCommand(V1_NOCMD);
      return Ok;
    }

    method WriteNvmV3(address: nat, data: seq<nat>, useWordAccess: bool, nvmcommand: nat, bufferClear: nat,
                      blocks: Blocksize) returns (outcome: Outcome)
      modifies this
      ensures Step(outcome, BusState()) ==
        WriteNvmV3Spec(Wiring(), old(BusState()), address, data, useWordAccess, nvmcommand, bufferClear, blocks)
    {
      var r := WaitNvmReady();
      if r != Ready {
        return Raised(V3Exception(r));
      }
      ExecuteNvmCommand(bufferClear);
      r := WaitNvmReady();
      if r != Ready {
        return Raised(V3Exception(r));
      }
      Put(Load(address, data, useWordAccess, blocks));
      ExecuteNvmCommand(nvmcommand);
      r := WaitNvmReady();
      if r != Ready {
        return Raised(V3Exception(r));
      }
      ExecuteNvmCommand(V3_NOCMD);
      return Ok;
    }

    /** chip_erase of the driver's generation. */
    method ChipErase() returns (outcome: Outcome)
      modifies this
      ensures Step(outcome, BusState()) == ChipEraseSpec(variant, Wiring(), old(BusState()))
    {
      match variant
      case Base => outcome := Raised(NotImplemented);
      case P0 => outcome := ChipEraseLegacy(V0_CHIP_ERASE, IOError);
      case TinyMega => outcome := ChipEraseLegacy(V0_CHIP_ERASE, IOError);
      case P2 => outcome := ChipEraseLegacy(V1_CHIP_ERASE, PlainException);
      case P4 => outcome := ChipEraseLegacy(V1_CHIP_ERASE, PlainException);
      case AvrDx => outcome := ChipEraseLegacy(V1_CHIP_ERASE, PlainException);
      case P3 => outcome := EraseV3([], V3_CHIP_ERASE);
      case P5 => outcome := EraseV3([], V3_CHIP_ERASE);
    }

    /** write_flash of the driver's generation (the older drivers ignore the extra arguments). */
    method WriteFlash(address: nat, data: seq<nat>, blocksize: nat, bulkwrite: int, pagewriteDelay: int)
      returns (outcome: Outcome)
      modifies this
      ensures Step(outcome, BusState()) ==
        WriteFlashSpec(variant, Wiring(), old(BusState()), address, data, blocksize, bulkwrite, pagewriteDelay)
    {
      match variant
      case Base => outcome := Raised(NotImplemented);
      case P0 =>
        if |data| == 1 && FUSE_WINDOW_LO <= address <= FUSE_WINDOW_HI {
          outcome := WriteFuseV0(address, data, 2);
        } else if |data| % 2 == 1 && |data| <= 256 {
          outcome := WriteNvmV0(address, data, false, V0_WRITE_PAGE, Blocks(blocksize), 0, pagewriteDelay);
        } else {
          outcome := WriteNvmV0(address, data, true, V0_WRITE_PAGE, Blocks(blocksize), bulkwrite, pagewriteDelay);
        }
      case TinyMega => outcome := WriteNvmV0(address, data, true, V0_WRITE_PAGE, DefaultBlocks, 0, 0);
      case P2 => outcome := WriteNvmV1(address, data, true, Blocks(blocksize), bulkwrite);
      case P4 => outcome := WriteNvmV1(address, data, true, Blocks(blocksize), bulkwrite);
      case AvrDx => outcome := WriteNvmV1(address, data, true, DefaultBlocks, 0);
      case P3 =>
        outcome := WriteNvmV3(address, data, true, V3_FLASH_PAGE_WRITE, V3_FLASH_PAGE_BUFFER_CLEAR, Blocks(blocksize));
      case P5 =>
        outcome := WriteNvmV3(address, data, true, V3_FLASH_PAGE_WRITE, V3_FLASH_PAGE_BUFFER_CLEAR, Blocks(blocksize));
    }

    /** write_eeprom of the driver's generation. */
    method WriteEeprom(address: nat, data: seq<nat>) returns (outcome: Outcome)
      modifies this
      ensures Step(outcome, BusState()) == WriteEepromSpec(variant, Wiring(), old(BusState()), address, data)
    {
      match variant
      case Base => outcome := Raised(NotImplemented);
      case P0 => outcome := WriteNvmV0(address, data, false, V0_ERASE_WRITE_PAGE, Blocks(2), 0, 0);
      case TinyMega => outcome := WriteNvmV0(address, data, false, V0_ERASE_WRITE_PAGE, DefaultBlocks, 0, 0);
      case P2 => outcome := WriteEepromV1(address, data);
      case P4 => outcome := WriteEepromV1(address, data);
      case AvrDx => outcome := WriteEepromV1(address, data);
      case P3 =>
        outcome := WriteNvmV3(address, data, false, V3_EEPROM_PAGE_ERASE_WRITE, V3_EEPROM_PAGE_BUFFER_CLEAR, Blocks(2));
      case P5 =>
        outcome := WriteNvmV3(address, data, false, V3_EEPROM_PAGE_ERASE_WRITE, V3_EEPROM_PAGE_BUFFER_CLEAR, Blocks(2));
    }

    /** write_fuse of the driver's generation. */
    method WriteFuse(address: nat, data: seq<nat>) returns (outcome: Outcome)
      modifies this
      ensures Step(outcome, BusState()) == WriteFuseSpec(variant, Wiring(), old(BusState()), address, data)
    {
      match variant
      case Base => outcome := Raised(NotImplemented);
      case P0 => outcome := WriteFuseV0(address, data, 1);
      case TinyMega => outcome := WriteFuseV0(address, data, 0);
      case _ => outcome := WriteEeprom(address, data);
    }

    /** erase_flash_page of P3/P5: a dummy 0xFF write at the page, then FLASH_PAGE_ERASE. */
    method EraseFlashPage(address: nat) returns (outcome: Outcome)
      requires IsV3(variant)
      modifies this
      ensures Step(outcome, BusState()) == EraseV3Spec(Wiring(), old(BusState()), [WriteData(address, [0xFF])], V3_FLASH_PAGE_ERASE)
    {
      outcome := EraseV3([WriteData(address, [0xFF])], V3_FLASH_PAGE_ERASE);
    }

    /** erase_eeprom of P3/P5. */
    method EraseEeprom() returns (outcome: Outcome)
      requires IsV3(variant)
      modifies this
      ensures Step(outcome, BusState()) == EraseV3Spec(Wiring(), old(BusState()), [], V3_EEPROM_ERASE)
    {
      outcome := EraseV3([], V3_EEPROM_ERASE);
    }

    /** erase_user_row of P3/P5: the user row is flash, the size is ignored. */
    method EraseUserRow(address: nat, size: nat) returns (outcome: Outcome)
      requires IsV3(variant)
      modifies this
      ensures Step(outcome, BusState()) == EraseV3Spec(Wiring(), old(BusState()), [WriteData(address, [0xFF])], V3_FLASH_PAGE_ERASE)
    {
      outcome := EraseFlashPage(address);
    }

    /** write_user_row of P3/P5: a flash page write with the default block size. */
    method WriteUserRow(address: nat, data: seq<nat>) returns (outcome: Outcome)
      requires IsV3(variant)
      modifies this
      ensures Step(outcome, BusState()) ==
        WriteNvmV3Spec(Wiring(), old(BusState()), address, data, true, V3_FLASH_PAGE_WRITE, V3_FLASH_PAGE_BUFFER_CLEAR, Blocks(2))
    {
      outcome := WriteNvmV3(address, data, true, V3_FLASH_PAGE_WRITE, V3_FLASH_PAGE_BUFFER_CLEAR, Blocks(2));
    }
  }
}
