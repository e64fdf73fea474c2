// The USART port-multiplexer helpers of the core: the per-USART pin tables,
// the read-modify-write of the PORTMUX route register, swapping to a table
// row by index and looking a row up by its TX/RX pins.

module PinSwap {

  const NOT_A_PIN: bv8 := 255
  /** Returned when no table row matches; its definition is not part of this model. */
  const NOT_A_MUX: bv8 := 255
  /** The swap number that asks for the USART to be enabled with no pins. */
  const SWAP_NO_PINS: bv8 := 255

  /** One row of a USART's pin table: the mux group code, then its TX, RX, XCK and XDIR pins. */
  datatype MuxRow = MuxRow(code: bv8, tx: bv8, rx: bv8, xck: bv8, xdir: bv8)

  /**
   * One row of the per-USART port table: the group mask of its field in the
   * route register, which route register holds it (1 for the second one),
   * how many mux options the pin table has, and the code that routes no pins.
   */
  datatype PortInfo = PortInfo(groupMask: bv8, selector: bv8, muxCount: bv8, noneCode: bv8)

  /**
   * The route register value the mux update leaves, as written: the bits
   * cleared are those of the register-selector column (0 or 1), not those of
   * the group mask, before the new code is or-ed in.
   */
  function MuxSetAsWritten(reg: bv8, port: PortInfo, code: bv8): (r: bv8)
    ensures r & code == code
    ensures r & !port.selector == (reg | code) & !port.selector
  {
    (reg & !port.selector) | code
  }

  /**
   * For every USART whose selector is 0, the as-written update clears
   * nothing: switching USART0 from its ALT1 route (code 0x01) back to the
   * default route (code 0x00) leaves the register at ALT1.
   */
  lemma MuxSetAsWrittenKeepsOldRoute()
    ensures MuxSetAsWritten(0x01, PortInfo(0x07, 0, 2, 0x03), 0x00) == 0x01
    ensures forall reg: bv8, code: bv8, mask: bv8, count: bv8, none: bv8 ::
      MuxSetAsWritten(reg, PortInfo(mask, 0, count, none), code) == reg | code
  {
  }

  /**
   * The intended update: the USART's field (its group mask) takes the new
   * code, every other bit of the register is kept.
   */
  function MuxSet(reg: bv8, port: PortInfo, code: bv8): (r: bv8)
    ensures r & port.groupMask == code & port.groupMask
    ensures r & !port.groupMask == (reg | code) & !port.groupMask
  {
    (reg & !port.groupMask) | code
  }

  /** With a code inside its group mask, the update replaces the field and nothing else. */
  lemma MuxSetReplacesField(reg: bv8, port: PortInfo, code: bv8)
    requires code & !port.groupMask == 0
    ensures MuxSet(reg, port, code) & port.groupMask == code
    ensures MuxSet(reg, port, code) & !port.groupMask == reg & !port.groupMask
  {
    var m := port.groupMask;
    assert code & !m == 0;
  }

  /** The route register the USART's field lives in, as written: both arms name the first one. */
  function MuxRegisterAsWritten(port: PortInfo): (second: bool)
    ensures !second
  {
    if port.selector == 1 then false else false
  }

  /** The intended choice: the selector 1 names the second route register. */
  function MuxRegister(port: PortInfo): (second: bool)
    ensures second <==> port.selector == 1
  {
    port.selector == 1
  }

  /** USARTs whose selector is 1 have their field updated in the wrong register as written. */
  lemma MuxRegisterAsWrittenMisses(port: PortInfo)
    requires port.selector == 1
    ensures MuxRegisterAsWritten(port) != MuxRegister(port)
  {
  }

  /** The two PORTMUX route registers that hold the USART fields. */
  class PortMux {
    var routeA: bv8
    var routeB: bv8

    constructor (a: bv8, b: bv8)
      ensures routeA == a && routeB == b
    {
      routeA, routeB := a, b;
    }

    /** One read-modify-write of the register holding the USART's field. */
    method UsartMuxSet(port: PortInfo, code: bv8)
      modifies this
      ensures MuxRegister(port) ==> routeB == MuxSet(old(routeB), port, code) && routeA == old(routeA)
      ensures !MuxRegister(port) ==> routeA == MuxSet(old(routeA), port, code) && routeB == old(routeB)
    {
      if port.selector == 1 {
        var temp := routeB;
        temp := temp & !port.groupMask;
        temp := temp | code;
        routeB := temp;
      } else {
        var temp := routeA;
        temp := temp & !port.groupMask;
        temp := temp | code;
        routeA := temp;
      }
    }

    /**
     * Selects pin set `swapNum` of the USART. The swap number 255 is answered
     * with 255 and no register is written; a number past the table falls back
     * to row 0.
     */
    method UsartSwap(pins: seq<MuxRow>, ports: seq<PortInfo>, portNum: nat, swapNum: bv8) returns (r: bv8)
      requires portNum < |ports|
      requires 0 < |pins|
      requires ports[portNum].muxCount as int <= |pins|
      modifies this
      ensures swapNum == SWAP_NO_PINS ==> r == 255 && routeA == old(routeA) && routeB == old(routeB)
      ensures swapNum != SWAP_NO_PINS ==>
        r == (if swapNum < ports[portNum].muxCount then swapNum else 0)
      ensures swapNum != SWAP_NO_PINS && MuxRegister(ports[portNum]) ==>
        routeB == MuxSet(old(routeB), ports[portNum], pins[r].code) && routeA == old(routeA)
      ensures swapNum != SWAP_NO_PINS && !MuxRegister(ports[portNum]) ==>
        routeA == MuxSet(old(routeA), ports[portNum], pins[r].code) && routeB == old(routeB)
    {
      if swapNum == SWAP_NO_PINS {
        return 255;
      }
      var muxVal: bv8;
      r := swapNum;
      if swapNum < ports[portNum].muxCount {
        muxVal := pins[swapNum].code;
      } else {
        r := 0;
        muxVal := pins[0].code;
      }
      UsartMuxSet(ports[portNum], muxVal);
    }
  }

  /** Whether row `i` of the pin table routes exactly this TX and RX pin. */
  predicate RowMatches(pins: seq<MuxRow>, i: nat, tx: bv8, rx: bv8)
    requires i < |pins|
  {
    pins[i].tx == tx && pins[i].rx == rx
  }

  /**
   * The mux code for a TX/RX pin pair: the NONE code when both are NOT_A_PIN,
   * otherwise the code of the first matching row among the USART's options,
   * NOT_A_MUX when none matches.
   */
  method UsartPins(pins: seq<MuxRow>, port: PortInfo, tx: bv8, rx: bv8) returns (code: bv8)
    requires port.muxCount as int <= |pins|
    ensures tx == NOT_A_PIN && rx == NOT_A_PIN ==> code == port.noneCode
    ensures !(tx == NOT_A_PIN && rx == NOT_A_PIN) ==>
      (exists i :: (0 <= i < port.muxCount as int && RowMatches(pins, i, tx, rx) && code == pins[i].code
                    && forall j :: 0 <= j < i ==> !RowMatches(pins, j, tx, rx)))
      || (code == NOT_A_MUX && forall i :: 0 <= i < port.muxCount as int ==> !RowMatches(pins, i, tx, rx))
  {
    if tx == NOT_A_PIN && rx == NOT_A_PIN {
      return port.noneCode;
    }
    var i := 0;
    while i < port.muxCount as int
      invariant 0 <= i <= port.muxCount as int
      invariant forall j :: 0 <= j < i ==> !RowMatches(pins, j, tx, rx)
    {
      if tx == pins[i].tx && rx == pins[i].rx {
        assert RowMatches(pins, i, tx, rx);
        return pins[i].code;
      }
      i := i + 1;
    }
    return NOT_A_MUX;
  }
}
