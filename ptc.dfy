// The PTC capacitive-touch library: per-node field setters, suspend and
// resume, the per-node touch state machine with its compensation-capacitor
// calibration (the AVR DA branch), the singly-linked node list and the
// periodic `ptc_process` scheduler.
//
// Register writes that start or configure a conversion are hardware paths;
// the scheduler records the conversion type it asks for in `requested`.
// The user callbacks are weak no-op hooks and are not modelled.

module Ptc {

  datatype PtcStatus =
    | Success | BadPointer | BadArgument | WrongState | Error
    | CalibDone | CalibTooLow | CalibTooHigh

  datatype LibState = Idle | ConvProg | ConvCompl | ConvWcmp | ConvLp | EventWait | Suspended

  datatype NodeKind = Mutual | SelfCap | SelfCapShield

  /** The one-hot state-machine codes of a node. */
  datatype SmState =
    | NoInitCal | RecalFlt | NtLowFlt | NoTouch | NtHighFlt
    | TouchInFlt | TouchOutFlt | TouchDetect | LowPower

  /** The global state-machine tuning, shared by every node (all uint8). */
  datatype SmSettings = SmSettings(
    forceRecalDelta: nat, touchedDetectNom: nat, untouchedDetectNom: nat,
    touchedMaxNom: nat, driftUpNom: nat, driftDownNom: nat)

  const DEFAULT_SETTINGS: SmSettings := SmSettings(150, 3, 3, 200, 15, 15)

  /** The conversion type to start next; `AnyKind` means "the type of the first node". */
  datatype ConvRequest = AnyKind | OfKind(kind: NodeKind)

  // ---------------------------------------------------------------- integers

  type u8 = x: int | 0 <= x < 0x100
  type u16 = x: int | 0 <= x < 0x1_0000

  /** Unsigned 16-bit wrap-around (AVR `unsigned int` and `uint16_t`). */
  function Wrap16(x: int): (r: u16)
    ensures (x - r) % 0x1_0000 == 0
  {
    x % 0x1_0000
  }

  /** Conversion to `int16_t`: the two's-complement reading of the low 16 bits. */
  function ToInt16(x: int): (r: int)
    ensures -0x8000 <= r < 0x8000 && (x - r) % 0x1_0000 == 0
    ensures -0x8000 <= x < 0x8000 ==> r == x
  {
    (x + 0x8000) % 0x1_0000 - 0x8000
  }

  // ------------------------------------------------------------ nibble fields

  /** Replaces the high nibble of `b` by the low nibble of `v`. */
  function WithHighNibble(b: bv8, v: bv8): (r: bv8)
  {
    (b & 0x0F) | ((v & 0x0F) << 4)
  }

  /** Replaces the low nibble of `b` by the low nibble of `v`. */
  function WithLowNibble(b: bv8, v: bv8): (r: bv8)
  {
    (b & 0xF0) | (v & 0x0F)
  }

  /** Each nibble setter changes only its own nibble, and reading it back gives the value set. */
  lemma NibbleIsolation(b: bv8, v: bv8)
    ensures WithHighNibble(b, v) & 0x0F == b & 0x0F
    ensures WithHighNibble(b, v) >> 4 == v & 0x0F
    ensures WithLowNibble(b, v) & 0xF0 == b & 0xF0
    ensures WithLowNibble(b, v) & 0x0F == v & 0x0F
  {
  }

  // ------------------------------------------------------ DA calibration

  datatype Calibration = Calibration(status: PtcStatus, compCaps: u16)

  /**
   * One calibration step of the AVR DA branch: the distance of the raw
   * reading from mid-scale 0x1FF, quartered for mutual nodes and halved for
   * self-cap nodes, moves the 16-bit compensation value; a result above
   * 0x3FF is clamped to 0 (it wrapped below zero) or to 0x3FF.
   */
  function CalibrateDa(kind: NodeKind, raw: u16, cc: u16): (c: Calibration)
  {
    var high := raw > 0x1FF;
    var delta := if kind == Mutual then Dist(raw) / 4 else Dist(raw) / 2;
    var newCC :=
      if (kind == Mutual) == high then Wrap16(cc - delta) else Wrap16(cc + delta);
    if delta < 4 then Calibration(CalibDone, cc)
    else if newCC > 0x3FF then
      if newCC > 0x7FFF then Calibration(CalibTooLow, 0) else Calibration(CalibTooHigh, 0x3FF)
    else Calibration(Success, newCC)
  }

  /** Calibration either finishes without touching the capacitors or leaves them within 0..0x3FF. */
  lemma CalibrateDaBounds(kind: NodeKind, raw: u16, cc: u16)
    ensures var c := CalibrateDa(kind, raw, cc);
      && (c.status == CalibDone <==> (if kind == Mutual then Dist(raw) / 4 else Dist(raw) / 2) < 4)
      && (c.status == CalibDone ==> c.compCaps == cc)
      && (c.status != CalibDone ==> c.compCaps <= 0x3FF)
      && (c.status == CalibTooLow ==> c.compCaps == 0)
      && (c.status == CalibTooHigh ==> c.compCaps == 0x3FF)
      && c.status in {CalibDone, CalibTooLow, CalibTooHigh, Success}
  {
  }

  function Dist(raw: nat): nat
  {
    if raw > 0x1FF then raw - 0x1FF else 0x1FF - raw
  }

  /**
   * A successful step moves the capacitors toward balance: a self-cap node
   * reading above mid-scale gains compensation and one reading below loses
   * it; a mutual node does the opposite.
   */
  lemma {:induction false} CalibrateDaDirection(kind: NodeKind, raw: u16, cc: u16)
    requires cc <= 0x3FF
    requires CalibrateDa(kind, raw, cc).status == Success
    ensures var c := CalibrateDa(kind, raw, cc);
      var delta := if kind == Mutual then Dist(raw) / 4 else Dist(raw) / 2;
      if (kind == Mutual) == (raw > 0x1FF) then c.compCaps == cc - delta else c.compCaps == cc + delta
  {
    var delta := if kind == Mutual then Dist(raw) / 4 else Dist(raw) / 2;
    assert delta < 0x8000;
  }

  // -------------------------------------------------- the touch state machine

  /** A node's fields as the state machine sees them. */
  datatype Node = Node(
    kind: NodeKind, sensorData: u16, reference: u16, stateMachine: SmState,
    lastStateChange: u8, touchInTh: int, touchOutTh: int, compCaps: u16,
    error: bool, dataReady: bool, lowPower: bool)

  /** The signed 16-bit difference between the reading and the reference. */
  function Delta(n: Node): int
  {
    ToInt16(n.sensorData - n.reference)
  }

  /** The decision of one non-calibrating state: the next state, the reference drift and whether low power ends. */
  datatype Move = Move(next: SmState, drift: int, leavesLowPower: bool)

  function Decide(n: Node, s: SmSettings): (m: Move)
    requires n.stateMachine != NoInitCal
    ensures -1 <= m.drift <= 1
  {
    var d := Delta(n);
    var lsc := n.lastStateChange;
    var stay := n.stateMachine;
    match n.stateMachine
    case RecalFlt =>
      Move(if d > -150 then NoTouch else if lsc > 3 then NoInitCal else stay, 0, false)
    case NtLowFlt =>
      if d > 0 then Move(NoTouch, 0, false)
      else if d < -150 then Move(RecalFlt, 0, false)
      else if lsc > s.driftDownNom then Move(NoTouch, -1, false)
      else Move(stay, 0, false)
    case NoTouch =>
      Move(
        if d < -150 then RecalFlt
        else if d >= n.touchInTh then TouchInFlt
        else if n.reference <= 512 - s.forceRecalDelta then NoInitCal
        else if n.reference >= 512 + s.forceRecalDelta then NoInitCal
        else if d < -1 then NtLowFlt
        else if d > 1 then NtHighFlt
        else stay, 0, false)
    case NtHighFlt =>
      if d < 0 then Move(NoTouch, 0, false)
      else if d >= n.touchInTh then Move(TouchInFlt, 0, false)
      else if lsc > s.driftUpNom then Move(NoTouch, 1, false)
      else Move(stay, 0, false)
    case TouchInFlt =>
      Move(if lsc >= s.touchedDetectNom then TouchDetect else if d < n.touchInTh then NoTouch else stay, 0, false)
    case TouchOutFlt =>
      Move(if lsc >= s.untouchedDetectNom then NoTouch else if d > n.touchInTh then TouchDetect else stay, 0, false)
    case TouchDetect =>
      Move(if lsc > s.touchedMaxNom then NoInitCal else if d < n.touchOutTh then TouchOutFlt else stay, 0, false)
    case LowPower =>
      Move(
        if n.lowPower then stay else if d > n.touchInTh then TouchDetect else NoTouch,
        if d < -1 then -1 else if d > 1 then 1 else 0,
        !n.lowPower)
  }

  /** Stores the new state; the change counter restarts on a change and counts (mod 256) otherwise. */
  function Commit(n: Node, next: SmState): Node
  {
    if next != n.stateMachine then n.(stateMachine := next, lastStateChange := 0)
    else n.(lastStateChange := (n.lastStateChange + 1) % 0x100)
  }

  /** A calibration attempt that gives up: an error status, or more than ten conversions without finishing. */
  ghost predicate CalibrationFails(n: Node)
  {
    var c := CalibrateDa(n.kind, n.sensorData, n.compCaps);
    n.stateMachine == NoInitCal && c.status != CalibDone && (c.status != Success || n.lastStateChange > 10)
  }

  datatype SmOutcome = SmOutcome(node: Node, leavesLowPower: bool)

  /** `ptc_process_node_sm`: one conversion result processed by the node's state machine. */
  function NodeSm(n: Node, s: SmSettings): (r: SmOutcome)
  {
    if n.stateMachine == NoInitCal then
      var c := CalibrateDa(n.kind, n.sensorData, n.compCaps);
      var n1 := n.(compCaps := c.compCaps);
      if c.status == CalibDone then
        SmOutcome(Commit(n1.(reference := n.sensorData), if n.lowPower then LowPower else NoTouch), false)
      else if c.status != Success || n.lastStateChange > 10 then
        SmOutcome(n1.(error := true), false)
      else SmOutcome(Commit(n1, NoInitCal), false)
    else
      var m := Decide(n, s);
      SmOutcome(Commit(n.(reference := Wrap16(n.reference + m.drift)), m.next), m.leavesLowPower)
  }

  /**
   * The change counter is 0 after a change of state and one more (mod 256)
   * after a conversion that keeps the state; only a failing calibration
   * leaves state and counter as they were, marking the node as failed.
   */
  lemma StateChangeCounter(n: Node, s: SmSettings)
    ensures var r := NodeSm(n, s).node;
      if CalibrationFails(n) then
        r == n.(compCaps := r.compCaps, error := true)
      else
        && r.error == n.error
        && r.lastStateChange == (if r.stateMachine != n.stateMachine then 0 else (n.lastStateChange + 1) % 0x100)
  {
  }

  /**
   * A touch is only detected through the filters: TOUCH_DETECT is entered
   * from TOUCH_IN_FLT once `touched_detect_nom` conversions have passed,
   * from TOUCH_OUT_FLT when the delta climbs back above the touch-in
   * threshold, or from LOW_POWER when low-power mode ends with such a delta.
   */
  lemma TouchDetectEntry(n: Node, s: SmSettings)
    requires n.stateMachine != TouchDetect
    ensures NodeSm(n, s).node.stateMachine == TouchDetect <==>
      || (n.stateMachine == TouchInFlt && n.lastStateChange >= s.touchedDetectNom)
      || (n.stateMachine == TouchOutFlt && n.lastStateChange < s.untouchedDetectNom && Delta(n) > n.touchInTh)
      || (n.stateMachine == LowPower && !n.lowPower && Delta(n) > n.touchInTh)
  {
  }

  /**
   * NO_TOUCH tests its exits in priority order: a large negative delta
   * (recalibration filter), a touch, a reference outside 512 ± the
   * force-recalibration delta, then the low and high drift filters.
   */
  lemma NoTouchExits(n: Node, s: SmSettings)
    requires n.stateMachine == NoTouch
    ensures var next := NodeSm(n, s).node.stateMachine;
      var d := Delta(n);
      var outside := n.reference <= 512 - s.forceRecalDelta || n.reference >= 512 + s.forceRecalDelta;
      && (next == RecalFlt <==> d < -150)
      && (next == TouchInFlt <==> -150 <= d && d >= n.touchInTh)
      && (next == NoInitCal <==> -150 <= d < n.touchInTh && outside)
      && (next == NtLowFlt <==> -150 <= d < -1 && d < n.touchInTh && !outside)
      && (next == NtHighFlt <==> 1 < d < n.touchInTh && !outside)
      && next in {RecalFlt, TouchInFlt, NoInitCal, NtLowFlt, NtHighFlt, NoTouch}
  {
  }

  /** TOUCH_DETECT recalibrates after `touched_max_nom` conversions, or starts releasing when the delta falls below the touch-out threshold. */
  lemma TouchDetectExits(n: Node, s: SmSettings)
    requires n.stateMachine == TouchDetect
    ensures var next := NodeSm(n, s).node.stateMachine;
      && (next == NoInitCal <==> n.lastStateChange > s.touchedMaxNom)
      && (next == TouchOutFlt <==> n.lastStateChange <= s.touchedMaxNom && Delta(n) < n.touchOutTh)
      && next in {NoInitCal, TouchOutFlt, TouchDetect}
  {
  }

  /**
   * The reference only moves by one step (16-bit wrap-around): down after
   * more than `drift_down_nom` conversions in NT_LOW_FLT, up after more
   * than `drift_up_nom` in NT_HIGH_FLT, or tracking in LOW_POWER; finished
   * calibration instead sets it to the reading.
   */
  lemma ReferenceDrift(n: Node, s: SmSettings)
    ensures var r := NodeSm(n, s).node;
      r.reference != n.reference ==>
        || (n.stateMachine == NoInitCal && r.reference == n.sensorData)
        || (n.stateMachine == NtLowFlt && n.lastStateChange > s.driftDownNom && r.reference == Wrap16(n.reference - 1))
        || (n.stateMachine == NtHighFlt && n.lastStateChange > s.driftUpNom && r.reference == Wrap16(n.reference + 1))
        || (n.stateMachine == LowPower && (r.reference == Wrap16(n.reference - 1) || r.reference == Wrap16(n.reference + 1)))
  {
  }

  /** `ptc_process_measurement`: failed nodes are skipped; a fresh reading is consumed by the state machine. */
  function Measure(n: Node, s: SmSettings): (r: SmOutcome)
    ensures !n.error && n.dataReady ==> !r.node.dataReady
    ensures n.error || !n.dataReady ==> r == SmOutcome(n, false)
  {
    if n.error || !n.dataReady then SmOutcome(n, false)
    else NodeSm(n.(dataReady := false), s)
  }

  // ------------------------------------------------- the list, as written

  /** A list of distinct node identities, first to last. */
  ghost predicate Distinct(l: seq<nat>)
  {
    forall i, j :: 0 <= i < j < |l| ==> l[i] != l[j]
  }

  /** The `nextNode` links of a list. */
  function Links(l: seq<nat>): map<nat, nat>
    requires Distinct(l)
  {
    map i | 0 <= i < |l| - 1 :: l[i] := Successor(l, i)
  }

  function Successor(l: seq<nat>, i: nat): nat
    requires i + 1 < |l|
  {
    l[i + 1]
  }

  /** Where `ptc_get_last_node`'s walk stands after `k` steps from `start`. */
  function Walk(next: map<nat, nat>, start: nat, k: nat): nat
    decreases k
  {
    if k == 0 || start !in next then start else Walk(next, next[start], k - 1)
  }

  datatype Appended = Rejected | Accepted(first: nat, next: map<nat, nat>)

  /** `ptc_append_node` as written: only the current last node is refused. */
  function AppendAsWritten(l: seq<nat>, x: nat): Appended
    requires |l| > 0 ==> Distinct(l)
  {
    if |l| == 0 then Accepted(x, map[])
    else if l[|l| - 1] != x then Accepted(l[0], Links(l)[l[|l| - 1] := x])
    else Rejected
  }

  /**
   * Appending a node that is already in the list, but not last, is
   * accepted and links the last node back to it: the walk for the last
   * node then never reaches a node without successor.
   */
  lemma AppendAsWrittenCycles(k: nat)
    ensures AppendAsWritten([0, 1], 0).Accepted?
    ensures var a := AppendAsWritten([0, 1], 0); Walk(a.next, a.first, k) in a.next
  {
    var a := AppendAsWritten([0, 1], 0);
    assert a.next == map[0 := 1, 1 := 0];
    WalkStaysOnCycle(k, 0);
  }

  lemma {:induction false} WalkStaysOnCycle(k: nat, start: nat)
    requires start in {0, 1}
    ensures Walk(map[0 := 1, 1 := 0], start, k) in {0, 1}
  {
    if k > 0 {
      WalkStaysOnCycle(k - 1, if start == 0 then 1 else 0);
    }
  }

  /** The corrected append: any node already in the list is refused, so the list stays duplicate-free. */
  function AppendChecked(l: seq<nat>, x: nat): (r: seq<nat>)
  {
    if x in l then l else l + [x]
  }

  /** After a checked append the walk from the first node ends at the last node, which has no successor. */
  lemma {:induction false} AppendCheckedTerminates(l: seq<nat>, x: nat)
    requires Distinct(l)
    ensures var r := AppendChecked(l, x);
      Distinct(r) && |r| > 0 && Walk(Links(r), r[0], |r| - 1) == r[|r| - 1] && r[|r| - 1] !in Links(r)
  {
    var r := AppendChecked(l, x);
    WalkLinks(r, 0);
  }

  lemma {:induction false} WalkLinks(l: seq<nat>, i: nat)
    requires Distinct(l) && i < |l|
    ensures Walk(Links(l), l[i], |l| - 1 - i) == l[|l| - 1]
    ensures l[|l| - 1] !in Links(l)
    decreases |l| - i
  {
    if i < |l| - 1 {
      assert l[i] in Links(l) && Links(l)[l[i]] == l[i + 1];
      WalkLinks(l, i + 1);
    }
  }

  // ------------------------------------------------------------ the heap

  /** Distinct nodes, each linked to the next and the last to none. */
  ghost predicate Linked(ns: seq<CapSensor>)
    reads ns
  {
    && (forall i, j :: 0 <= i < j < |ns| ==> ns[i] != ns[j])
    && (forall i :: 0 <= i < |ns| ==> ns[i].nextNode == if i + 1 < |ns| then ns[i + 1] else null)
  }

  lemma LinkedNext(ns: seq<CapSensor>, i: nat)
    requires Linked(ns) && i < |ns|
    ensures ns[i].nextNode == if i + 1 < |ns| then ns[i + 1] else null
  {
  }

  /** Changing node fields other than `nextNode` keeps a list linked. */
  twostate lemma LinkedKept(ns: seq<CapSensor>)
    requires old(Linked(ns))
    requires forall j :: 0 <= j < |ns| ==> ns[j].nextNode == old(ns[j].nextNode)
    ensures Linked(ns)
  {
  }

  class CapSensor {
    var kind: NodeKind
    var sensorData: u16
    var reference: u16
    var stateMachine: SmState
    var lastStateChange: u8
    var touchInTh: int
    var touchOutTh: int
    var compCaps: u16
    var hwRselPresc: bv8
    var hwGainOvs: bv8
    var hwCsd: bv8
    var id: nat
    var error: bool
    var dataReady: bool
    var lowPower: bool
    var nextNode: CapSensor?

    function View(): Node
      reads this
    {
      Node(kind, sensorData, reference, stateMachine, lastStateChange,
           touchInTh, touchOutTh, compCaps, error, dataReady, lowPower)
    }

    /** A zero-initialised node structure. */
    constructor (kind: NodeKind)
      ensures View() == Node(kind, 0, 0, NoInitCal, 0, 0, 0, 0, false, false, false)
      ensures hwRselPresc == 0 && hwGainOvs == 0 && hwCsd == 0 && id == 0 && nextNode == null
    {
      this.kind := kind;
      sensorData, reference, stateMachine, lastStateChange := 0, 0, NoInitCal, 0;
      touchInTh, touchOutTh, compCaps := 0, 0, 0;
      hwRselPresc, hwGainOvs, hwCsd, id := 0, 0, 0, 0;
      error, dataReady, lowPower := false, false, false;
      nextNode := null;
    }
  }

  class PtcLib {
    /** Device constants of the PTC header: largest resistor code, default prescaler, analog gain limit. */
    const rselMax: bv8
    const prescDefault: bv8
    const gainMax: bv8

    var firstNode: CapSensor?
    var lowPowerNode: CapSensor?
    var state: LibState
    var settings: SmSettings
    var acqPeriod: nat
    var lastAcqTime: nat
    var nextConvType: ConvRequest
    /** The node types for which a conversion batch was started, in order. */
    var requested: seq<NodeKind>
    /** The nodes reachable from `firstNode`, in list order. */
    ghost var nodes: seq<CapSensor>

    ghost predicate Valid()
      reads this, nodes
    {
      && Linked(nodes)
      && firstNode == (if |nodes| == 0 then null else nodes[0])
      && (lowPowerNode != null ==> lowPowerNode in nodes)
      && lastAcqTime < 0x1_0000
    }

    constructor (rselMax: bv8, prescDefault: bv8, gainMax: bv8)
      ensures Valid() && nodes == [] && state == Idle && settings == DEFAULT_SETTINGS
      ensures acqPeriod == 20 && lastAcqTime == 0 && nextConvType == AnyKind && requested == []
      ensures this.rselMax == rselMax && this.prescDefault == prescDefault && this.gainMax == gainMax
    {
      this.rselMax, this.prescDefault, this.gainMax := rselMax, prescDefault, gainMax;
      firstNode, lowPowerNode := null, null;
      state, settings := Idle, DEFAULT_SETTINGS;
      acqPeriod, lastAcqTime, nextConvType, requested := 20, 0, AnyKind, [];
      nodes := [];
    }

    // ---------------------------------------------------------- setters

    /** A zero threshold leaves the corresponding threshold as it was. */
    method SetThresholds(node: CapSensor?, thIn: int, thOut: int) returns (status: PtcStatus)
      modifies node
      ensures node == null ==> status == BadPointer
      ensures node != null ==> (status == Success
        && node.View() == old(node.View()).(
             touchInTh := if thIn != 0 then thIn else old(node.touchInTh),
             touchOutTh := if thOut != 0 then thOut else old(node.touchOutTh)))
    {
      if node == null {
        return BadPointer;
      }
      if thIn != 0 {
        node.touchInTh := thIn;
      }
      if thOut != 0 {
        node.touchOutTh := thOut;
      }
      return Success;
    }

    /** The resistor code goes into the high nibble, and only for mutual nodes. */
    method SetResistor(node: CapSensor?, res: bv8) returns (status: PtcStatus)
      modifies node
      ensures node == null ==> status == BadPointer
      ensures node != null ==> status == (if res > rselMax || node.kind != Mutual then BadArgument else Success)
      ensures node != null ==> (node.hwRselPresc ==
        (if status == Success then WithHighNibble(old(node.hwRselPresc), res) else old(node.hwRselPresc)))
      ensures node != null ==> node.View() == old(node.View()) && node.hwGainOvs == old(node.hwGainOvs)
    {
      if node == null {
        return BadPointer;
      }
      if res > rselMax {
        return BadArgument;
      }
      var r := (res & 0x0F) << 4;
      if node.kind == Mutual {
        var presc := node.hwRselPresc & 0x0F;
        node.hwRselPresc := presc | r;
        return Success;
      }
      return BadArgument;
    }

    /** The prescaler goes into the low nibble and must lie in DEFAULT..DEFAULT+2. */
    method SetPrescaler(node: CapSensor?, presc: bv8) returns (status: PtcStatus)
      requires prescDefault <= 0xFD
      modifies node
      ensures node == null ==> status == BadPointer
      ensures node != null ==> status == (if presc > prescDefault + 2 || presc < prescDefault then BadArgument else Success)
      ensures node != null ==> (node.hwRselPresc ==
        (if status == Success then WithLowNibble(old(node.hwRselPresc), presc) else old(node.hwRselPresc)))
      ensures node != null ==> node.View() == old(node.View()) && node.hwGainOvs == old(node.hwGainOvs)
    {
      if node == null {
        return BadPointer;
      }
      if presc > prescDefault + 2 || presc < prescDefault {
        return BadArgument;
      }
      var p := presc & 0x0F;
      var r := node.hwRselPresc & 0xF0;
      node.hwRselPresc := r | p;
      return Success;
    }

    /** The analog gain is stored inverted, as `(MAX - gain) << 4` in the high nibble. */
    method SetGain(node: CapSensor?, gain: bv8) returns (status: PtcStatus)
      modifies node
      ensures node == null ==> status == BadPointer
      ensures node != null ==> status == (if gain >= gainMax then BadArgument else Success)
      ensures node != null ==> (node.hwGainOvs ==
        (if status == Success then WithHighNibble(old(node.hwGainOvs), gainMax - gain) else old(node.hwGainOvs)))
      ensures node != null ==> node.View() == old(node.View()) && node.hwRselPresc == old(node.hwRselPresc)
    {
      if node == null {
        return BadPointer;
      }
      if gain >= gainMax {
        return BadArgument;
      }
      var g := (gainMax - gain) << 4;
      var ovs := node.hwGainOvs & 0x0F;
      node.hwGainOvs := g | ovs;
      return Success;
    }

    /** The oversampling exponent (at most 6) goes into the low nibble. */
    method SetOversamples(node: CapSensor?, ovs: bv8) returns (status: PtcStatus)
      modifies node
      ensures node == null ==> status == BadPointer
      ensures node != null ==> status == (if ovs > 6 then BadArgument else Success)
      ensures node != null ==> (node.hwGainOvs ==
        (if status == Success then WithLowNibble(old(node.hwGainOvs), ovs) else old(node.hwGainOvs)))
      ensures node != null ==> node.View() == old(node.View()) && node.hwRselPresc == old(node.hwRselPresc)
    {
      if node == null {
        return BadPointer;
      }
      if ovs > 6 {
        return BadArgument;
      }
      var g := node.hwGainOvs & 0xF0;
      node.hwGainOvs := g | ovs;
      return Success;
    }

    /** The charge-share delay is at most 15. */
    method SetChargeShareDelay(node: CapSensor?, csd: bv8) returns (status: PtcStatus)
      modifies node
      ensures node == null ==> status == BadPointer
      ensures node != null ==> status == (if csd > 15 then BadArgument else Success)
      ensures node != null ==> node.hwCsd == (if status == Success then csd else old(node.hwCsd))
      ensures node != null ==> (node.View() == old(node.View())
        && node.hwRselPresc == old(node.hwRselPresc) && node.hwGainOvs == old(node.hwGainOvs))
    {
      if node == null {
        return BadPointer;
      }
      if csd > 15 {
        return BadArgument;
      }
      node.hwCsd := csd;
      return Success;
    }

    // ---------------------------------------------------- suspend / resume

    method Suspend() returns (status: PtcStatus)
      modifies this
      ensures status == (if old(state) == Idle then Success else WrongState)
      ensures state == (if old(state) == Idle then Suspended else old(state))
      ensures firstNode == old(firstNode) && lowPowerNode == old(lowPowerNode) && nodes == old(nodes)
      ensures settings == old(settings) && lastAcqTime == old(lastAcqTime) && requested == old(requested)
    {
      if state == Idle {
        state := Suspended;
        return Success;
      }
      return WrongState;
    }

    method Resume()
      modifies this
      ensures state == (if old(state) == Suspended then Idle else old(state))
      ensures firstNode == old(firstNode) && lowPowerNode == old(lowPowerNode) && nodes == old(nodes)
      ensures settings == old(settings) && lastAcqTime == old(lastAcqTime) && requested == old(requested)
    {
      if state == Suspended {
        state := Idle;
      }
    }

    // ------------------------------------------------------- the node list

    /** The last node of the list, or null for an empty list. */
    method GetLastNode() returns (last: CapSensor?)
      requires Valid()
      ensures last == (if |nodes| == 0 then null else nodes[|nodes| - 1])
    {
      if firstNode == null {
        return null;
      }
      var node: CapSensor := firstNode;
      ghost var i := 0;
      while true
        invariant Valid()
        invariant 0 <= i < |nodes| && node == nodes[i]
        decreases |nodes| - i
      {
        var next := node.nextNode;
        assert next == (if i + 1 < |nodes| then nodes[i + 1] else null);
        if next == null {
          return node;
        }
        node := next;
        i := i + 1;
      }
    }

    /** Walks the list looking for `candidate`; when it is absent, also yields the last node. */
    method FindInList(candidate: CapSensor) returns (found: bool, last: CapSensor?)
      requires Valid()
      ensures found <==> candidate in nodes
      ensures !found ==> last == (if |nodes| == 0 then null else nodes[|nodes| - 1])
    {
      if firstNode == null {
        return false, null;
      }
      var node: CapSensor := firstNode;
      ghost var i := 0;
      while true
        invariant Valid()
        invariant 0 <= i < |nodes| && node == nodes[i]
        invariant forall j :: 0 <= j < i ==> nodes[j] != candidate
        decreases |nodes| - i
      {
        if node == candidate {
          return true, node;
        }
        var next := node.nextNode;
        assert next == (if i + 1 < |nodes| then nodes[i + 1] else null);
        if next == null {
          return false, node;
        }
        node := next;
        i := i + 1;
      }
    }

    /**
     * Appends a node at the end of the list, numbering it one past the
     * last node (0 for the first). A node that is already in the list is
     * refused, so the list cannot become a cycle.
     */
    method AppendNode(newNode: CapSensor) returns (status: PtcStatus)
      requires Valid()
      requires newNode !in nodes ==> newNode.nextNode == null
      modifies this, nodes, newNode
      ensures Valid()
      ensures status == (if old(newNode in nodes) then Error else Success)
      ensures nodes == if status == Error then old(nodes) else old(nodes) + [newNode]
      ensures status == Success ==>
        newNode.id == (if |old(nodes)| == 0 then 0 else (old(nodes[|nodes| - 1].id) + 1) % 0x100)
      ensures forall i :: 0 <= i < |old(nodes)| ==> nodes[i].View() == old(nodes[i].View()) && nodes[i].id == old(nodes[i].id)
      ensures newNode.View() == old(newNode.View())
      ensures state == old(state) && settings == old(settings) && lowPowerNode == old(lowPowerNode)
      ensures lastAcqTime == old(lastAcqTime) && requested == old(requested)
    {
      var found, last := FindInList(newNode);
      if found {
        return Error;
      }
      if last == null {
        firstNode := newNode;
        newNode.id := 0;
        nodes := [newNode];
        return Success;
      }
      last.nextNode := newNode;
      newNode.id := (last.id + 1) % 0x100;
      nodes := nodes + [newNode];
      return Success;
    }

    // ------------------------------------------------- the state machine

    /** `ptc_process_calibrate` (AVR DA branch). */
    method ProcessCalibrate(node: CapSensor) returns (status: PtcStatus)
      modifies node
      ensures Calibration(status, node.compCaps) == CalibrateDa(old(node.kind), old(node.sensorData), old(node.compCaps))
      ensures node.View() == old(node.View()).(compCaps := node.compCaps)
      ensures node.nextNode == old(node.nextNode)
    {
      var rawData: int := node.sensorData;
      var delta: int;
      var newCC: int := node.compCaps;
      status := Success;
      if node.kind == Mutual {
        if rawData > 0x1FF {
          delta := (rawData - 0x1FF) / 4;
          newCC := Wrap16(newCC - delta);
        } else {
          delta := (0x1FF - rawData) / 4;
          newCC := Wrap16(newCC + delta);
        }
      } else {
        if rawData > 0x1FF {
          delta := (rawData - 0x1FF) / 2;
          newCC := Wrap16(newCC + delta);
        } else {
          delta := (0x1FF - rawData) / 2;
          newCC := Wrap16(newCC - delta);
        }
      }
      assert delta == (if node.kind == Mutual then Dist(rawData) / 4 else Dist(rawData) / 2);
      assert newCC == if (node.kind == Mutual) == (rawData > 0x1FF) then Wrap16(node.compCaps - delta) else Wrap16(node.compCaps + delta);
      if delta < 4 {
        return CalibDone;
      }
      if newCC > 0x3FF {
        if newCC > 0x7FFF {
          newCC := 0;
          status := CalibTooLow;
        } else {
          newCC := 0x3FF;
          status := CalibTooHigh;
        }
      }
      node.compCaps := newCC;
    }

    /** `ptc_process_node_sm`: processes the node's latest reading; leaving low power releases `lowPowerNode`. */
    method ProcessNodeSm(node: CapSensor)
      modifies this, node
      ensures var r := NodeSm(old(node.View()), old(settings));
        && node.View() == r.node
        && lowPowerNode == (if r.leavesLowPower then null else old(lowPowerNode))
      ensures node.nextNode == old(node.nextNode)
      ensures firstNode == old(firstNode) && nodes == old(nodes) && state == old(state) && settings == old(settings)
      ensures lastAcqTime == old(lastAcqTime) && acqPeriod == old(acqPeriod) && requested == old(requested)
      ensures nextConvType == old(nextConvType)
    {
      var nodeData := node.sensorData;
      var nodeSM := node.stateMachine;
      var lastChange: int := node.lastStateChange;
      if nodeSM == NoInitCal {
        var retVal := ProcessCalibrate(node);
        if retVal == CalibDone {
          node.reference := nodeData;
          nodeSM := if node.lowPower then LowPower else NoTouch;
        } else if retVal != Success || lastChange > 10 {
          node.error := true;
          return;
        }
      } else {
        var m := Decide(node.View(), settings);
        if m.leavesLowPower {
          lowPowerNode := null;
        }
        node.reference := Wrap16(node.reference + m.drift);
        nodeSM := m.next;
      }
      CommitState(node, nodeSM, lastChange);
    }

    /** The tail of `ptc_process_node_sm`: a new state resets the change counter, the same state counts one more. */
    static method CommitState(node: CapSensor, nodeSM: SmState, lastChange: int)
      requires lastChange == node.lastStateChange
      modifies node
      ensures node.View() == Commit(old(node.View()), nodeSM)
      ensures node.nextNode == old(node.nextNode)
    {
      if node.stateMachine != nodeSM {
        node.lastStateChange := 0;
        node.stateMachine := nodeSM;
      } else {
        node.lastStateChange := (lastChange + 1) % 0x100;
      }
    }

    /** `ptc_process_measurement`. */
    method ProcessMeasurement(node: CapSensor)
      modifies this, node
      ensures var r := Measure(old(node.View()), old(settings));
        && node.View() == r.node
        && lowPowerNode == (if r.leavesLowPower then null else old(lowPowerNode))
      ensures node.nextNode == old(node.nextNode)
      ensures firstNode == old(firstNode) && nodes == old(nodes) && state == old(state) && settings == old(settings)
      ensures lastAcqTime == old(lastAcqTime) && acqPeriod == old(acqPeriod) && requested == old(requested)
      ensures nextConvType == old(nextConvType)
    {
      if node.error {
        return;
      }
      if node.dataReady {
        node.dataReady := false;
        ProcessNodeSm(node);
      }
    }

    /** The low-power branch of `ptc_process`: the woken node's reading is processed. */
    method ProcessWake()
      requires Valid() && state in {ConvWcmp, ConvLp} && lowPowerNode != null
      modifies this, lowPowerNode
      ensures Valid() && nodes == old(nodes) && settings == old(settings)
      ensures var r := Measure(old(lowPowerNode.View()), settings);
        && old(lowPowerNode).View() == r.node
        && lowPowerNode == (if r.leavesLowPower then null else old(lowPowerNode))
        && state == (if r.leavesLowPower then Idle else EventWait)
      ensures firstNode == old(firstNode) && lastAcqTime == old(lastAcqTime) && acqPeriod == old(acqPeriod)
      ensures requested == old(requested) && nextConvType == old(nextConvType)
    {
      ghost var ns := nodes;
      assert Linked(ns);
      label before:
      ProcessMeasurement(lowPowerNode);
      LinkedKept@before(ns);
      if lowPowerNode == null {
        state := Idle;
      } else {
        state := EventWait;
      }
    }

    /** The conversion-complete branch of `ptc_process`: every node of the list, in order, processes its reading. */
    method ProcessAll()
      requires Valid()
      modifies this, nodes
      ensures Valid() && nodes == old(nodes) && settings == old(settings) && state == Idle
      ensures forall i :: 0 <= i < |nodes| ==> nodes[i].View() == Measure(old(nodes[i].View()), settings).node
      ensures firstNode == old(firstNode) && lastAcqTime == old(lastAcqTime) && acqPeriod == old(acqPeriod)
      ensures requested == old(requested) && nextConvType == old(nextConvType)
    {
      state := Idle;
      var node := firstNode;
      ghost var i := 0;
      while node != null
        invariant 0 <= i <= |nodes| && node == (if i < |nodes| then nodes[i] else null)
        invariant Valid() && nodes == old(nodes) && settings == old(settings) && state == Idle
        invariant firstNode == old(firstNode) && lastAcqTime == old(lastAcqTime) && acqPeriod == old(acqPeriod)
        invariant requested == old(requested) && nextConvType == old(nextConvType)
        invariant forall j :: 0 <= j < i ==> nodes[j].View() == Measure(old(nodes[j].View()), settings).node
        invariant forall j :: i <= j < |nodes| ==> nodes[j].View() == old(nodes[j].View())
        decreases |nodes| - i
      {
        assert Linked(nodes);
        label before:
        ProcessMeasurement(node);
        LinkedKept@before(nodes);
        LinkedNext(nodes, i);
        node := node.nextNode;
        i := i + 1;
      }
    }

    /** Starts a new batch once `acqPeriod` ms (16-bit wrap-around) have passed, if the library is idle. */
    method Schedule(currTime: nat)
      requires Valid() && currTime < 0x1_0000
      modifies this
      ensures Valid() && nodes == old(nodes) && settings == old(settings) && state == old(state)
      ensures firstNode == old(firstNode) && lowPowerNode == old(lowPowerNode)
      ensures var due := Wrap16(currTime - old(lastAcqTime)) >= old(acqPeriod);
        && lastAcqTime == (if due then Wrap16(old(lastAcqTime) + old(acqPeriod)) else old(lastAcqTime))
        && requested == old(requested) +
             (if due && state == Idle then
                (match old(nextConvType)
                 case OfKind(k) => [k]
                 case AnyKind => if firstNode == null then [] else [firstNode.kind])
              else [])
    {
      if Wrap16(currTime - lastAcqTime) >= acqPeriod {
        lastAcqTime := Wrap16(lastAcqTime + acqPeriod);
        if state == Idle {
          match nextConvType
          case OfKind(k) =>
            requested := requested + [k];
          case AnyKind =>
            if firstNode != null {
              requested := requested + [firstNode.kind];
            }
        }
      }
    }

    /**
     * `ptc_process`: hands finished conversions to the state machines and
     * asks for a new batch once `acqPeriod` ms have passed since the last one.
     */
    method Process(currTime: nat)
      requires Valid() && currTime < 0x1_0000
      modifies this, nodes
      ensures Valid() && nodes == old(nodes) && settings == old(settings)
      ensures old(state) == ConvCompl ==>
        forall i :: 0 <= i < |nodes| ==> nodes[i].View() == Measure(old(nodes[i].View()), settings).node
      ensures old(state) in {ConvWcmp, ConvLp} && old(lowPowerNode) != null ==>
        old(lowPowerNode).View() == Measure(old(lowPowerNode.View()), settings).node
      ensures !(old(state) == ConvCompl || (old(state) in {ConvWcmp, ConvLp} && old(lowPowerNode) != null)) ==>
        forall i :: 0 <= i < |nodes| ==> nodes[i].View() == old(nodes[i].View())
      ensures var mid := if old(state) == ConvCompl then Idle
          else if old(state) in {ConvWcmp, ConvLp} && old(lowPowerNode) != null then
            (if lowPowerNode == null then Idle else EventWait)
          else old(state);
        && state == mid
        && var due := Wrap16(currTime - old(lastAcqTime)) >= old(acqPeriod);
        && lastAcqTime == (if due then Wrap16(old(lastAcqTime) + old(acqPeriod)) else old(lastAcqTime))
        && requested == old(requested) +
             (if due && mid == Idle then
                (match old(nextConvType)
                 case OfKind(k) => [k]
                 case AnyKind => if old(firstNode) == null then [] else [old(firstNode.kind)])
              else [])
    {
      if (state == ConvWcmp || state == ConvLp) && lowPowerNode != null {
        ProcessWake();
      } else if state == ConvCompl {
        ProcessAll();
      }
      Schedule(currTime);
    }
  }
}
