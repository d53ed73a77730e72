/**
 * SuperSpeed link power management in drivers/usb/core/hub.c: the exit
 * latencies of a device (MEL, PEL, SEL, USB 3.0 appendix C, section C.1.5)
 * computed from its parent's, the SET_SEL request, the U1/U2 inactivity
 * timeouts, and the lpm_disable_count reference count of usb_disable_lpm /
 * usb_enable_lpm. Latencies are in ns; descriptor exit latencies in us.
 */
module HubLpm {
  import opened UsbDefs
  import opened HubPortStatus

  /** The usb3_lpm_parameters a device keeps for U1 and for U2. */
  datatype LpmParams = LpmParams(mel: nat, pel: nat, sel: nat)

  datatype LinkPowerState = U0 | U1 | U2 | U3

  const USB3_LPM_MAX_U1_SEL_PEL: nat := 0xff
  const USB3_LPM_MAX_U2_SEL_PEL: nat := 0xffff
  const USB3_LPM_U1_MAX_TIMEOUT: int := 0x7f
  const USB3_LPM_DEVICE_INITIATED: int := 0xff
  const USB_PORT_FEAT_U1_TIMEOUT: nat := 23
  const USB_PORT_FEAT_U2_TIMEOUT: nat := 24

  function Max(a: nat, b: nat): (m: nat)
    ensures m >= a && m >= b && (m == a || m == b)
  {
    if a > b then a else b
  }

  // ---------------------------------------------------------------------
  // usb_set_lpm_mel / usb_set_lpm_pel / usb_set_lpm_sel

  /**
   * usb_set_lpm_mel: the parent's MEL, plus the hub header decode latency
   * (0.1 us units), plus the slower of the two link exit latencies.
   */
  function Mel(parentMel: nat, hubHdrDecLat: nat, udevExitLat: nat, hubExitLat: nat): (mel: nat)
    ensures mel >= parentMel + 100 * hubHdrDecLat + 1000 * udevExitLat
    ensures mel >= parentMel + 100 * hubHdrDecLat + 1000 * hubExitLat
    ensures mel == parentMel + 100 * hubHdrDecLat + 1000 * udevExitLat
         || mel == parentMel + 100 * hubHdrDecLat + 1000 * hubExitLat
  {
    var deviceMel := udevExitLat * 1000;
    var hubMel := hubExitLat * 1000;
    parentMel + hubHdrDecLat * 100 + (if deviceMel > hubMel then deviceMel else hubMel)
  }

  /**
   * usb_set_lpm_pel: the larger of the first link's exit latency and the
   * port-to-port latency added to the parent's PEL.
   */
  function Pel(udevExitLat: nat, hubExitLat: nat, portToPort: nat, parentPel: nat): (pel: nat)
    ensures pel >= 1000 * udevExitLat && pel >= 1000 * hubExitLat
    ensures pel >= 1000 * portToPort + parentPel
    ensures pel == 1000 * Max(udevExitLat, hubExitLat) || pel == 1000 * portToPort + parentPel
  {
    var firstLinkPel := if udevExitLat > hubExitLat then udevExitLat * 1000 else hubExitLat * 1000;
    var hubPel := portToPort * 1000 + parentPel;
    if firstLinkPel > hubPel then firstLinkPel else hubPel
  }

  /** usb_set_lpm_sel for a device with `numHubs` external hubs above it. */
  function Sel(pel: nat, numHubs: nat): (sel: nat)
    ensures sel >= pel
  {
    pel + (if numHubs > 0 then 2100 + 250 * (numHubs - 1) else 0) + 250 * numHubs
  }

  /** t2 + t4 of the SEL sum: nothing below a root port, 2.35 us for the first hub and 0.5 us for each further one. */
  lemma SelPerHub(pel: nat, numHubs: nat)
    ensures Sel(pel, 0) == pel
    ensures Sel(pel, numHubs + 1) == Sel(pel, numHubs) + (if numHubs == 0 then 2350 else 500)
  {
  }

  // ---------------------------------------------------------------------
  // The hub count of usb_set_lpm_sel

  /** Parents point to lower indices, so every ancestor chain ends at a root hub. */
  predicate ParentsOrdered(parent: seq<Option<nat>>) {
    forall i | 0 <= i < |parent| :: parent[i].Some? ==> parent[i].value < i
  }

  /** The ancestors of device d, nearest first. */
  function Ancestors(parent: seq<Option<nat>>, d: nat): (a: seq<nat>)
    requires ParentsOrdered(parent) && d < |parent|
    ensures a == [] <==> parent[d].None?
    ensures forall k | 0 <= k < |a| :: a[k] < d
    ensures forall k | 0 <= k < |a| :: parent[a[k]].Some? <==> k < |a| - 1
    ensures parent[d].Some? ==> a[0] == parent[d].value
    ensures forall k | 0 <= k < |a| - 1 :: parent[a[k]] == Some(a[k + 1])
    decreases d
  {
    if parent[d].None? then [] else [parent[d].value] + Ancestors(parent, parent[d].value)
  }

  /**
   * The loop of usb_set_lpm_sel: walks from the parent of `d` towards the
   * root and counts the ancestors that have a parent themselves, i.e. the
   * external hubs between the device and its root port.
   */
  method HubsBetween(parent: seq<Option<nat>>, d: nat) returns (numHubs: nat)
    requires ParentsOrdered(parent) && d < |parent| && parent[d].Some?
    ensures numHubs == |Ancestors(parent, d)| - 1
  {
    var p: nat := parent[d].value;
    numHubs := 0;
    while parent[p].Some?
      invariant p < |parent| && |Ancestors(parent, d)| == numHubs + 1 + |Ancestors(parent, p)|
      decreases p
    {
      numHubs := numHubs + 1;
      p := parent[p].value;
    }
  }

  /** A device on a root port has no hub in between; one more level adds one hub. */
  lemma HubsBetweenCountsLevels(parent: seq<Option<nat>>, d: nat)
    requires ParentsOrdered(parent) && d < |parent| && parent[d].Some?
    ensures parent[parent[d].value].None? ==> |Ancestors(parent, d)| - 1 == 0
    ensures parent[parent[d].value].Some? ==>
              |Ancestors(parent, d)| - 1 == |Ancestors(parent, parent[d].value)| - 1 + 1
  {
  }

  // ---------------------------------------------------------------------
  // usb_set_lpm_parameters

  /** What usb_set_lpm_parameters reads from the device, its parent and the parent's hub descriptor. */
  datatype LpmInputs = LpmInputs(
    lpmCapable: bool, speed: Speed, parentHasHub: bool,
    udevU1ExitLat: nat, udevU2ExitLat: nat, hubU1ExitLat: nat, hubU2ExitLat: nat,
    hubHdrDecLat: nat, parentU1: LpmParams, parentU2: LpmParams, numHubs: nat)

  /** The U2 port-to-port delay: 1 us plus the extra exit latency of the hub's U2 over its U1. */
  function U2PortToPort(hubU1ExitLat: nat, hubU2ExitLat: nat): (p: nat)
    ensures p >= 1
    ensures hubU2ExitLat > hubU1ExitLat ==> p + hubU1ExitLat == 1 + hubU2ExitLat
    ensures hubU2ExitLat <= hubU1ExitLat ==> p == 1 + hubU1ExitLat
  {
    if hubU2ExitLat > hubU1ExitLat then 1 + hubU2ExitLat - hubU1ExitLat else 1 + hubU1ExitLat
  }

  /**
   * usb_set_lpm_parameters: the new U1 and U2 parameters, or None when the
   * device keeps its old ones (not LPM capable, not SuperSpeed, or a parent
   * without hub structure).
   */
  function SetLpmParameters(x: LpmInputs): (r: Option<(LpmParams, LpmParams)>)
    ensures r.Some? <==> x.lpmCapable && x.speed == SpeedSuper && x.parentHasHub
    ensures r.Some? ==>
              var (u1, u2) := r.value;
              && u1.mel == Mel(x.parentU1.mel, x.hubHdrDecLat, x.udevU1ExitLat, x.hubU1ExitLat)
              && u2.mel == Mel(x.parentU2.mel, x.hubHdrDecLat, x.udevU2ExitLat, x.hubU2ExitLat)
              && u1.pel == Pel(x.udevU1ExitLat, x.hubU1ExitLat, 1, x.parentU1.pel)
              && u2.pel == Pel(x.udevU2ExitLat, x.hubU2ExitLat, U2PortToPort(x.hubU1ExitLat, x.hubU2ExitLat), x.parentU2.pel)
              && u1.sel == Sel(u1.pel, x.numHubs) && u2.sel == Sel(u2.pel, x.numHubs)
  {
    if !x.lpmCapable || x.speed != SpeedSuper then None
    else if !x.parentHasHub then None
    else
      var u1pel := Pel(x.udevU1ExitLat, x.hubU1ExitLat, 1, x.parentU1.pel);
      var u2pel := Pel(x.udevU2ExitLat, x.hubU2ExitLat, U2PortToPort(x.hubU1ExitLat, x.hubU2ExitLat), x.parentU2.pel);
      Some((LpmParams(Mel(x.parentU1.mel, x.hubHdrDecLat, x.udevU1ExitLat, x.hubU1ExitLat), u1pel, Sel(u1pel, x.numHubs)),
            LpmParams(Mel(x.parentU2.mel, x.hubHdrDecLat, x.udevU2ExitLat, x.hubU2ExitLat), u2pel, Sel(u2pel, x.numHubs))))
  }

  /**
   * usb_set_lpm_parameters for device `d` of the tree `parent`: the hub
   * count both SEL values use is the one the usb_set_lpm_sel loop finds
   * on the way to the root port, not an input of its own.
   */
  method UsbSetLpmParameters(parent: seq<Option<nat>>, d: nat, x: LpmInputs) returns (r: Option<(LpmParams, LpmParams)>)
    requires ParentsOrdered(parent) && d < |parent|
    requires x.parentHasHub ==> parent[d].Some?
    ensures r == SetLpmParameters(x.(numHubs := if parent[d].Some? then |Ancestors(parent, d)| - 1 else 0))
    ensures r.Some? ==>
              && parent[d].Some?
              && r.value.0.sel == Sel(r.value.0.pel, |Ancestors(parent, d)| - 1)
              && r.value.1.sel == Sel(r.value.1.pel, |Ancestors(parent, d)| - 1)
  {
    if !x.lpmCapable || x.speed != SpeedSuper || !x.parentHasHub {
      return None;
    }
    var numHubs := HubsBetween(parent, d);
    r := SetLpmParameters(x.(numHubs := numHubs));
  }

  /**
   * Latencies only grow down the tree: a device's MEL and PEL exceed its
   * parent's by at least the 1 us a link adds, and its SEL is at least its
   * PEL.
   */
  lemma LatenciesGrowDownTheTree(x: LpmInputs)
    requires SetLpmParameters(x).Some?
    ensures var (u1, u2) := SetLpmParameters(x).value;
            && u1.mel >= x.parentU1.mel + 1000 * x.udevU1ExitLat && u2.mel >= x.parentU2.mel + 1000 * x.udevU2ExitLat
            && u1.pel >= x.parentU1.pel + 1000 && u2.pel >= x.parentU2.pel + 1000
            && u1.sel >= u1.pel && u2.sel >= u2.pel
  {
  }

  // ---------------------------------------------------------------------
  // usb_req_set_sel

  /** DIV_ROUND_UP(ns, 1000): the least number of whole us covering ns. */
  function DivRoundUp1000(ns: nat): (us: nat)
    ensures us * 1000 >= ns && (us == 0 || (us - 1) * 1000 < ns)
  {
    (ns + 999) / 1000
  }

  /** The four SET_SEL data bytes' worth of values (U1 in u8 fields, U2 in le16 fields). */
  datatype SelRequest = SelRequest(u1Sel: nat, u1Pel: nat, u2Sel: nat, u2Pel: nat)

  function Clamp(v: nat, limit: nat): (c: nat)
    ensures c <= limit && (v <= limit ==> c == v) && (v > limit ==> c == limit)
  {
    if v > limit then limit else v
  }

  /** usb_req_set_sel refuses to enable a state whose own SEL or PEL, in us, does not fit its field. */
  predicate SelTooLong(state: LinkPowerState, u1: LpmParams, u2: LpmParams) {
    || (state == U1 && (DivRoundUp1000(u1.sel) > USB3_LPM_MAX_U1_SEL_PEL || DivRoundUp1000(u1.pel) > USB3_LPM_MAX_U1_SEL_PEL))
    || (state == U2 && (DivRoundUp1000(u2.sel) > USB3_LPM_MAX_U2_SEL_PEL || DivRoundUp1000(u2.pel) > USB3_LPM_MAX_U2_SEL_PEL))
  }

  /**
   * usb_req_set_sel: -EINVAL for a state whose values are too long;
   * otherwise the values, rounded up to us and clamped to their fields, go
   * to the device, and the transfer result `xfer` is returned.
   */
  function ReqSetSel(state: LinkPowerState, u1: LpmParams, u2: LpmParams, xfer: int): (r: (int, Option<SelRequest>))
    ensures r.1.None? <==> SelTooLong(state, u1, u2)
    ensures r.1.None? ==> r.0 == -EINVAL
    ensures r.1.Some? ==>
              && r.0 == xfer
              && r.1.value == SelRequest(Clamp(DivRoundUp1000(u1.sel), USB3_LPM_MAX_U1_SEL_PEL),
                                         Clamp(DivRoundUp1000(u1.pel), USB3_LPM_MAX_U1_SEL_PEL),
                                         Clamp(DivRoundUp1000(u2.sel), USB3_LPM_MAX_U2_SEL_PEL),
                                         Clamp(DivRoundUp1000(u2.pel), USB3_LPM_MAX_U2_SEL_PEL))
  {
    if SelTooLong(state, u1, u2) then (-EINVAL, None)
    else
      (xfer, Some(SelRequest(Clamp(DivRoundUp1000(u1.sel), USB3_LPM_MAX_U1_SEL_PEL),
                             Clamp(DivRoundUp1000(u1.pel), USB3_LPM_MAX_U1_SEL_PEL),
                             Clamp(DivRoundUp1000(u2.sel), USB3_LPM_MAX_U2_SEL_PEL),
                             Clamp(DivRoundUp1000(u2.pel), USB3_LPM_MAX_U2_SEL_PEL))))
  }

  /**
   * What is sent always fits the wire fields, and for the state being
   * enabled it is exact: the device learns its SEL and PEL rounded up to
   * whole us, never less than the true latency.
   */
  lemma SetSelIsExactForTheEnabledState(state: LinkPowerState, u1: LpmParams, u2: LpmParams, xfer: int)
    requires ReqSetSel(state, u1, u2, xfer).1.Some?
    ensures var q := ReqSetSel(state, u1, u2, xfer).1.value;
            && q.u1Sel < 256 && q.u1Pel < 256 && q.u2Sel < 65536 && q.u2Pel < 65536
            && (state == U1 ==> q.u1Sel * 1000 >= u1.sel && q.u1Pel * 1000 >= u1.pel)
            && (state == U2 ==> q.u2Sel * 1000 >= u2.sel && q.u2Pel * 1000 >= u2.pel)
            && (state == U1 ==> q.u1Sel == DivRoundUp1000(u1.sel) && q.u1Pel == DivRoundUp1000(u1.pel))
            && (state == U2 ==> q.u2Sel == DivRoundUp1000(u2.sel) && q.u2Pel == DivRoundUp1000(u2.pel))
  {
  }

  // ---------------------------------------------------------------------
  // usb_set_lpm_timeout

  /** A SET_FEATURE(U1_TIMEOUT / U2_TIMEOUT) request: its feature selector and wIndex. */
  datatype PortFeatureRequest = PortFeatureRequest(feature: nat, wIndex: Word)

  datatype TimeoutResult = TimeoutResult(ret: int, request: Option<PortFeatureRequest>, stored: bool)

  /** U1 timeouts above 0x7F are reserved, except 0xFF (device-initiated only). */
  predicate ReservedU1Timeout(timeout: int) {
    timeout > USB3_LPM_U1_MAX_TIMEOUT && timeout != USB3_LPM_DEVICE_INITIATED
  }

  /**
   * usb_set_lpm_timeout: the result, the request sent to the parent hub
   * (wIndex carries `timeout & 0xff` above the port number) and whether
   * the device's timeout field takes `timeout`. `portResult` is what
   * set_port_feature returns.
   */
  function SetLpmTimeout(state: LinkPowerState, timeout: int, portnum: nat, portResult: int): (r: TimeoutResult)
    requires portnum < 256
    ensures r.ret == 0 || r.ret == -EINVAL || r.ret == -EBUSY
    ensures r.ret == -EINVAL <==> (state != U1 && state != U2) || (state == U1 && ReservedU1Timeout(timeout))
    ensures r.request.Some? <==> r.ret != -EINVAL
    ensures r.request.Some? ==>
              && r.request.value.feature == (if state == U1 then USB_PORT_FEAT_U1_TIMEOUT else USB_PORT_FEAT_U2_TIMEOUT)
              && r.request.value.wIndex & 0xff == portnum as Word
              && r.request.value.wIndex >> 8 == (timeout % 256) as Word
    ensures r.ret == -EBUSY <==> r.request.Some? && portResult < 0
    ensures r.stored <==> r.ret == 0
  {
    if state != U1 && state != U2 then TimeoutResult(-EINVAL, None, false)
    else if state == U1 && ReservedU1Timeout(timeout) then TimeoutResult(-EINVAL, None, false)
    else
      var feature := if state == U1 then USB_PORT_FEAT_U1_TIMEOUT else USB_PORT_FEAT_U2_TIMEOUT;
      var req := PortFeatureRequest(feature, PortFeatureIndex(portnum, timeout % 256));
      if portResult < 0 then TimeoutResult(-EBUSY, Some(req), false)
      else TimeoutResult(0, Some(req), true)
  }

  /** A reserved U1 timeout never reaches the hub; disabling (timeout 0) is never refused as reserved. */
  lemma ReservedTimeoutsStayLocal(timeout: int, portnum: nat, portResult: int)
    requires portnum < 256
    ensures 0x80 <= timeout <= 0xfe ==> SetLpmTimeout(U1, timeout, portnum, portResult) == TimeoutResult(-EINVAL, None, false)
    ensures SetLpmTimeout(U1, 0, portnum, portResult).request.Some?
    ensures SetLpmTimeout(U2, timeout, portnum, portResult).request.Some?
  {
  }

  // ---------------------------------------------------------------------
  // usb_disable_lpm / usb_enable_lpm

  /** The LPM fields of a device: lpm_disable_count and the two timeouts. */
  datatype LpmState = LpmState(count: int, u1Timeout: int, u2Timeout: int)

  /** What usb_enable_link_state reads from the device, fixed across calls. */
  datatype LpmDevice = LpmDevice(portnum: nat, u1ExitLat: nat, u2ExitLat: nat, u1: LpmParams, u2: LpmParams)

  /** The external answers one usb_enable_link_state call gets: SET_SEL transfer, HCD timeout, SET_FEATURE result. */
  datatype LinkEnable = LinkEnable(setSelXfer: int, hcdTimeout: int, portResult: int)

  /**
   * usb_enable_link_state: the timeout field of `state` afterwards. It
   * changes only when the exit latency is non-zero, SET_SEL succeeds, the
   * HCD picks a positive timeout and the hub accepts it.
   */
  function EnableLinkState(dev: LpmDevice, state: LinkPowerState, current: int, e: LinkEnable): (t: int)
    requires dev.portnum < 256 && (state == U1 || state == U2)
    ensures t != current ==>
              && t == e.hcdTimeout && t > 0
              && (if state == U1 then dev.u1ExitLat else dev.u2ExitLat) != 0
              && ReqSetSel(state, dev.u1, dev.u2, e.setSelXfer).0 >= 0
              && SetLpmTimeout(state, t, dev.portnum, e.portResult).ret == 0
    ensures && (if state == U1 then dev.u1ExitLat else dev.u2ExitLat) != 0
            && ReqSetSel(state, dev.u1, dev.u2, e.setSelXfer).0 >= 0
            && e.hcdTimeout > 0
            && SetLpmTimeout(state, e.hcdTimeout, dev.portnum, e.portResult).ret == 0
            ==> t == e.hcdTimeout
  {
    var exitLat := if state == U1 then dev.u1ExitLat else dev.u2ExitLat;
    if exitLat == 0 then current
    else if ReqSetSel(state, dev.u1, dev.u2, e.setSelXfer).0 < 0 then current
    else if e.hcdTimeout <= 0 then current
    else if SetLpmTimeout(state, e.hcdTimeout, dev.portnum, e.portResult).ret != 0 then current
    else e.hcdTimeout
  }

  /**
   * usb_enable_lpm on state s: an eligible device (SuperSpeed, LPM capable,
   * with a parent) drops one disable reference; when the HCD supports LPM
   * and no reference is left, U1 and then U2 are enabled.
   */
  function EnableLpm(s: LpmState, dev: LpmDevice, eligible: bool, hcdHasBoth: bool, e1: LinkEnable, e2: LinkEnable): (s': LpmState)
    requires dev.portnum < 256
    ensures !eligible ==> s' == s
    ensures eligible ==> s'.count == s.count - 1
    ensures (s'.u1Timeout, s'.u2Timeout) != (s.u1Timeout, s.u2Timeout) ==> eligible && hcdHasBoth && s'.count <= 0
    ensures eligible && hcdHasBoth && s.count - 1 <= 0 ==>
              && s'.u1Timeout == EnableLinkState(dev, U1, s.u1Timeout, e1)
              && s'.u2Timeout == EnableLinkState(dev, U2, s.u2Timeout, e2)
  {
    if !eligible then s
    else
      var s1 := s.(count := s.count - 1);
      if !hcdHasBoth || s1.count > 0 then s1
      else s1.(u1Timeout := EnableLinkState(dev, U1, s1.u1Timeout, e1),
               u2Timeout := EnableLinkState(dev, U2, s1.u2Timeout, e2))
  }

  /** usb_disable_link_state's step on the timeout field: set_lpm_timeout(state, 0). */
  function DisableLinkState(dev: LpmDevice, state: LinkPowerState, portResult: int): (ok: bool)
    requires dev.portnum < 256 && (state == U1 || state == U2)
    ensures ok <==> portResult >= 0
  {
    SetLpmTimeout(state, 0, dev.portnum, portResult).ret == 0
  }

  /**
   * usb_disable_lpm: an eligible device whose HCD can disable LPM takes one
   * more disable reference; if a timeout is set, U1 and U2 are turned off
   * (`p1`, `p2`: the hub's answers), and on a failure the reference is
   * dropped again through usb_enable_lpm (answers `e1`, `e2`) and -EBUSY
   * returned.
   */
  function DisableLpm(s: LpmState, dev: LpmDevice, eligible: bool, hcdHasDisable: bool, hcdHasBoth: bool,
                      p1: int, p2: int, e1: LinkEnable, e2: LinkEnable): (r: (int, LpmState))
    requires dev.portnum < 256
    ensures r.0 == 0 || r.0 == -EBUSY
    ensures !eligible || !hcdHasDisable ==> r == (0, s)
    ensures eligible && hcdHasDisable && r.0 == 0 ==>
              r.1 == LpmState(s.count + 1, 0, 0) || (r.1 == s.(count := s.count + 1) && s.u1Timeout == 0 && s.u2Timeout == 0)
    ensures r.0 == -EBUSY ==> eligible && hcdHasDisable && (s.u1Timeout != 0 || s.u2Timeout != 0) && r.1.count == s.count
  {
    if !eligible || !hcdHasDisable then (0, s)
    else
      var s1 := s.(count := s.count + 1);
      if s1.u1Timeout == 0 && s1.u2Timeout == 0 then (0, s1)
      else if !DisableLinkState(dev, U1, p1) then (-EBUSY, EnableLpm(s1, dev, eligible, hcdHasBoth, e1, e2))
      else
        var s2 := s1.(u1Timeout := 0);
        if !DisableLinkState(dev, U2, p2) then (-EBUSY, EnableLpm(s2, dev, eligible, hcdHasBoth, e1, e2))
        else (0, s2.(u2Timeout := 0))
  }

  /**
   * The reference count balances: a disable that succeeded, followed by
   * the matching enable, leaves lpm_disable_count where it was; and while
   * another reference is held, the enable leaves both links off.
   */
  lemma DisableEnableBalances(s: LpmState, dev: LpmDevice, hcdHasBoth: bool,
                              p1: int, p2: int, e1: LinkEnable, e2: LinkEnable, f1: LinkEnable, f2: LinkEnable)
    requires dev.portnum < 256
    requires DisableLpm(s, dev, true, true, hcdHasBoth, p1, p2, e1, e2).0 == 0
    ensures var s' := DisableLpm(s, dev, true, true, hcdHasBoth, p1, p2, e1, e2).1;
            && s'.u1Timeout == 0 && s'.u2Timeout == 0
            && EnableLpm(s', dev, true, hcdHasBoth, f1, f2).count == s.count
            && (s.count > 0 ==> EnableLpm(s', dev, true, hcdHasBoth, f1, f2) == LpmState(s.count, 0, 0))
  {
  }

  /** The LPM fields of one device, updated in place by usb_disable_lpm and usb_enable_lpm. */
  class LpmLink {
    var lpmDisableCount: int
    var u1Timeout: int
    var u2Timeout: int

    function State(): LpmState
      reads this
    {
      LpmState(lpmDisableCount, u1Timeout, u2Timeout)
    }

    constructor ()
      ensures State() == LpmState(0, 0, 0)
    {
      lpmDisableCount, u1Timeout, u2Timeout := 0, 0, 0;
    }

    method EnableLinkStates(dev: LpmDevice, e1: LinkEnable, e2: LinkEnable)
      requires dev.portnum < 256
      modifies this
      ensures State() == old(State()).(u1Timeout := EnableLinkState(dev, U1, old(u1Timeout), e1),
                                       u2Timeout := EnableLinkState(dev, U2, old(u2Timeout), e2))
    {
      u1Timeout := EnableLinkState(dev, U1, u1Timeout, e1);
      u2Timeout := EnableLinkState(dev, U2, u2Timeout, e2);
    }

    method UsbEnableLpm(dev: LpmDevice, eligible: bool, hcdHasBoth: bool, e1: LinkEnable, e2: LinkEnable)
      requires dev.portnum < 256
      modifies this
      ensures State() == EnableLpm(old(State()), dev, eligible, hcdHasBoth, e1, e2)
    {
      if !eligible {
        return;
      }
      lpmDisableCount := lpmDisableCount - 1;
      if !hcdHasBoth {
        return;
      }
      if lpmDisableCount > 0 {
        return;
      }
      EnableLinkStates(dev, e1, e2);
    }

    method UsbDisableLpm(dev: LpmDevice, eligible: bool, hcdHasDisable: bool, hcdHasBoth: bool,
                         p1: int, p2: int, e1: LinkEnable, e2: LinkEnable) returns (ret: int)
      requires dev.portnum < 256
      modifies this
      ensures (ret, State()) == DisableLpm(old(State()), dev, eligible, hcdHasDisable, hcdHasBoth, p1, p2, e1, e2)
    {
      if !eligible || !hcdHasDisable {
        return 0;
      }
      lpmDisableCount := lpmDisableCount + 1;
      if u1Timeout == 0 && u2Timeout == 0 {
        return 0;
      }
      if !DisableLinkState(dev, U1, p1) {
        UsbEnableLpm(dev, eligible, hcdHasBoth, e1, e2);
        return -EBUSY;
      }
      u1Timeout := 0;
      if !DisableLinkState(dev, U2, p2) {
        UsbEnableLpm(dev, eligible, hcdHasBoth, e1, e2);
        return -EBUSY;
      }
      u2Timeout := 0;
      return 0;
    }
  }
}
