/**
 * Reading and decoding port status in drivers/usb/core/hub.c: the
 * GET_STATUS retry loop, the short-read rule, the predicates over
 * wPortStatus, the wIndex and devinfo words the driver composes for its
 * control requests, and the DeviceRemovable bitmaps of the hub descriptor
 * (section 11.23.2.1 of USB 2.0, section 10.13.2.1 of USB 3.0).
 */
module HubPortStatus {
  import opened UsbDefs

  // ---------------------------------------------------------------------
  // Predicates over wPortStatus

  /** hub_port_warm_reset_required: a SuperSpeed port stuck in SS.Inactive or Compliance Mode. */
  predicate WarmResetRequired(superspeed: bool, status: Word): (w: bool)
    ensures w ==> superspeed
    ensures w ==> LinkState(status) != SS_PORT_LS_U0 && LinkState(status) != SS_PORT_LS_U3
    ensures superspeed && LinkState(status) == SS_PORT_LS_SS_INACTIVE ==> w
    ensures superspeed && LinkState(status) == SS_PORT_LS_COMP_MOD ==> w
    ensures w ==> LinkState(status) == SS_PORT_LS_SS_INACTIVE || LinkState(status) == SS_PORT_LS_COMP_MOD
  {
    superspeed && (LinkState(status) == SS_PORT_LS_SS_INACTIVE || LinkState(status) == SS_PORT_LS_COMP_MOD)
  }

  /** port_is_power_on: the power bit sits at 0x0200 on SuperSpeed hubs and at 0x0100 on others. */
  predicate PortIsPowerOn(superspeed: bool, status: Word): (on: bool)
    ensures !superspeed ==> (on <==> status & 0x0100 != 0)
    ensures superspeed ==> (on <==> HasBit(status, PORT_STAT_LOW_SPEED))
  {
    if superspeed then HasBit(status, SS_PORT_STAT_POWER) else HasBit(status, PORT_STAT_POWER)
  }

  /** port_is_suspended: link state U3 on SuperSpeed hubs, the SUSPEND bit on others. */
  predicate PortIsSuspended(superspeed: bool, status: Word): (s: bool)
    ensures !superspeed ==> (s <==> status & 0x0004 != 0)
    ensures superspeed ==> (s <==> status & 0x01e0 == 0x0060)
  {
    if superspeed then LinkState(status) == SS_PORT_LS_U3 else HasBit(status, PORT_STAT_SUSPEND)
  }

  /**
   * The three predicates read different fields: a port that needs a warm
   * reset is never taken for suspended, a USB 2.0 port never needs a warm
   * reset, and on a USB 2.0 hub the SuperSpeed power bit (the low-speed bit
   * there) does not count as power.
   */
  lemma PredicatesAreDisjoint(superspeed: bool, status: Word)
    ensures WarmResetRequired(superspeed, status) ==> !PortIsSuspended(superspeed, status)
    ensures !superspeed ==> !WarmResetRequired(superspeed, status)
    ensures !superspeed && status == PORT_STAT_LOW_SPEED ==> !PortIsPowerOn(superspeed, status)
    ensures superspeed && status == SS_PORT_STAT_POWER ==> PortIsPowerOn(superspeed, status)
  {
  }

  // ---------------------------------------------------------------------
  // GET_STATUS with retries (get_hub_status / get_port_status)

  const USB_STS_RETRIES: nat := 5

  /** The control-transfer results that get_hub_status and get_port_status retry. */
  predicate Retriable(status: int) {
    status == -ETIMEDOUT || status == -EPIPE
  }

  /**
   * The retry loop shared by get_hub_status and get_port_status:
   * `results[k]` is what the k-th GET_STATUS transfer returns. It stops at
   * the first result that is neither a timeout nor a stall, and after five
   * attempts at most.
   */
  method GetStatusWithRetries(results: seq<int>) returns (status: int, attempts: nat)
    requires |results| >= USB_STS_RETRIES
    ensures 1 <= attempts <= USB_STS_RETRIES
    ensures status == results[attempts - 1]
    ensures forall k | 0 <= k < attempts - 1 :: Retriable(results[k])
    ensures attempts < USB_STS_RETRIES ==> !Retriable(status)
  {
    var i := 0;
    status := -ETIMEDOUT;
    while i < USB_STS_RETRIES && Retriable(status)
      invariant 0 <= i <= USB_STS_RETRIES
      invariant i == 0 ==> status == -ETIMEDOUT
      invariant i > 0 ==> status == results[i - 1]
      invariant forall k | 0 <= k < i - 1 :: Retriable(results[k])
      decreases USB_STS_RETRIES - i
    {
      status := results[i];
      i := i + 1;
    }
    attempts := i;
  }

  // ---------------------------------------------------------------------
  // Decoding the 4-byte status block

  /** le16_to_cpu over two transfer bytes. */
  function Le16(lo: Byte, hi: Byte): (w: Word)
    ensures w & 0xff == lo as Word && w >> 8 == hi as Word
  {
    ((hi as Word) << 8) | (lo as Word)
  }

  datatype StatusRead = StatusOk(status: Word, change: Word) | StatusErr(err: int)

  /**
   * hub_port_status after the transfer returned `ret` into the block `buf`
   * (wPortStatus then wPortChange): anything shorter than the four bytes
   * fails, a short but successful read as -EIO.
   */
  function HubPortStatus(ret: int, buf: seq<Byte>): (r: StatusRead)
    requires |buf| == 4
    ensures r.StatusOk? <==> ret >= 4
    ensures r.StatusErr? ==> r.err < 0 && r.err == (if ret >= 0 then -EIO else ret)
    ensures r.StatusOk? ==> r.status == Le16(buf[0], buf[1]) && r.change == Le16(buf[2], buf[3])
  {
    if ret < 4 then StatusErr(if ret >= 0 then -EIO else ret)
    else StatusOk(Le16(buf[0], buf[1]), Le16(buf[2], buf[3]))
  }

  /** hub_hub_status: unlike the port variant, any non-negative length is accepted. */
  function HubHubStatus(ret: int, buf: seq<Byte>): (r: StatusRead)
    requires |buf| == 4
    ensures r.StatusOk? <==> ret >= 0
    ensures r.StatusErr? ==> r.err == ret
    ensures r.StatusOk? ==> r.status == Le16(buf[0], buf[1]) && r.change == Le16(buf[2], buf[3])
  {
    if ret < 0 then StatusErr(ret) else StatusOk(Le16(buf[0], buf[1]), Le16(buf[2], buf[3]))
  }

  /** A 1- to 3-byte answer is an error for a port and a success for the hub. */
  lemma ShortReadsDiffer(ret: int, buf: seq<Byte>)
    requires |buf| == 4 && 0 <= ret < 4
    ensures HubPortStatus(ret, buf) == StatusErr(-EIO)
    ensures HubHubStatus(ret, buf).StatusOk?
  {
  }

  // ---------------------------------------------------------------------
  // wIndex of port features

  /**
   * The wIndex of a port-feature request that carries a selector in its
   * high byte: (selector << 8) | port1, as set_port_led and the LPM timeout
   * request build it.
   */
  function PortFeatureIndex(port1: nat, selector: nat): (w: Word)
    requires port1 < 256 && selector < 256
    ensures w & 0xff == port1 as Word && w >> 8 == selector as Word
  {
    ((selector as Word) << 8) | (port1 as Word)
  }

  /**
   * hub_set_port_link_state: `port1 | (link_status << 3)`. The link state is
   * given as it sits in wPortStatus (bits 5..8), so the shift by 3 puts its
   * code into the high byte of wIndex.
   */
  function LinkStateIndex(port1: nat, linkStatus: Word): (w: Word)
    requires port1 < 256
    requires linkStatus & !PORT_STAT_LINK_STATE == 0
    ensures w & 0xff == port1 as Word
    ensures w >> 8 == linkStatus >> 5
    ensures w == PortFeatureIndex(port1, (linkStatus >> 5) as nat)
  {
    (port1 as Word) | (linkStatus << 3)
  }

  // ---------------------------------------------------------------------
  // The devinfo word of CLEAR_TT_BUFFER (USB 2.0 section 11.24.2.3)

  const USB_ENDPOINT_XFER_CONTROL: Word := 0
  const USB_ENDPOINT_XFER_BULK: Word := 2

  /**
   * usb_hub_clear_tt_buffer's devinfo: endpoint number in bits 0..3, device
   * address in bits 4..10, endpoint type (control or bulk) in bits 11..12,
   * direction IN in bit 15. Each field reads back unchanged.
   */
  function Devinfo(endpoint: nat, devnum: nat, control: bool, dirIn: bool): (w: Word)
    requires endpoint < 16 && devnum < 128
    ensures w & 0xf == endpoint as Word
    ensures (w >> 4) & 0x7f == devnum as Word
    ensures (w >> 11) & 3 == (if control then USB_ENDPOINT_XFER_CONTROL else USB_ENDPOINT_XFER_BULK)
    ensures (w >> 15 == 1) == dirIn
    ensures (w >> 13) & 3 == 0
  {
    var t: Word := if control then USB_ENDPOINT_XFER_CONTROL else USB_ENDPOINT_XFER_BULK;
    (endpoint as Word) | ((devnum as Word) << 4) | (t << 11) | (if dirIn then 0x8000 else 0)
  }

  /**
   * The wValue of each CLEAR_TT_BUFFER request hub_clear_tt_buffer sends:
   * for a control endpoint first the opposite direction (devinfo ^ 0x8000),
   * stopping there if that request fails, then devinfo itself.
   */
  function ClearTtRequests(devinfo: Word, firstStatus: int): (reqs: seq<Word>)
    ensures (devinfo >> 11) & 3 == USB_ENDPOINT_XFER_CONTROL ==>
              && 1 <= |reqs| <= 2 && reqs[0] == devinfo ^ 0x8000
              && (|reqs| == 2 <==> firstStatus == 0)
              && (|reqs| == 2 ==> reqs[1] == devinfo)
    ensures (devinfo >> 11) & 3 != USB_ENDPOINT_XFER_CONTROL ==> reqs == [devinfo]
  {
    if (devinfo >> 11) & 3 == USB_ENDPOINT_XFER_CONTROL then
      if firstStatus != 0 then [devinfo ^ 0x8000] else [devinfo ^ 0x8000, devinfo]
    else [devinfo]
  }

  /** A control endpoint's TT state is cleared in both directions, the other fields untouched. */
  lemma ControlClearsBothDirections(endpoint: nat, devnum: nat, dirIn: bool)
    requires endpoint < 16 && devnum < 128
    ensures var d := Devinfo(endpoint, devnum, true, dirIn);
            var reqs := ClearTtRequests(d, 0);
            && |reqs| == 2
            && (reqs[0] >> 15 == 1) == !dirIn && (reqs[1] >> 15 == 1) == dirIn
            && reqs[0] & 0x7fff == reqs[1] & 0x7fff
  {
  }

  // ---------------------------------------------------------------------
  // DeviceRemovable bitmaps

  const HUB_CHAR_COMPOUND: Word := 0x0004
  /** USB_MAXCHILDREN: the most ports a hub may have. */
  const MAX_CHILDREN: nat := 31
  /** Bytes of the USB 2.0 DeviceRemovable bitmap: (USB_MAXCHILDREN + 1 + 7) / 8. */
  const HS_REMOVABLE_BYTES: nat := 4

  datatype ConnectType = ConnectUnknown | HotPlug | HardWired | NotUsed
  datatype Removable = DeviceRemovable | DeviceFixed

  /** Bit i of a USB 2.0 DeviceRemovable byte array: DeviceRemovable[i / 8] & (1 << (i % 8)). */
  predicate HsBit(bytes: seq<Byte>, i: nat)
    requires i < 8 * |bytes|
  {
    bytes[i / 8] & ((1 as Byte) << (i % 8)) != 0
  }

  /** Bit i of the USB 3.0 16-bit DeviceRemovable word; `1 << i` has no bit there once i >= 16. */
  predicate SsBit(w: Word, i: nat) {
    i < 16 && w & ((1 as Word) << i) != 0
  }

  /** The bit of port `i` inside its byte of the USB 2.0 DeviceRemovable bitmap. */
  function HsMask(i: nat): Byte {
    (1 as Byte) << (i % 8)
  }

  function SetHsBit(bytes: seq<Byte>, i: nat): (r: seq<Byte>)
    requires i < 8 * |bytes|
    ensures |r| == |bytes|
    ensures forall j | 0 <= j < 8 * |bytes| :: HsBit(r, j) == (HsBit(bytes, j) || j == i)
  {
    var r := bytes[i / 8 := bytes[i / 8] | HsMask(i)];
    assert forall j | 0 <= j < 8 * |bytes| :: HsBit(r, j) == (HsBit(bytes, j) || j == i) by {
      forall j | 0 <= j < 8 * |bytes| ensures HsBit(r, j) == (HsBit(bytes, j) || j == i) {
        OneBitOfByte(bytes[i / 8], i % 8, j % 8);
      }
    }
    r
  }

  /** Or-ing one bit into a byte sets that bit and keeps the others. */
  lemma OneBitOfByte(b: Byte, k: nat, j: nat)
    requires k < 8 && j < 8
    ensures (b | ((1 as Byte) << k)) & ((1 as Byte) << j) != 0 <==> (b & ((1 as Byte) << j) != 0 || j == k)
  {
  }

  /** The USB 2.0 bitmap after usb_hub_adjust_deviceremovable has handled ports 1..n. */
  function AdjustedHs(bytes: seq<Byte>, connect: seq<ConnectType>, n: nat): (r: seq<Byte>)
    requires n <= |connect| && |connect| < 8 * |bytes|
    ensures |r| == |bytes|
  {
    if n == 0 then bytes
    else
      var prev := AdjustedHs(bytes, connect, n - 1);
      if connect[n - 1] == HardWired then SetHsBit(prev, n) else prev
  }

  /** The bit of port `port1` in the u16 DeviceRemovable word: none for ports from 16 up. */
  function SsMask(port1: nat): Word {
    if port1 < 16 then (1 as Word) << port1 else 0
  }

  /** The USB 3.0 word after ports 1..n: the same rule, with the 16-bit mask of the source. */
  function AdjustedSs(w: Word, connect: seq<ConnectType>, n: nat): Word
    requires n <= |connect|
  {
    if n == 0 then w
    else
      var prev := AdjustedSs(w, connect, n - 1);
      if connect[n - 1] == HardWired then prev | SsMask(n) else prev
  }

  /** After the adjustment a bit is set exactly when it was set before or its port is hard-wired. */
  lemma {:induction false} AdjustedHsBits(bytes: seq<Byte>, connect: seq<ConnectType>, n: nat, i: nat)
    requires n <= |connect| && |connect| < 8 * |bytes| && i < 8 * |bytes|
    ensures HsBit(AdjustedHs(bytes, connect, n), i) == (HsBit(bytes, i) || (1 <= i <= n && connect[i - 1] == HardWired))
  {
    if n > 0 {
      AdjustedHsBits(bytes, connect, n - 1, i);
    }
  }

  /** The same for the USB 3.0 word, where only ports below 16 can be marked. */
  lemma {:induction false} AdjustedSsBits(w: Word, connect: seq<ConnectType>, n: nat, i: nat)
    requires n <= |connect|
    ensures SsBit(AdjustedSs(w, connect, n), i) == (SsBit(w, i) || (1 <= i <= n && i < 16 && connect[i - 1] == HardWired))
  {
    if n > 0 {
      AdjustedSsBits(w, connect, n - 1, i);
      var prev := AdjustedSs(w, connect, n - 1);
      if n < 16 && i < 16 {
        OneBitOfWord(prev, n, i);
      }
    }
  }

  lemma OneBitOfWord(w: Word, k: nat, j: nat)
    requires k < 16 && j < 16
    ensures (w | ((1 as Word) << k)) & ((1 as Word) << j) != 0 <==> (w & ((1 as Word) << j) != 0 || j == k)
  {
  }

  /**
   * set_usb_port_removable: the classification of the device on `port` of
   * its parent hub, or None when it keeps its current one (a root hub, a
   * parent without hub structure, a hub that is not part of a compound
   * device).
   */
  function PortRemovable(hasParent: bool, parentHasHub: bool, characteristics: Word, superspeed: bool,
                         hsBytes: seq<Byte>, ssWord: Word, port: nat): (r: Option<Removable>)
    requires |hsBytes| == HS_REMOVABLE_BYTES && port <= MAX_CHILDREN
    ensures r.Some? <==> hasParent && parentHasHub && HasBit(characteristics, HUB_CHAR_COMPOUND)
    ensures r == Some(DeviceFixed) <==>
              && hasParent && parentHasHub && HasBit(characteristics, HUB_CHAR_COMPOUND)
              && (if superspeed then SsBit(ssWord, port) else HsBit(hsBytes, port))
  {
    if !hasParent || !parentHasHub then None
    else if !HasBit(characteristics, HUB_CHAR_COMPOUND) then None
    else
      var fixed := if superspeed then SsBit(ssWord, port) else HsBit(hsBytes, port);
      Some(if fixed then DeviceFixed else DeviceRemovable)
  }

  /**
   * usb_hub_adjust_deviceremovable feeds set_usb_port_removable: on a
   * compound hub, a device on a hard-wired port (below 16 for a SuperSpeed
   * hub) is classified as fixed.
   */
  lemma HardWiredPortIsFixed(characteristics: Word, superspeed: bool, bytes: seq<Byte>, w: Word,
                             connect: seq<ConnectType>, port: nat)
    requires |bytes| == HS_REMOVABLE_BYTES && |connect| <= MAX_CHILDREN
    requires 1 <= port <= |connect| && connect[port - 1] == HardWired
    requires superspeed ==> port < 16
    requires HasBit(characteristics, HUB_CHAR_COMPOUND)
    ensures PortRemovable(true, true, characteristics, superspeed,
                          AdjustedHs(bytes, connect, |connect|), AdjustedSs(w, connect, |connect|), port)
            == Some(DeviceFixed)
  {
    AdjustedHsBits(bytes, connect, |connect|, port);
    AdjustedSsBits(w, connect, |connect|, port);
  }

  /** The DeviceRemovable fields of a hub descriptor, rewritten in place. */
  class HubDescriptor {
    const hsRemovable: array<Byte>
    var ssRemovable: Word

    constructor (hs: seq<Byte>, ss: Word)
      requires |hs| == HS_REMOVABLE_BYTES
      ensures fresh(hsRemovable) && hsRemovable[..] == hs && ssRemovable == ss
    {
      hsRemovable := new Byte[HS_REMOVABLE_BYTES](i requires 0 <= i < |hs| reads {} => hs[i]);
      ssRemovable := ss;
    }

    /**
     * usb_hub_adjust_deviceremovable: `connect[i - 1]` is the connect type
     * of port i (maxchild = |connect|). Hard-wired ports get their
     * DeviceRemovable bit set; a SuperSpeed hub keeps its byte array and a
     * USB 2.0 hub its word.
     */
    method AdjustDeviceRemovable(superspeed: bool, connect: seq<ConnectType>)
      requires hsRemovable.Length == HS_REMOVABLE_BYTES && |connect| <= MAX_CHILDREN
      modifies this, hsRemovable
      ensures !superspeed ==> (hsRemovable[..] == AdjustedHs(old(hsRemovable[..]), connect, |connect|)
                               && ssRemovable == old(ssRemovable))
      ensures superspeed ==> (ssRemovable == AdjustedSs(old(ssRemovable), connect, |connect|)
                              && hsRemovable[..] == old(hsRemovable[..]))
    {
      if !superspeed {
        AdjustHs(connect);
      } else {
        ssRemovable := AdjustedSsWord(ssRemovable, connect);
      }
    }

    /** The USB 2.0 branch: hard-wired ports get their bit in the byte array. */
    method AdjustHs(connect: seq<ConnectType>)
      requires hsRemovable.Length == HS_REMOVABLE_BYTES && |connect| <= MAX_CHILDREN
      modifies hsRemovable
      ensures hsRemovable[..] == AdjustedHs(old(hsRemovable[..]), connect, |connect|)
    {
      var i := 1;
      while i <= |connect|
        invariant 1 <= i <= |connect| + 1
        invariant hsRemovable[..] == AdjustedHs(old(hsRemovable[..]), connect, i - 1)
      {
        if connect[i - 1] == HardWired {
          // the source tests the bit first only to log the change
          hsRemovable[i / 8] := hsRemovable[i / 8] | HsMask(i);
        }
        i := i + 1;
      }
    }
  }

  /** The SuperSpeed branch, on the host-order copy of the word. */
  method AdjustedSsWord(w: Word, connect: seq<ConnectType>) returns (portRemovable: Word)
    ensures portRemovable == AdjustedSs(w, connect, |connect|)
  {
    portRemovable := w;
    var i := 1;
    while i <= |connect|
      invariant 1 <= i <= |connect| + 1
      invariant portRemovable == AdjustedSs(w, connect, i - 1)
    {
      if connect[i - 1] == HardWired {
        portRemovable := portRemovable | SsMask(i);
      }
      i := i + 1;
    }
  }

  // ---------------------------------------------------------------------
  // check_port_resume_type

  datatype ResumeCheck = ResumeCheck(status: int, resetResume: bool, clearCConnection: bool, clearCEnable: bool)

  /**
   * check_port_resume_type: the status of a port after a resume, the
   * device's reset_resume flag afterwards, and which change bits are
   * cleared. A port that is suspended, unpowered or disconnected fails with
   * -ENODEV (an earlier error is kept); a disabled port is acceptable only
   * through reset-resume, which a persist-enabled device turns on.
   */
  function CheckPortResumeType(status: int, superspeed: bool, portstatus: Word, portchange: Word,
                               resetResume: bool, persistEnabled: bool): (r: ResumeCheck)
    ensures status < 0 ==> r.status == status
    ensures r.status == 0 ==>
              && status == 0 && !PortIsSuspended(superspeed, portstatus) && PortIsPowerOn(superspeed, portstatus)
              && HasBit(portstatus, PORT_STAT_CONNECTION)
              && (HasBit(portstatus, PORT_STAT_ENABLE) || r.resetResume)
    ensures && status == 0 && !PortIsSuspended(superspeed, portstatus) && PortIsPowerOn(superspeed, portstatus)
            && HasBit(portstatus, PORT_STAT_CONNECTION)
            && (HasBit(portstatus, PORT_STAT_ENABLE) || resetResume || persistEnabled)
            ==> r.status == 0
    ensures && status >= 0
            && (|| status > 0 || PortIsSuspended(superspeed, portstatus) || !PortIsPowerOn(superspeed, portstatus)
                || !HasBit(portstatus, PORT_STAT_CONNECTION)
                || (!HasBit(portstatus, PORT_STAT_ENABLE) && !resetResume && !persistEnabled))
            ==> r.status == -ENODEV
    ensures r.status != 0 ==> r.status < 0 || r.status == status
    ensures r.resetResume != resetResume ==> r.resetResume && persistEnabled && r.status == status
    ensures r.clearCConnection <==> r.status == 0 && r.resetResume && HasBit(portchange, PORT_STAT_C_CONNECTION)
    ensures r.clearCEnable <==> r.status == 0 && r.resetResume && HasBit(portchange, PORT_STAT_C_ENABLE)
  {
    var (st, rr) :=
      if status != 0 || PortIsSuspended(superspeed, portstatus) || !PortIsPowerOn(superspeed, portstatus)
         || !HasBit(portstatus, PORT_STAT_CONNECTION) then
        (if status >= 0 then -ENODEV else status, resetResume)
      else if !HasBit(portstatus, PORT_STAT_ENABLE) && !resetResume then
        (if persistEnabled then (status, true) else (-ENODEV, resetResume))
      else (status, resetResume);
    ResumeCheck(st, rr,
                st == 0 && rr && HasBit(portchange, PORT_STAT_C_CONNECTION),
                st == 0 && rr && HasBit(portchange, PORT_STAT_C_ENABLE))
  }
}
