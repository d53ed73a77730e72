/**
 * Decisions hub_port_init and its neighbours in drivers/usb/core/hub.c make
 * while a new device is enumerated: the ep0 max-packet size, which
 * enumeration scheme a retry uses, the SET_ADDRESS guards, and the power
 * budget left on a bus-powered hub.
 */
module HubEnumeration {
  import opened UsbDefs

  // ---------------------------------------------------------------------
  // ep0 wMaxPacketSize

  /**
   * The ep0 wMaxPacketSize hub_port_init assumes after a port reset,
   * before reading any descriptor. None is `goto fail` with -ENODEV: the
   * reset changed a speed already known, or the speed is unknown.
   */
  function Ep0Default(oldSpeed: Speed, speed: Speed): (m: Option<nat>)
    ensures m.None? <==> speed == SpeedUnknown || (oldSpeed != SpeedUnknown && oldSpeed != speed)
    ensures m.Some? ==> m.value in {8, 64, 512}
    ensures m.Some? ==> (m.value == 512 <==> speed == SpeedSuper || speed == SpeedWireless)
    ensures m.Some? ==> (m.value == 8 <==> speed == SpeedLow)
  {
    if oldSpeed != SpeedUnknown && oldSpeed != speed then None
    else
      match speed
      case SpeedSuper => Some(512)
      case SpeedWireless => Some(512)
      case SpeedHigh => Some(64)
      case SpeedFull => Some(64)
      case SpeedLow => Some(8)
      case SpeedUnknown => None
  }

  /** The result of checking ep0 against bMaxPacketSize0: the size to use, or -EMSGSIZE. */
  datatype Ep0Check = Ep0Ok(maxPacket: nat) | Ep0Invalid

  /** The size the descriptor asks for: 512 for SuperSpeed or the 0xff code, else bMaxPacketSize0. */
  function Ep0Wanted(speed: Speed, bMaxPacketSize0: nat): (i: nat)
    ensures bMaxPacketSize0 != 0xff && speed != SpeedSuper ==> i == bMaxPacketSize0
    ensures bMaxPacketSize0 == 0xff || speed == SpeedSuper ==> i == 512
  {
    if bMaxPacketSize0 == 0xff || speed == SpeedSuper then 512 else bMaxPacketSize0
  }

  /**
   * The ep0 check of hub_port_init: the current size stays if it already
   * matches the descriptor; otherwise the descriptor's size is taken when
   * it is 8, 16, 32 or 64 and the device is not low speed.
   */
  function CheckEp0(speed: Speed, bMaxPacketSize0: nat, current: nat): (r: Ep0Check)
    ensures r.Ep0Ok? ==> r.maxPacket == Ep0Wanted(speed, bMaxPacketSize0)
    ensures r.Ep0Invalid? <==>
              current != Ep0Wanted(speed, bMaxPacketSize0)
              && (speed == SpeedLow || Ep0Wanted(speed, bMaxPacketSize0) !in {8, 16, 32, 64})
  {
    var i := Ep0Wanted(speed, bMaxPacketSize0);
    if current != i then
      if speed == SpeedLow || !(i == 8 || i == 16 || i == 32 || i == 64) then Ep0Invalid
      else Ep0Ok(i)
    else Ep0Ok(current)
  }

  /**
   * The default and the check agree: a SuperSpeed device always keeps 512,
   * a low-speed device only passes with 8, and a size once accepted passes
   * again unchanged.
   */
  lemma Ep0DefaultsPassTheCheck(speed: Speed, bMaxPacketSize0: nat, current: nat)
    ensures CheckEp0(SpeedSuper, bMaxPacketSize0, Ep0Default(SpeedUnknown, SpeedSuper).value) == Ep0Ok(512)
    ensures CheckEp0(SpeedLow, bMaxPacketSize0, Ep0Default(SpeedUnknown, SpeedLow).value) == Ep0Ok(8) <==> bMaxPacketSize0 == 8
    ensures CheckEp0(speed, bMaxPacketSize0, current).Ep0Ok? ==>
              var m := CheckEp0(speed, bMaxPacketSize0, current).maxPacket;
              CheckEp0(speed, bMaxPacketSize0, m) == Ep0Ok(m)
  {
  }

  // ---------------------------------------------------------------------
  // Enumeration schemes

  /** SET_CONFIG_TRIES: two tries per scheme in use. */
  function SetConfigTries(useBothSchemes: bool): (n: nat)
    ensures n == (if useBothSchemes then 4 else 2)
  {
    2 * ((if useBothSchemes then 1 else 0) + 1)
  }

  /** USE_NEW_SCHEME(i): retry i uses the new scheme when i / 2 equals old_scheme_first. */
  function UseNewScheme(retry: nat, oldSchemeFirst: bool): (b: bool)
    ensures !oldSchemeFirst ==> (b <==> retry < 2)
    ensures oldSchemeFirst ==> (b <==> 2 <= retry < 4)
  {
    retry / 2 == (if oldSchemeFirst then 1 else 0)
  }

  /**
   * With both schemes (the default) every retry budget tries each scheme
   * twice, in the order old_scheme_first picks; with one scheme only the
   * first two tries happen, and both use the new scheme unless
   * old_scheme_first chose the old one.
   */
  lemma SchemesAlternateByPairs(oldSchemeFirst: bool, useBothSchemes: bool, retry: nat)
    requires retry < SetConfigTries(useBothSchemes)
    ensures useBothSchemes ==> (UseNewScheme(retry, oldSchemeFirst) <==> (retry < 2) != oldSchemeFirst)
    ensures !useBothSchemes ==> UseNewScheme(retry, oldSchemeFirst) == !oldSchemeFirst
  {
  }

  // ---------------------------------------------------------------------
  // hub_set_address and update_devnum

  /** update_devnum: a wireless USB device's address belongs to wusbcore and is not overwritten. */
  function UpdateDevnum(wusb: bool, current: int, devnum: int): (d: int)
    ensures wusb ==> d == current
    ensures !wusb ==> d == devnum
  {
    if !wusb then devnum else current
  }

  datatype SetAddressResult = SetAddressResult(ret: int, devnum: int, state: DevState)

  /**
   * hub_set_address: without an HCD address_device hook, addresses 0 and 1
   * are refused; a device already addressed succeeds at once; only a
   * device in DEFAULT is addressed, and on success (`xfer` == 0) it takes
   * the address and moves to ADDRESS.
   */
  function HubSetAddress(hasAddressDevice: bool, devnum: int, state: DevState, wusb: bool,
                         currentDevnum: int, xfer: int): (r: SetAddressResult)
    ensures r.ret == 0 && state != Address ==> state == Default && xfer == 0 && r.state == Address
    ensures r.state != state || r.devnum != currentDevnum ==> state == Default && xfer == 0 && r.ret == 0
    ensures !hasAddressDevice && devnum <= 1 ==> r == SetAddressResult(-EINVAL, currentDevnum, state)
    ensures (hasAddressDevice || devnum > 1) && state == Address ==> r == SetAddressResult(0, currentDevnum, state)
    ensures (hasAddressDevice || devnum > 1) && state != Address && state != Default ==>
              r == SetAddressResult(-EINVAL, currentDevnum, state)
    ensures (hasAddressDevice || devnum > 1) && state == Default ==>
              r.ret == xfer && (xfer == 0 ==> r.devnum == UpdateDevnum(wusb, currentDevnum, devnum))
  {
    if !hasAddressDevice && devnum <= 1 then SetAddressResult(-EINVAL, currentDevnum, state)
    else if state == Address then SetAddressResult(0, currentDevnum, state)
    else if state != Default then SetAddressResult(-EINVAL, currentDevnum, state)
    else if xfer == 0 then SetAddressResult(0, UpdateDevnum(wusb, currentDevnum, devnum), Address)
    else SetAddressResult(xfer, currentDevnum, state)
  }

  /** Addressing is idempotent: after a success, a second call succeeds without another transfer mattering. */
  lemma SetAddressIsIdempotent(hasAddressDevice: bool, devnum: int, state: DevState, wusb: bool,
                               currentDevnum: int, xfer: int, xfer2: int)
    requires HubSetAddress(hasAddressDevice, devnum, state, wusb, currentDevnum, xfer).ret == 0
    ensures var r := HubSetAddress(hasAddressDevice, devnum, state, wusb, currentDevnum, xfer);
            HubSetAddress(hasAddressDevice, devnum, r.state, wusb, r.devnum, xfer2) == r
  {
  }

  // ---------------------------------------------------------------------
  // hub_power_remaining

  /** What hub_power_remaining reads of the child on a port. */
  datatype ChildPower = ChildPower(superspeed: bool, configuredMaxPower: Option<nat>)

  /**
   * The current charged for the child on port `port1`: its configuration's
   * bMaxPower once configured, otherwise one unit load (150 mA on
   * SuperSpeed, 100 mA otherwise), except 8 mA on the OTG port of a root hub.
   */
  function Draw(c: ChildPower, port1: nat, otgPort: nat, hubHasParent: bool): (mA: nat)
    ensures c.configuredMaxPower.None? && !(port1 == otgPort && !hubHasParent) ==> mA == (if c.superspeed then 150 else 100)
    ensures c.configuredMaxPower.None? && port1 == otgPort && !hubHasParent ==> mA == 8
    ensures c.configuredMaxPower.Some? ==> mA == c.configuredMaxPower.value
  {
    var unitLoad := if c.superspeed then 150 else 100;
    if c.configuredMaxPower.Some? then c.configuredMaxPower.value
    else if port1 != otgPort || hubHasParent then unitLoad
    else 8
  }

  /** The total drawn by the children on ports 1..n (`children[p - 1]` sits on port p). */
  function TotalDraw(children: seq<Option<ChildPower>>, n: nat, otgPort: nat, hubHasParent: bool): (total: nat)
    requires n <= |children|
    ensures (forall p | 0 <= p < n :: children[p].None?) ==> total == 0
    ensures forall p | 0 <= p < n && children[p].Some? :: Draw(children[p].value, p + 1, otgPort, hubHasParent) <= total
  {
    if n == 0 then 0
    else
      TotalDraw(children, n - 1, otgPort, hubHasParent)
      + (if children[n - 1].Some? then Draw(children[n - 1].value, n, otgPort, hubHasParent) else 0)
  }

  /**
   * hub_power_remaining: 0 for a hub without limited power; otherwise the
   * bus current less the controller's own and every child's draw, never
   * below 0.
   */
  method HubPowerRemaining(limitedPower: bool, busMA: int, hubContrCurrent: nat,
                           children: seq<Option<ChildPower>>, otgPort: nat, hubHasParent: bool)
    returns (remaining: int)
    ensures remaining >= 0
    ensures !limitedPower ==> remaining == 0
    ensures limitedPower ==>
              var left := busMA - hubContrCurrent - TotalDraw(children, |children|, otgPort, hubHasParent);
              remaining == (if left < 0 then 0 else left)
  {
    if !limitedPower {
      return 0;
    }
    remaining := busMA - hubContrCurrent;
    var port1 := 1;
    while port1 <= |children|
      invariant 1 <= port1 <= |children| + 1
      invariant remaining == busMA - hubContrCurrent - TotalDraw(children, port1 - 1, otgPort, hubHasParent)
    {
      var child := children[port1 - 1];
      if child.Some? {
        var unitLoad := if child.value.superspeed then 150 else 100;
        var delta;
        if child.value.configuredMaxPower.Some? {
          delta := child.value.configuredMaxPower.value;
        } else if port1 != otgPort || hubHasParent {
          delta := unitLoad;
        } else {
          delta := 8;
        }
        remaining := remaining - delta;
      }
      port1 := port1 + 1;
    }
    if remaining < 0 {
      remaining := 0;
    }
  }

  /** Replacing the child on port p changes the total by the difference of the two draws. */
  lemma {:induction false} TotalDrawUpdate(children: seq<Option<ChildPower>>, n: nat, otgPort: nat, hubHasParent: bool,
                                           p: nat, c: Option<ChildPower>)
    requires n <= |children| && p < |children|
    ensures var old_ := if children[p].Some? then Draw(children[p].value, p + 1, otgPort, hubHasParent) else 0;
            var new_ := if c.Some? then Draw(c.value, p + 1, otgPort, hubHasParent) else 0;
            TotalDraw(children[p := c], n, otgPort, hubHasParent)
              == TotalDraw(children, n, otgPort, hubHasParent) + (if p < n then new_ - old_ else 0)
  {
    if n > 0 {
      TotalDrawUpdate(children, n - 1, otgPort, hubHasParent, p, c);
    }
  }

  /**
   * Plugging a device into an empty port never raises the power left, and
   * lowers the unclamped budget by exactly that device's draw.
   */
  lemma PluggingNeverRaisesBudget(children: seq<Option<ChildPower>>, otgPort: nat, hubHasParent: bool,
                                  p: nat, c: ChildPower)
    requires p < |children| && children[p].None?
    ensures TotalDraw(children[p := Some(c)], |children|, otgPort, hubHasParent)
            == TotalDraw(children, |children|, otgPort, hubHasParent) + Draw(c, p + 1, otgPort, hubHasParent)
  {
    TotalDrawUpdate(children, |children|, otgPort, hubHasParent, p, Some(c));
  }
}
