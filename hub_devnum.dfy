/**
 * Bus address allocation (choose_devnum / release_devnum in
 * drivers/usb/core/hub.c). Each bus keeps a 128-bit bits of the device
 * addresses in use and a round-robin cursor; address 0 is the shared
 * address of devices that have not been addressed yet and is never handed out.
 */
module HubDevnum {
  import opened UsbDefs

  const DEVMAP_BITS: nat := 128

  /**
   * find_next_zero_bit(bits, size, start): the lowest clear bit at an index
   * of at least `start` and below `size`, or `size` when there is none.
   */
  function FindNextZeroBit(bits: seq<bool>, size: nat, start: nat): (r: nat)
    requires size <= |bits|
    ensures r <= size
    ensures r < size ==> start <= r && !bits[r]
    ensures forall i | start <= i < r :: bits[i]
    ensures r == size ==> forall i | start <= i < size :: bits[i]
    decreases size - start
  {
    if start >= size then size
    else if !bits[start] then start
    else FindNextZeroBit(bits, size, start + 1)
  }

  /**
   * The address choose_devnum hands out for a wired device: the first free
   * address at or after the cursor, otherwise the first free one from 1.
   * None exactly when addresses 1..127 are all in use.
   */
  function ChosenAddress(bits: seq<bool>, next: nat): (r: Option<nat>)
    requires |bits| == DEVMAP_BITS
    requires 1 <= next < DEVMAP_BITS
    ensures r.None? <==> forall i | 1 <= i < DEVMAP_BITS :: bits[i]
    ensures r.Some? ==> 1 <= r.value < DEVMAP_BITS && !bits[r.value]
    ensures r.Some? && r.value >= next ==> forall i | next <= i < r.value :: bits[i]
    ensures r.Some? && r.value < next ==>
              (forall i | next <= i < DEVMAP_BITS :: bits[i]) && (forall i | 1 <= i < r.value :: bits[i])
  {
    var d := FindNextZeroBit(bits, DEVMAP_BITS, next);
    var d' := if d >= DEVMAP_BITS then FindNextZeroBit(bits, DEVMAP_BITS, 1) else d;
    if d' < DEVMAP_BITS then Some(d') else None
  }

  /** The cursor after a wired choice: one past the address, wrapping to 1 (address 0 stays reserved). */
  function NextCursor(devnum: nat): (n: nat)
    ensures 1 <= n < DEVMAP_BITS
    ensures devnum + 1 < DEVMAP_BITS ==> n == devnum + 1
  {
    if devnum >= 127 then 1 else devnum + 1
  }

  /** Once an address is released, it is reissued as soon as it is the only free one, whatever the cursor. */
  lemma ReleasedAddressIsReissued(bits: seq<bool>, next: nat, d: nat)
    requires |bits| == DEVMAP_BITS && 1 <= next < DEVMAP_BITS
    requires 1 <= d < DEVMAP_BITS
    requires forall i | 1 <= i < DEVMAP_BITS && i != d :: bits[i]
    ensures ChosenAddress(bits[d := false], next) == Some(d)
  {
    var r := ChosenAddress(bits[d := false], next);
    assert !bits[d := false][d];
    assert r.Some?;
  }

  /** Two choices with no release in between never hand out the same address. */
  lemma ChoicesAreDistinct(bits: seq<bool>, n1: nat, n2: nat)
    requires |bits| == DEVMAP_BITS && 1 <= n1 < DEVMAP_BITS && 1 <= n2 < DEVMAP_BITS
    requires ChosenAddress(bits, n1).Some?
    ensures var d1 := ChosenAddress(bits, n1).value;
            var d2 := ChosenAddress(bits[d1 := true], n2);
            d2.Some? ==> d2.value != d1
  {
  }

  /** struct usb_bus: the address bits and the round-robin cursor. */
  class Bus {
    var devicemap: array<bool>
    var devnumNext: nat

    ghost predicate Valid()
      reads this, devicemap
    {
      devicemap.Length == DEVMAP_BITS && 1 <= devnumNext < DEVMAP_BITS && !devicemap[0]
    }

    /** usb_bus_init: no address in use, the cursor at 1. */
    constructor ()
      ensures Valid() && fresh(devicemap)
      ensures forall i | 0 <= i < DEVMAP_BITS :: !devicemap[i]
      ensures devnumNext == 1
    {
      devicemap := new bool[DEVMAP_BITS](_ => false);
      devnumNext := 1;
    }

    /**
     * choose_devnum(udev): `devnum` is udev->devnum before the call and
     * `newDevnum` after it. A wireless device takes portnum + 1 (the kernel
     * BUGs when that bit is already set); a wired one takes ChosenAddress and
     * moves the cursor. With no free address nothing but the cursor changes.
     */
    method ChooseDevnum(wusb: bool, portnum: nat, devnum: int) returns (newDevnum: int)
      requires Valid()
      requires wusb && portnum + 1 < DEVMAP_BITS ==> !devicemap[portnum + 1]
      modifies this, devicemap
      ensures Valid() && devicemap == old(devicemap)
      ensures var picked := if wusb then (if portnum + 1 < DEVMAP_BITS then Some(portnum + 1) else None)
                            else ChosenAddress(old(devicemap[..]), old(devnumNext));
              && (picked.Some? ==> devicemap[..] == old(devicemap[..])[picked.value := true] && newDevnum == picked.value)
              && (picked.None? ==> devicemap[..] == old(devicemap[..]) && newDevnum == devnum)
              && devnumNext == (if wusb then old(devnumNext)
                                else NextCursor(if picked.Some? then picked.value else DEVMAP_BITS))
    {
      var d: nat;
      if wusb {
        d := portnum + 1;
      } else {
        d := FindNextZeroBit(devicemap[..], DEVMAP_BITS, devnumNext);
        if d >= DEVMAP_BITS {
          d := FindNextZeroBit(devicemap[..], DEVMAP_BITS, 1);
        }
        devnumNext := if d >= 127 then 1 else d + 1;
      }
      if d < DEVMAP_BITS {
        devicemap[d] := true;
        newDevnum := d;
      } else {
        newDevnum := devnum;
      }
    }

    /** release_devnum(udev): clears exactly the device's own bit when it holds an address, and sets devnum to -1. */
    method ReleaseDevnum(devnum: int) returns (newDevnum: int)
      requires Valid()
      requires devnum < DEVMAP_BITS
      modifies devicemap
      ensures Valid()
      ensures devnum > 0 ==> devicemap[..] == old(devicemap[..])[devnum := false] && newDevnum == -1
      ensures devnum <= 0 ==> devicemap[..] == old(devicemap[..]) && newDevnum == devnum
    {
      if devnum > 0 {
        devicemap[devnum] := false;
        newDevnum := -1;
      } else {
        newDevnum := devnum;
      }
    }
  }
}
