/**
 * Exclusive per-port owners of a hub (find_port_owner, usb_hub_claim_port,
 * usb_hub_release_port, usb_hub_release_all_ports, usb_device_is_owned in
 * drivers/usb/core/hub.c). A claim comes from a user-space handle (a
 * struct dev_state, modelled by a number); an empty slot is None.
 */
module HubPortOwner {
  import opened UsbDefs

  type Owners = seq<Option<nat>>

  /**
   * find_port_owner: -ENODEV when the device has no hub structure or is
   * gone, -EINVAL for port 0 or a port beyond maxchild, otherwise 0 and the
   * slot of port1 is ports[port1 - 1].
   */
  function FindPortOwner(hasHub: bool, hdevState: DevState, maxchild: nat, port1: nat): (rc: int)
    ensures rc == 0 || rc == -ENODEV || rc == -EINVAL
    ensures rc == -ENODEV <==> !hasHub || hdevState == NotAttached
    ensures rc == 0 <==> hasHub && hdevState != NotAttached && 1 <= port1 <= maxchild
  {
    if !hasHub || hdevState == NotAttached then -ENODEV
    else if port1 == 0 || port1 > maxchild then -EINVAL
    else 0
  }

  /** usb_hub_claim_port: the return code and the owner table afterwards. */
  function Claim(hasHub: bool, hdevState: DevState, owners: Owners, port1: nat, owner: nat): (r: (int, Owners))
    ensures |r.1| == |owners|
    ensures FindPortOwner(hasHub, hdevState, |owners|, port1) != 0 ==>
              r == (FindPortOwner(hasHub, hdevState, |owners|, port1), owners)
    ensures FindPortOwner(hasHub, hdevState, |owners|, port1) == 0 && owners[port1 - 1].Some? ==>
              r == (-EBUSY, owners)
    ensures FindPortOwner(hasHub, hdevState, |owners|, port1) == 0 && owners[port1 - 1].None? ==>
              r == (0, owners[port1 - 1 := Some(owner)])
  {
    var rc := FindPortOwner(hasHub, hdevState, |owners|, port1);
    if rc != 0 then (rc, owners)
    else if owners[port1 - 1].Some? then (-EBUSY, owners)
    else (0, owners[port1 - 1 := Some(owner)])
  }

  /** usb_hub_release_port: only the owner of a port can release it. */
  function Release(hasHub: bool, hdevState: DevState, owners: Owners, port1: nat, owner: nat): (r: (int, Owners))
    ensures |r.1| == |owners|
    ensures FindPortOwner(hasHub, hdevState, |owners|, port1) != 0 ==>
              r == (FindPortOwner(hasHub, hdevState, |owners|, port1), owners)
    ensures FindPortOwner(hasHub, hdevState, |owners|, port1) == 0 && owners[port1 - 1] != Some(owner) ==>
              r == (-ENOENT, owners)
    ensures FindPortOwner(hasHub, hdevState, |owners|, port1) == 0 && owners[port1 - 1] == Some(owner) ==>
              r == (0, owners[port1 - 1 := None])
  {
    var rc := FindPortOwner(hasHub, hdevState, |owners|, port1);
    if rc != 0 then (rc, owners)
    else if owners[port1 - 1] != Some(owner) then (-ENOENT, owners)
    else (0, owners[port1 - 1 := None])
  }

  /** usb_hub_release_all_ports: exactly the ports held by `owner` become free. */
  function ReleaseAll(hasHub: bool, owners: Owners, owner: nat): (r: Owners)
    ensures |r| == |owners|
    ensures forall n | 0 <= n < |owners| ::
              r[n] == (if hasHub && owners[n] == Some(owner) then None else owners[n])
  {
    if !hasHub then owners
    else seq(|owners|, n requires 0 <= n < |owners| => if owners[n] == Some(owner) then None else owners[n])
  }

  /** usb_device_is_owned: a live, non-root device whose port on its parent hub has an owner. */
  function DeviceIsOwned(udevState: DevState, hasParent: bool, parentHasHub: bool, parentOwners: Owners, portnum: nat): (b: bool)
    requires hasParent && parentHasHub && udevState != NotAttached ==> 1 <= portnum <= |parentOwners|
    ensures b <==> udevState != NotAttached && hasParent && parentHasHub && parentOwners[portnum - 1].Some?
  {
    if udevState == NotAttached || !hasParent then false
    else if !parentHasHub then false
    else parentOwners[portnum - 1].Some?
  }

  /** A successful claim followed by a release by the same owner restores the table. */
  lemma ClaimThenReleaseRestores(hasHub: bool, hdevState: DevState, owners: Owners, port1: nat, owner: nat)
    requires Claim(hasHub, hdevState, owners, port1, owner).0 == 0
    ensures var after := Claim(hasHub, hdevState, owners, port1, owner).1;
            Release(hasHub, hdevState, after, port1, owner) == (0, owners)
  {
    var after := Claim(hasHub, hdevState, owners, port1, owner).1;
    assert after[port1 - 1 := None] == owners;
  }

  /** Ownership is exclusive: once claimed, a port refuses every other claim and every other owner's release. */
  lemma ClaimIsExclusive(hasHub: bool, hdevState: DevState, owners: Owners, port1: nat, o1: nat, o2: nat)
    requires Claim(hasHub, hdevState, owners, port1, o1).0 == 0
    ensures var after := Claim(hasHub, hdevState, owners, port1, o1).1;
            && Claim(hasHub, hdevState, after, port1, o2) == (-EBUSY, after)
            && (o2 != o1 ==> Release(hasHub, hdevState, after, port1, o2) == (-ENOENT, after))
  {
  }

  /** After release_all_ports nothing is held by that owner, and every other owner keeps its ports. */
  lemma ReleaseAllFreesOwner(owners: Owners, owner: nat, other: nat, n: nat)
    requires n < |owners| && other != owner
    ensures ReleaseAll(true, owners, owner)[n] != Some(owner)
    ensures owners[n] == Some(other) ==> ReleaseAll(true, owners, owner)[n] == Some(other)
  {
  }

  /** The owner slots of one hub (hub->ports[i]->port_owner), updated in place. */
  class PortOwnerTable {
    var owners: array<Option<nat>>

    constructor (maxchild: nat)
      ensures owners.Length == maxchild && fresh(owners)
      ensures forall n | 0 <= n < maxchild :: owners[n].None?
    {
      owners := new Option<nat>[maxchild](_ => None);
    }

    method ClaimPort(hasHub: bool, hdevState: DevState, port1: nat, owner: nat) returns (rc: int)
      modifies owners
      ensures (rc, owners[..]) == Claim(hasHub, hdevState, old(owners[..]), port1, owner)
    {
      rc := FindPortOwner(hasHub, hdevState, owners.Length, port1);
      if rc != 0 {
        return;
      }
      if owners[port1 - 1].Some? {
        return -EBUSY;
      }
      owners[port1 - 1] := Some(owner);
    }

    method ReleasePort(hasHub: bool, hdevState: DevState, port1: nat, owner: nat) returns (rc: int)
      modifies owners
      ensures (rc, owners[..]) == Release(hasHub, hdevState, old(owners[..]), port1, owner)
    {
      rc := FindPortOwner(hasHub, hdevState, owners.Length, port1);
      if rc != 0 {
        return;
      }
      if owners[port1 - 1] != Some(owner) {
        return -ENOENT;
      }
      owners[port1 - 1] := None;
    }

    method ReleaseAllPorts(hasHub: bool, owner: nat)
      modifies owners
      ensures owners[..] == ReleaseAll(hasHub, old(owners[..]), owner)
    {
      if !hasHub {
        return;
      }
      var n := 0;
      while n < owners.Length
        invariant 0 <= n <= owners.Length
        invariant forall k | 0 <= k < n :: owners[k] == (if old(owners[k]) == Some(owner) then None else old(owners[k]))
        invariant forall k | n <= k < owners.Length :: owners[k] == old(owners[k])
      {
        if owners[n] == Some(owner) {
          owners[n] := None;
        }
        n := n + 1;
      }
    }
  }
}
