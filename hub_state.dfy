/**
 * The device-state tree of drivers/usb/core/hub.c: usb_set_device_state and
 * recursively_mark_NOTATTACHED. Devices live in an arena indexed by creation
 * order; a hub's ports point at children created after it, so the tree
 * (root hub -> ports[i]->child -> ...) has no cycles by construction.
 */
module HubDeviceState {
  import opened UsbDefs

  /**
   * children[d][i] is hub->ports[i]->child of device d (None for an empty
   * port); hasHub[d] says usb_hub_to_struct_hub(d) is not NULL. A device
   * without a hub structure has no ports.
   */
  ghost predicate WellFormed(children: seq<seq<Option<nat>>>, hasHub: seq<bool>)
  {
    && |children| == |hasHub|
    && (forall d, i | 0 <= d < |children| && 0 <= i < |children[d]| && children[d][i].Some? ::
          d < children[d][i].value < |children|)
    && (forall d | 0 <= d < |children| && !hasHub[d] :: children[d] == [])
  }

  /** Device d and every device below it. */
  ghost function Subtree(children: seq<seq<Option<nat>>>, hasHub: seq<bool>, d: nat): set<nat>
    requires WellFormed(children, hasHub) && d < |children|
    decreases |children| - d, |children[d]| + 1
  {
    {d} + BelowPorts(children, hasHub, d, |children[d]|)
  }

  /** The devices below the first i ports of device d. */
  ghost function BelowPorts(children: seq<seq<Option<nat>>>, hasHub: seq<bool>, d: nat, i: nat): set<nat>
    requires WellFormed(children, hasHub) && d < |children| && i <= |children[d]|
    decreases |children| - d, i
  {
    if i == 0 then {}
    else BelowPorts(children, hasHub, d, i - 1) +
         (if children[d][i - 1].Some? then Subtree(children, hasHub, children[d][i - 1].value) else {})
  }

  /** The devices the code as written marks: those of the subtree that have a hub structure. */
  ghost function MarkedAsWritten(children: seq<seq<Option<nat>>>, hasHub: seq<bool>, d: nat): set<nat>
    requires WellFormed(children, hasHub) && d < |children|
  {
    set x | x in Subtree(children, hasHub, d) && x < |hasHub| && hasHub[x]
  }

  /** Every device below the first i ports of d has a larger index than d. */
  lemma {:induction false} BelowPortsBounds(children: seq<seq<Option<nat>>>, hasHub: seq<bool>, d: nat, i: nat, x: nat)
    requires WellFormed(children, hasHub) && d < |children| && i <= |children[d]|
    requires x in BelowPorts(children, hasHub, d, i)
    ensures d < x < |children|
    decreases |children| - d, i
  {
    if i > 0 {
      if x in BelowPorts(children, hasHub, d, i - 1) {
        BelowPortsBounds(children, hasHub, d, i - 1, x);
      } else {
        var c := children[d][i - 1].value;
        SubtreeBounds(children, hasHub, c, x);
      }
    }
  }

  /** A subtree holds its root and devices created after it. */
  lemma {:induction false} SubtreeBounds(children: seq<seq<Option<nat>>>, hasHub: seq<bool>, d: nat, x: nat)
    requires WellFormed(children, hasHub) && d < |children|
    requires x in Subtree(children, hasHub, d)
    ensures d <= x < |children|
    decreases |children| - d, |children[d]| + 1
  {
    if x != d {
      BelowPortsBounds(children, hasHub, d, |children[d]|, x);
    }
  }

  /** The subtree of a child on one of the first i ports lies below those ports. */
  lemma {:induction false} ChildSubtreeBelowPorts(children: seq<seq<Option<nat>>>, hasHub: seq<bool>, d: nat, i: nat, j: nat)
    requires WellFormed(children, hasHub) && d < |children| && j < i <= |children[d]|
    requires children[d][j].Some?
    ensures Subtree(children, hasHub, children[d][j].value) <= BelowPorts(children, hasHub, d, i)
    decreases i
  {
    if j < i - 1 {
      ChildSubtreeBelowPorts(children, hasHub, d, i - 1, j);
    }
  }

  /** Subtrees are closed under taking children: marking a subtree reaches every descendant. */
  lemma {:induction false} SubtreeClosed(children: seq<seq<Option<nat>>>, hasHub: seq<bool>, d: nat, x: nat, i: nat)
    requires WellFormed(children, hasHub) && d < |children|
    requires x in Subtree(children, hasHub, d)
    requires x < |children| && i < |children[x]| && children[x][i].Some?
    ensures children[x][i].value in Subtree(children, hasHub, d)
    decreases |children| - d
  {
    var c := children[x][i].value;
    if x == d {
      ChildSubtreeBelowPorts(children, hasHub, d, |children[d]|, i);
      assert c in Subtree(children, hasHub, c);
    } else {
      var j := PortLeadingTo(children, hasHub, d, |children[d]|, x);
      var c' := children[d][j].value;
      SubtreeClosed(children, hasHub, c', x, i);
      ChildSubtreeBelowPorts(children, hasHub, d, |children[d]|, j);
    }
  }

  /** A device below the first i ports of d is in the subtree of the child on one of them. */
  lemma {:induction false} PortLeadingTo(children: seq<seq<Option<nat>>>, hasHub: seq<bool>, d: nat, i: nat, x: nat)
    returns (j: nat)
    requires WellFormed(children, hasHub) && d < |children| && i <= |children[d]|
    requires x in BelowPorts(children, hasHub, d, i)
    ensures j < i && children[d][j].Some? && x in Subtree(children, hasHub, children[d][j].value)
    decreases i
  {
    if x in BelowPorts(children, hasHub, d, i - 1) {
      j := PortLeadingTo(children, hasHub, d, i - 1, x);
    } else {
      j := i - 1;
    }
  }

  /** No device created before d (its parent hub, any ancestor) lies in d's subtree, so marking d leaves them alone. */
  lemma OutsideIsUntouched(children: seq<seq<Option<nat>>>, hasHub: seq<bool>, d: nat, x: nat)
    requires WellFormed(children, hasHub) && d < |children|
    requires x < d
    ensures x !in Subtree(children, hasHub, d)
  {
    if x in Subtree(children, hasHub, d) {
      SubtreeBounds(children, hasHub, d, x);
    }
  }

  /**
   * active_duration bookkeeping of usb_set_device_state: entering SUSPENDED
   * adds the current time, leaving it subtracts it, other moves keep it.
   */
  function DurationAfter(from: DevState, to: DevState, dur: int, now: int): (r: int)
    ensures from == Suspended && to != Suspended ==> r == dur - now
    ensures from != Suspended && to == Suspended ==> r == dur + now
    ensures (from == Suspended) == (to == Suspended) ==> r == dur
  {
    if from == Suspended && to != Suspended then dur - now
    else if to == Suspended && from != Suspended then dur + now
    else dur
  }

  /** A suspend at t1 followed by a resume at t2 takes the suspended interval out of the active time. */
  lemma SuspendResumeIsNet(s1: DevState, s2: DevState, dur: int, t1: int, t2: int)
    requires s1 != Suspended && s2 != Suspended
    ensures DurationAfter(Suspended, s2, DurationAfter(s1, Suspended, dur, t1), t2) == dur - (t2 - t1)
  {
  }

  /**
   * The wakeup capability usb_set_device_state reports for a live device:
   * unchanged (None) for a root hub or around a suspend, the configuration's
   * remote-wakeup attribute on entering CONFIGURED, otherwise off.
   */
  function WakeupAfter(hasParent: bool, from: DevState, to: DevState, configWakeup: bool): (w: Option<bool>)
    ensures w.Some? <==> hasParent && from != Suspended && to != Suspended
    ensures w == Some(true) ==> to == Configured && configWakeup
    ensures w.Some? ==> w.value == (to == Configured && configWakeup)
  {
    if !hasParent then None
    else if from == Suspended || to == Suspended then None
    else if to == Configured then Some(configWakeup)
    else Some(false)
  }

  /** The arena of devices: the fixed topology and the per-device state the code overwrites. */
  class DeviceTree {
    const children: seq<seq<Option<nat>>>
    const hasHub: seq<bool>
    const hasParent: seq<bool>
    var state: array<DevState>
    var activeDuration: array<int>

    ghost predicate Valid()
      reads this
    {
      && WellFormed(children, hasHub)
      && |hasParent| == |children|
      && state.Length == |children|
      && activeDuration.Length == |children|
    }

    constructor (children: seq<seq<Option<nat>>>, hasHub: seq<bool>, hasParent: seq<bool>,
                 states: seq<DevState>, durations: seq<int>)
      requires WellFormed(children, hasHub)
      requires |hasParent| == |states| == |durations| == |children|
      ensures Valid() && fresh(state) && fresh(activeDuration)
      ensures this.children == children && this.hasHub == hasHub && this.hasParent == hasParent
      ensures state[..] == states && activeDuration[..] == durations
    {
      this.children := children;
      this.hasHub := hasHub;
      this.hasParent := hasParent;
      state := new DevState[|states|](i requires 0 <= i < |states| => states[i]);
      activeDuration := new int[|durations|](i requires 0 <= i < |durations| => durations[i]);
    }

    /**
     * recursively_mark_NOTATTACHED with the guard on the hub structure
     * protecting only the walk over the ports: every device of the subtree
     * becomes NOTATTACHED, a suspended one also takes `now` off its active
     * duration, and nothing outside the subtree changes.
     */
    method MarkNotAttached(d: nat, now: int)
      requires Valid() && d < |children|
      modifies state, activeDuration
      ensures forall x | 0 <= x < state.Length ::
                state[x] == (if x in Subtree(children, hasHub, d) then NotAttached else old(state[x]))
      ensures forall x | 0 <= x < activeDuration.Length ::
                activeDuration[x] == (if x in Subtree(children, hasHub, d) && old(state[x]) == Suspended
                                      then old(activeDuration[x]) - now else old(activeDuration[x]))
      decreases |children| - d
    {
      var i := 0;
      while i < |children[d]|
        invariant 0 <= i <= |children[d]|
        invariant forall x | 0 <= x < state.Length ::
                    state[x] == (if x in BelowPorts(children, hasHub, d, i) then NotAttached else old(state[x]))
        invariant forall x | 0 <= x < activeDuration.Length ::
                    activeDuration[x] == (if x in BelowPorts(children, hasHub, d, i) && old(state[x]) == Suspended
                                          then old(activeDuration[x]) - now else old(activeDuration[x]))
      {
        if children[d][i].Some? {
          MarkNotAttached(children[d][i].value, now);
        }
        i := i + 1;
      }
      if d in BelowPorts(children, hasHub, d, i) {
        BelowPortsBounds(children, hasHub, d, i, d);
      }
      if state[d] == Suspended {
        activeDuration[d] := activeDuration[d] - now;
      }
      state[d] := NotAttached;
    }

    /**
     * recursively_mark_NOTATTACHED exactly as hub.c:1551-1566 has it: the
     * early return for a device without a hub structure also skips the
     * marking, so only the hubs of the subtree become NOTATTACHED.
     */
    method MarkNotAttachedAsWritten(d: nat, now: int)
      requires Valid() && d < |children|
      modifies state, activeDuration
      ensures forall x | 0 <= x < state.Length ::
                state[x] == (if x in MarkedAsWritten(children, hasHub, d) then NotAttached else old(state[x]))
      ensures forall x | 0 <= x < activeDuration.Length ::
                activeDuration[x] == (if x in MarkedAsWritten(children, hasHub, d) && old(state[x]) == Suspended
                                      then old(activeDuration[x]) - now else old(activeDuration[x]))
      decreases |children| - d
    {
      if !hasHub[d] {
        assert Subtree(children, hasHub, d) == {d};
        assert MarkedAsWritten(children, hasHub, d) == {};
        return;
      }
      var i := 0;
      while i < |children[d]|
        invariant 0 <= i <= |children[d]|
        invariant forall x | 0 <= x < state.Length ::
                    state[x] == (if x in BelowPorts(children, hasHub, d, i) && hasHub[x] then NotAttached else old(state[x]))
        invariant forall x | 0 <= x < activeDuration.Length ::
                    activeDuration[x] == (if x in BelowPorts(children, hasHub, d, i) && hasHub[x] && old(state[x]) == Suspended
                                          then old(activeDuration[x]) - now else old(activeDuration[x]))
      {
        if children[d][i].Some? {
          MarkNotAttachedAsWritten(children[d][i].value, now);
        }
        i := i + 1;
      }
      if d in BelowPorts(children, hasHub, d, i) {
        BelowPortsBounds(children, hasHub, d, i, d);
      }
      if state[d] == Suspended {
        activeDuration[d] := activeDuration[d] - now;
      }
      state[d] := NotAttached;
    }

    /**
     * usb_set_device_state(d, newState) at time `now`: a NOTATTACHED device
     * stays so; a move to NOTATTACHED marks the whole subtree; any other
     * move stores the new state and adjusts the active duration. Returns
     * the wakeup capability handed to device_set_wakeup_capable, if any.
     */
    method SetDeviceState(d: nat, newState: DevState, now: int, configWakeup: bool) returns (wakeup: Option<bool>)
      requires Valid() && d < |children|
      modifies state, activeDuration
      ensures old(state[d]) == NotAttached ==>
                wakeup.None? && state[..] == old(state[..]) && activeDuration[..] == old(activeDuration[..])
      ensures old(state[d]) != NotAttached && newState != NotAttached ==>
                && wakeup == WakeupAfter(hasParent[d], old(state[d]), newState, configWakeup)
                && state[..] == old(state[..])[d := newState]
                && activeDuration[..] == old(activeDuration[..])[d := DurationAfter(old(state[d]), newState, old(activeDuration[d]), now)]
      ensures old(state[d]) != NotAttached && newState == NotAttached ==>
                && wakeup.None?
                && (forall x | 0 <= x < state.Length ::
                      state[x] == (if x in Subtree(children, hasHub, d) then NotAttached else old(state[x])))
                && (forall x | 0 <= x < activeDuration.Length ::
                      activeDuration[x] == (if x in Subtree(children, hasHub, d) && old(state[x]) == Suspended
                                            then old(activeDuration[x]) - now else old(activeDuration[x])))
    {
      wakeup := None;
      if state[d] == NotAttached {
      } else if newState != NotAttached {
        wakeup := WakeupAfter(hasParent[d], state[d], newState, configWakeup);
        activeDuration[d] := DurationAfter(state[d], newState, activeDuration[d], now);
        state[d] := newState;
      } else {
        MarkNotAttached(d, now);
      }
    }
  }

  /**
   * The input that shows the early return of hub.c:1554-1555 at work: a
   * single configured device with no hub structure (any leaf). It belongs to
   * its own subtree, yet the code as written does not mark it.
   */
  lemma LeafEscapesMarkingAsWritten()
    ensures WellFormed([[]], [false])
    ensures 0 in Subtree([[]], [false], 0)
    ensures 0 !in MarkedAsWritten([[]], [false], 0)
  {
    assert Subtree([[]], [false], 0) == {0};
  }
}
