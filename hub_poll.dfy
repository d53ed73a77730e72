/**
 * The polling loops of drivers/usb/core/hub.c: hub_port_debounce,
 * hub_port_wait_reset and the wait inside hub_usb3_port_disable, plus
 * hub_port_disable, which uses the last one. Each GET_PORT_STATUS answer is
 * taken from an oracle sequence `answers` (the k-th element is what
 * hub_port_status returns at the k-th poll); msleep is not modelled, the
 * elapsed time is the loop counter the source keeps.
 */
module HubPolling {
  import opened UsbDefs
  import opened HubPortStatus
  import opened HubDeviceState

  const HUB_DEBOUNCE_TIMEOUT: nat := 2000
  const HUB_DEBOUNCE_STEP: nat := 25
  const HUB_DEBOUNCE_STABLE: nat := 100
  /** Reads made by a loop that polls every HUB_DEBOUNCE_STEP until HUB_DEBOUNCE_TIMEOUT: at 0, 25, ..., 2000 ms. */
  const DEBOUNCE_POLLS: nat := 81

  const HUB_SHORT_RESET_TIME: nat := 10
  const HUB_BH_RESET_TIME: nat := 50
  const HUB_LONG_RESET_TIME: nat := 200
  const HUB_RESET_TIMEOUT: nat := 800

  // ---------------------------------------------------------------------
  // hub_port_debounce

  /** `portstatus & USB_PORT_STAT_CONNECTION`, the value kept in `connection`. */
  function ConnBit(status: Word): (c: int)
    ensures c == 0 || c == 1
    ensures c == 1 <==> HasBit(status, PORT_STAT_CONNECTION)
  {
    if HasBit(status, PORT_STAT_CONNECTION) then 1 else 0
  }

  /** A poll that continues a stable period with connection bit `conn`. */
  predicate Steady(r: StatusRead, conn: int) {
    r.StatusOk? && !HasBit(r.change, PORT_STAT_C_CONNECTION) && ConnBit(r.status) == conn
  }

  /** What hub_port_debounce returns: the port status (non-negative) or a negative error. */
  datatype Debounced = Debounced(status: Word) | DebounceErr(err: int)

  /**
   * The debounce loop from the poll at t * 25 ms on, with the loop's
   * `connection` and `stable_time`: the value hub_port_debounce returns and
   * the number of polls made.
   */
  function DebounceFrom(answers: seq<StatusRead>, mustBeConnected: bool, t: nat, connection: int, stable: nat): (Debounced, nat)
    requires |answers| >= DEBOUNCE_POLLS && t < DEBOUNCE_POLLS
    decreases DEBOUNCE_POLLS - t
  {
    match answers[t]
    case StatusErr(e) => (DebounceErr(e), t + 1)
    case StatusOk(status, change) =>
      var steady := !HasBit(change, PORT_STAT_C_CONNECTION) && ConnBit(status) == connection;
      var connection' := if steady then connection else ConnBit(status);
      var stable' := if !steady then 0
                     else if !mustBeConnected || connection == 1 then stable + HUB_DEBOUNCE_STEP
                     else stable;
      if stable' >= HUB_DEBOUNCE_STABLE then (Debounced(status), t + 1)
      else if t * HUB_DEBOUNCE_STEP >= HUB_DEBOUNCE_TIMEOUT then (DebounceErr(-ETIMEDOUT), t + 1)
      else DebounceFrom(answers, mustBeConnected, t + 1, connection', stable')
  }

  /**
   * The shape of every outcome from poll t on: at most 81 polls, all but
   * the last of them successful; a failed last read gives its error, a good
   * one its status or -ETIMEDOUT, the latter only at 2000 ms.
   */
  ghost predicate DebounceShaped(answers: seq<StatusRead>, t: nat, r: (Debounced, nat))
    requires |answers| >= DEBOUNCE_POLLS
  {
    && t < r.1 <= DEBOUNCE_POLLS
    && (forall j | t <= j < r.1 - 1 :: answers[j].StatusOk?)
    && (answers[r.1 - 1].StatusErr? ==> r.0 == DebounceErr(answers[r.1 - 1].err))
    && (answers[r.1 - 1].StatusOk? ==> r.0 == DebounceErr(-ETIMEDOUT) || r.0 == Debounced(answers[r.1 - 1].status))
    && (answers[r.1 - 1].StatusOk? && r.1 < DEBOUNCE_POLLS ==> r.0 == Debounced(answers[r.1 - 1].status))
  }

  lemma {:induction false} DebounceShape(answers: seq<StatusRead>, mustBeConnected: bool, t: nat, connection: int, stable: nat)
    requires |answers| >= DEBOUNCE_POLLS && t < DEBOUNCE_POLLS
    ensures DebounceShaped(answers, t, DebounceFrom(answers, mustBeConnected, t, connection, stable))
    decreases DEBOUNCE_POLLS - t
  {
    if answers[t].StatusOk? {
      var status, change := answers[t].status, answers[t].change;
      var steady := !HasBit(change, PORT_STAT_C_CONNECTION) && ConnBit(status) == connection;
      var connection' := if steady then connection else ConnBit(status);
      var stable' := if !steady then 0
                     else if !mustBeConnected || connection == 1 then stable + HUB_DEBOUNCE_STEP
                     else stable;
      if stable' < HUB_DEBOUNCE_STABLE && t * HUB_DEBOUNCE_STEP < HUB_DEBOUNCE_TIMEOUT {
        DebounceShape(answers, mustBeConnected, t + 1, connection', stable');
      }
    }
  }

  /** hub_port_debounce from its initial state (connection 0xffff, stable_time 0). */
  function Debounce(answers: seq<StatusRead>, mustBeConnected: bool): (r: (Debounced, nat))
    requires |answers| >= DEBOUNCE_POLLS
    ensures DebounceShaped(answers, 0, r)
  {
    DebounceShape(answers, mustBeConnected, 0, 0xffff, 0);
    DebounceFrom(answers, mustBeConnected, 0, 0xffff, 0)
  }

  /**
   * hub_port_debounce: polls every 25 ms until the connection bit has been
   * steady, with no connect change, for 100 ms (counting only connected time
   * when `mustBeConnected`), or until 2000 ms have passed. Returns the last
   * port status, a read error, or -ETIMEDOUT, and the number of polls.
   */
  method HubPortDebounce(answers: seq<StatusRead>, mustBeConnected: bool) returns (ret: Debounced, polls: nat)
    requires |answers| >= DEBOUNCE_POLLS
    ensures (ret, polls) == Debounce(answers, mustBeConnected)
  {
    var stableTime: nat := 0;
    var connection := 0xffff;
    var totalTime := 0;
    var i := 0;
    var portstatus: Word := 0;
    while true
      invariant 0 <= i < DEBOUNCE_POLLS && totalTime == i * HUB_DEBOUNCE_STEP
      invariant stableTime < HUB_DEBOUNCE_STABLE
      invariant DebounceFrom(answers, mustBeConnected, i, connection, stableTime) == Debounce(answers, mustBeConnected)
      decreases DEBOUNCE_POLLS - i
    {
      if answers[i].StatusErr? {
        return DebounceErr(answers[i].err), i + 1;
      }
      ghost var connection0, stable0 := connection, stableTime;
      portstatus := answers[i].status;
      var portchange := answers[i].change;
      if !HasBit(portchange, PORT_STAT_C_CONNECTION) && ConnBit(portstatus) == connection {
        if !mustBeConnected || connection == 1 {
          stableTime := stableTime + HUB_DEBOUNCE_STEP;
        }
        if stableTime >= HUB_DEBOUNCE_STABLE {
          polls := i + 1;
          break;
        }
      } else {
        stableTime := 0;
        connection := ConnBit(portstatus);
      }
      // a connect change is acknowledged with CLEAR_FEATURE(C_PORT_CONNECTION) here
      if totalTime >= HUB_DEBOUNCE_TIMEOUT {
        polls := i + 1;
        break;
      }
      assert DebounceFrom(answers, mustBeConnected, i, connection0, stable0)
          == DebounceFrom(answers, mustBeConnected, i + 1, connection, stableTime);
      totalTime := totalTime + HUB_DEBOUNCE_STEP;
      i := i + 1;
    }
    if stableTime < HUB_DEBOUNCE_STABLE {
      return DebounceErr(-ETIMEDOUT), polls;
    }
    return Debounced(portstatus), polls;
  }

  /**
   * What the loop state means before poll t: `stable` counts the steady
   * polls since the last one that (re)started the period, which is still
   * in `answers`, and a period only counts when the connection is the one
   * required.
   */
  ghost predicate DebounceHistory(answers: seq<StatusRead>, mustBeConnected: bool, t: nat, connection: int, stable: nat)
    requires |answers| >= DEBOUNCE_POLLS && t < DEBOUNCE_POLLS
  {
    && stable % HUB_DEBOUNCE_STEP == 0 && stable < HUB_DEBOUNCE_STABLE
    && (t == 0 ==> connection == 0xffff && stable == 0)
    && (t > 0 ==>
          var m := stable / HUB_DEBOUNCE_STEP;
          && m < t
          && answers[t - 1 - m].StatusOk? && ConnBit(answers[t - 1 - m].status) == connection
          && (forall j | t - m <= j < t :: Steady(answers[j], connection)))
    && (stable > 0 && mustBeConnected ==> connection == 1)
  }

  /**
   * A debounce that stopped after `polls` polls with a status (not a
   * timeout) returns the status of a port whose connection bit held over
   * the last five polls, the last four of them with no connect change, and
   * was connected if that was required.
   */
  ghost predicate StableEnding(answers: seq<StatusRead>, mustBeConnected: bool, ret: Debounced, polls: nat)
    requires |answers| >= DEBOUNCE_POLLS
  {
    var k := polls - 1;
    1 <= polls <= DEBOUNCE_POLLS && (answers[k].StatusOk? && ret.Debounced? ==>
      && k >= 4 && ret.status == answers[k].status
      && answers[k - 4].StatusOk? && ConnBit(answers[k - 4].status) == ConnBit(answers[k].status)
      && (forall j | k - 3 <= j <= k :: Steady(answers[j], ConnBit(answers[k].status)))
      && (mustBeConnected ==> HasBit(answers[k].status, PORT_STAT_CONNECTION)))
  }

  /** The stability promise behind a successful debounce, from any reachable loop state. */
  lemma {:induction false} DebounceFromIsStable(answers: seq<StatusRead>, mustBeConnected: bool, t: nat, connection: int, stable: nat)
    requires |answers| >= DEBOUNCE_POLLS && t < DEBOUNCE_POLLS
    requires DebounceHistory(answers, mustBeConnected, t, connection, stable)
    ensures StableEnding(answers, mustBeConnected, DebounceFrom(answers, mustBeConnected, t, connection, stable).0,
                         DebounceFrom(answers, mustBeConnected, t, connection, stable).1)
    decreases DEBOUNCE_POLLS - t
  {
    DebounceShape(answers, mustBeConnected, t, connection, stable);
    if answers[t].StatusOk? {
      var status, change := answers[t].status, answers[t].change;
      var steady := !HasBit(change, PORT_STAT_C_CONNECTION) && ConnBit(status) == connection;
      var connection' := if steady then connection else ConnBit(status);
      var stable' := if !steady then 0
                     else if !mustBeConnected || connection == 1 then stable + HUB_DEBOUNCE_STEP
                     else stable;
      if stable' >= HUB_DEBOUNCE_STABLE {
        assert steady && stable == 75 && t > 0;
        assert DebounceFrom(answers, mustBeConnected, t, connection, stable) == (Debounced(status), t + 1);
        assert ConnBit(status) == connection;
        assert forall j | t - 3 <= j <= t :: Steady(answers[j], connection);
      } else if t * HUB_DEBOUNCE_STEP < HUB_DEBOUNCE_TIMEOUT {
        assert DebounceFrom(answers, mustBeConnected, t, connection, stable)
            == DebounceFrom(answers, mustBeConnected, t + 1, connection', stable');
        HistoryAdvances(answers, mustBeConnected, t, connection, stable);
        DebounceFromIsStable(answers, mustBeConnected, t + 1, connection', stable');
      }
    }
  }

  /** One poll that neither fails nor finishes the loop keeps DebounceHistory. */
  lemma HistoryAdvances(answers: seq<StatusRead>, mustBeConnected: bool, t: nat, connection: int, stable: nat)
    requires |answers| >= DEBOUNCE_POLLS && t + 1 < DEBOUNCE_POLLS
    requires DebounceHistory(answers, mustBeConnected, t, connection, stable)
    requires answers[t].StatusOk?
    ensures var steady := !HasBit(answers[t].change, PORT_STAT_C_CONNECTION) && ConnBit(answers[t].status) == connection;
            var stable' := if !steady then 0
                           else if !mustBeConnected || connection == 1 then stable + HUB_DEBOUNCE_STEP
                           else stable;
            stable' < HUB_DEBOUNCE_STABLE ==>
              DebounceHistory(answers, mustBeConnected, t + 1, if steady then connection else ConnBit(answers[t].status), stable')
  {
    var steady := !HasBit(answers[t].change, PORT_STAT_C_CONNECTION) && ConnBit(answers[t].status) == connection;
    if steady {
      var m := stable / HUB_DEBOUNCE_STEP;
      if !mustBeConnected || connection == 1 {
        var m' := (stable + HUB_DEBOUNCE_STEP) / HUB_DEBOUNCE_STEP;
        assert m' == m + 1;
        assert t + 1 - 1 - m' == t - 1 - m;
      } else {
        assert stable == 0;
      }
    }
  }

  /** From the initial state: every status hub_port_debounce returns is a stable one. */
  lemma DebounceSuccessIsStable(answers: seq<StatusRead>, mustBeConnected: bool)
    requires |answers| >= DEBOUNCE_POLLS
    ensures StableEnding(answers, mustBeConnected, Debounce(answers, mustBeConnected).0, Debounce(answers, mustBeConnected).1)
  {
    DebounceFromIsStable(answers, mustBeConnected, 0, 0xffff, 0);
  }

  /** Conversely, a port whose status holds still is reported after the fifth poll (100 ms). */
  lemma SteadyPortDebounces(answers: seq<StatusRead>, mustBeConnected: bool, status: Word, change: Word)
    requires |answers| >= DEBOUNCE_POLLS
    requires forall j | 0 <= j < 5 :: answers[j] == StatusOk(status, change)
    requires !HasBit(change, PORT_STAT_C_CONNECTION)
    requires mustBeConnected ==> HasBit(status, PORT_STAT_CONNECTION)
    ensures Debounce(answers, mustBeConnected) == (Debounced(status), 5)
  {
    var c := ConnBit(status);
    assert DebounceFrom(answers, mustBeConnected, 4, c, 75) == (Debounced(status), 5);
    assert DebounceFrom(answers, mustBeConnected, 3, c, 50) == (Debounced(status), 5);
    assert DebounceFrom(answers, mustBeConnected, 2, c, 25) == (Debounced(status), 5);
    assert DebounceFrom(answers, mustBeConnected, 1, c, 0) == (Debounced(status), 5);
  }

  lemma {:induction false} EmptyPortFrom(answers: seq<StatusRead>, t: nat, connection: int)
    requires |answers| >= DEBOUNCE_POLLS && t < DEBOUNCE_POLLS
    requires forall j | t <= j < DEBOUNCE_POLLS :: answers[j].StatusOk? && !HasBit(answers[j].status, PORT_STAT_CONNECTION)
    requires connection == 0 || connection == 0xffff
    ensures DebounceFrom(answers, true, t, connection, 0) == (DebounceErr(-ETIMEDOUT), DEBOUNCE_POLLS)
    decreases DEBOUNCE_POLLS - t
  {
    if t * HUB_DEBOUNCE_STEP < HUB_DEBOUNCE_TIMEOUT {
      EmptyPortFrom(answers, t + 1, 0);
    }
  }

  /** A port that never reports a connection cannot pass a debounce that requires one: it times out after 2000 ms. */
  lemma EmptyPortTimesOut(answers: seq<StatusRead>)
    requires |answers| >= DEBOUNCE_POLLS
    requires forall j | 0 <= j < DEBOUNCE_POLLS :: answers[j].StatusOk? && !HasBit(answers[j].status, PORT_STAT_CONNECTION)
    ensures Debounce(answers, true) == (DebounceErr(-ETIMEDOUT), DEBOUNCE_POLLS)
  {
    EmptyPortFrom(answers, 0, 0xffff);
  }

  // ---------------------------------------------------------------------
  // hub_port_wait_reset

  /**
   * The values of delay_time at the successive reads of hub_port_wait_reset
   * while the port still reports RESET. Each read follows an msleep of the
   * delay then in force, so the k-th read happens one delay after the k-th
   * value. The delay switches to HUB_LONG_RESET_TIME once delay_time has
   * reached 2 * HUB_SHORT_RESET_TIME.
   */
  function ResetSchedule(delayTime: nat, delay: nat): (ts: seq<nat>)
    requires delay > 0
    ensures forall k | 0 <= k < |ts| :: delayTime <= ts[k] < HUB_RESET_TIMEOUT
    decreases HUB_RESET_TIMEOUT - delayTime
  {
    if delayTime >= HUB_RESET_TIMEOUT then []
    else
      var delay' := if delayTime >= 2 * HUB_SHORT_RESET_TIME then HUB_LONG_RESET_TIME else delay;
      [delayTime] + ResetSchedule(delayTime + delay', delay')
  }

  lemma {:induction false} LongScheduleBound(delayTime: nat, delay: nat)
    requires delay > 0 && 2 * HUB_SHORT_RESET_TIME <= delayTime < HUB_RESET_TIMEOUT + HUB_LONG_RESET_TIME
    ensures |ResetSchedule(delayTime, delay)| <= (HUB_RESET_TIMEOUT + 199 - delayTime) / 200
    decreases HUB_RESET_TIMEOUT - delayTime
  {
    if delayTime < HUB_RESET_TIMEOUT {
      LongScheduleBound(delayTime + HUB_LONG_RESET_TIME, HUB_LONG_RESET_TIME);
      assert (HUB_RESET_TIMEOUT + 199 - delayTime - 200) / 200 + 1 == (HUB_RESET_TIMEOUT + 199 - delayTime) / 200;
    }
  }

  lemma {:induction false} ShortScheduleBound(delayTime: nat, delay: nat)
    requires delay > 0 && delayTime <= 2 * HUB_SHORT_RESET_TIME
    ensures |ResetSchedule(delayTime, delay)| <= 24 - delayTime
    decreases HUB_RESET_TIMEOUT - delayTime
  {
    if delayTime == 2 * HUB_SHORT_RESET_TIME {
      LongScheduleBound(delayTime, delay);
    } else if delayTime + delay <= 2 * HUB_SHORT_RESET_TIME {
      ShortScheduleBound(delayTime + delay, delay);
    } else if delayTime + delay < HUB_RESET_TIMEOUT {
      LongScheduleBound(delayTime + delay, delay);
    }
  }

  /** Whatever delay the caller starts with, the wait makes at most 24 reads (delay 1: delay_time 0..20, 220, 420, 620). */
  lemma ResetScheduleAtMost24(delay: nat)
    requires delay > 0
    ensures |ResetSchedule(0, delay)| <= 24
  {
    ShortScheduleBound(0, delay);
  }

  /**
   * A short (10 ms) reset: delay_time is 0, 10 and 20 at the first three
   * reads, then grows by 200; the reads themselves happen after three 10 ms
   * sleeps (10, 20, 30 ms) and then at 230, 430 and 630 ms.
   */
  lemma ShortResetSchedule()
    ensures ResetSchedule(0, HUB_SHORT_RESET_TIME) == [0, 10, 20, 220, 420, 620]
  {
    assert ResetSchedule(620, 200) == [620];
    assert ResetSchedule(420, 200) == [420, 620];
    assert ResetSchedule(220, 200) == [220, 420, 620];
    assert ResetSchedule(20, 10) == [20, 220, 420, 620];
    assert ResetSchedule(10, 10) == [10, 20, 220, 420, 620];
  }

  /** A warm (BH, 50 ms) reset: delay_time 0 and 50, then steps of 200; the reads happen at 50, 100, 300, 500 and 700 ms. */
  lemma BhResetSchedule()
    ensures ResetSchedule(0, HUB_BH_RESET_TIME) == [0, 50, 250, 450, 650]
  {
    assert ResetSchedule(650, 200) == [650];
    assert ResetSchedule(450, 200) == [450, 650];
    assert ResetSchedule(250, 200) == [250, 450, 650];
    assert ResetSchedule(50, 50) == [50, 250, 450, 650];
  }

  /** A long (200 ms) reset: delay_time steps by 200; the reads happen at 200, 400, 600 and 800 ms. */
  lemma LongResetSchedule()
    ensures ResetSchedule(0, HUB_LONG_RESET_TIME) == [0, 200, 400, 600]
  {
    assert ResetSchedule(600, 200) == [600];
    assert ResetSchedule(400, 200) == [400, 600];
    assert ResetSchedule(200, 200) == [200, 400, 600];
  }

  /**
   * The tail of hub_port_wait_reset once polling stopped at `status` /
   * `change`: the error code, and the speed stored in udev when there is
   * one and the reset succeeded.
   */
  function ResetOutcome(status: Word, change: Word, superspeed: bool, wusb: bool, hasUdev: bool): (r: (int, Option<Speed>))
    ensures r.0 == 0 || r.0 == -EBUSY || r.0 == -ENOTCONN
    ensures r.0 == 0 <==>
              && !HasBit(status, PORT_STAT_RESET) && !WarmResetRequired(superspeed, status)
              && HasBit(status, PORT_STAT_CONNECTION) && HasBit(status, PORT_STAT_ENABLE)
              && (superspeed || !HasBit(change, PORT_STAT_C_CONNECTION))
    ensures HasBit(status, PORT_STAT_RESET) ==> r.0 == -EBUSY
    ensures !HasBit(status, PORT_STAT_RESET) && WarmResetRequired(superspeed, status) ==> r.0 == -ENOTCONN
    ensures !HasBit(status, PORT_STAT_RESET) && !HasBit(status, PORT_STAT_CONNECTION) ==> r.0 == -ENOTCONN
    ensures && !HasBit(status, PORT_STAT_RESET) && !WarmResetRequired(superspeed, status)
            && HasBit(status, PORT_STAT_CONNECTION) && !superspeed && HasBit(change, PORT_STAT_C_CONNECTION)
            ==> r.0 == -ENOTCONN
    ensures && !HasBit(status, PORT_STAT_RESET) && !WarmResetRequired(superspeed, status)
            && HasBit(status, PORT_STAT_CONNECTION) && (superspeed || !HasBit(change, PORT_STAT_C_CONNECTION))
            && !HasBit(status, PORT_STAT_ENABLE)
            ==> r.0 == -EBUSY
    ensures r.1.Some? <==> r.0 == 0 && hasUdev
    ensures r.1.Some? ==> r.1.value != SpeedUnknown
    ensures r.1 == Some(SpeedWireless) <==> r.1.Some? && wusb
    ensures r.1.Some? && !wusb && !superspeed && HasBit(status, PORT_STAT_HIGH_SPEED) ==> r.1 == Some(SpeedHigh)
    ensures r.1.Some? && !wusb && !superspeed && !HasBit(status, PORT_STAT_HIGH_SPEED) && HasBit(status, PORT_STAT_LOW_SPEED)
            ==> r.1 == Some(SpeedLow)
    ensures r.1.Some? && !wusb && !superspeed && !HasBit(status, PORT_STAT_HIGH_SPEED) && !HasBit(status, PORT_STAT_LOW_SPEED)
            ==> r.1 == Some(SpeedFull)
    ensures r.1 == Some(SpeedSuper) <==> r.1.Some? && !wusb && superspeed
    ensures r.1 == Some(SpeedHigh) ==> !superspeed && HasBit(status, PORT_STAT_HIGH_SPEED)
    ensures r.1 == Some(SpeedLow) ==> !superspeed && !HasBit(status, PORT_STAT_HIGH_SPEED) && HasBit(status, PORT_STAT_LOW_SPEED)
    ensures r.1 == Some(SpeedFull) ==> !superspeed && !wusb && !HasBit(status, PORT_STAT_HIGH_SPEED) && !HasBit(status, PORT_STAT_LOW_SPEED)
  {
    if HasBit(status, PORT_STAT_RESET) then (-EBUSY, None)
    else if WarmResetRequired(superspeed, status) then (-ENOTCONN, None)
    else if !HasBit(status, PORT_STAT_CONNECTION) then (-ENOTCONN, None)
    else if !superspeed && HasBit(change, PORT_STAT_C_CONNECTION) then (-ENOTCONN, None)
    else if !HasBit(status, PORT_STAT_ENABLE) then (-EBUSY, None)
    else if !hasUdev then (0, None)
    else if wusb then (0, Some(SpeedWireless))
    else if superspeed then (0, Some(SpeedSuper))
    else if HasBit(status, PORT_STAT_HIGH_SPEED) then (0, Some(SpeedHigh))
    else if HasBit(status, PORT_STAT_LOW_SPEED) then (0, Some(SpeedLow))
    else (0, Some(SpeedFull))
  }

  /**
   * hub_port_wait_reset with the caller's initial `delay`: reads once per
   * entry of ResetSchedule until RESET clears, then classifies the last
   * status. A read error ends the wait with that error.
   */
  method HubPortWaitReset(answers: seq<StatusRead>, superspeed: bool, wusb: bool, hasUdev: bool, delay: nat)
    returns (ret: int, speed: Option<Speed>, polls: nat)
    requires delay > 0 && |answers| >= |ResetSchedule(0, delay)|
    ensures 1 <= polls <= |ResetSchedule(0, delay)|
    ensures forall k | 0 <= k < polls - 1 :: answers[k].StatusOk? && HasBit(answers[k].status, PORT_STAT_RESET)
    ensures answers[polls - 1].StatusErr? ==> ret == answers[polls - 1].err && speed.None?
    ensures answers[polls - 1].StatusOk? ==>
              (ret, speed) == ResetOutcome(answers[polls - 1].status, answers[polls - 1].change, superspeed, wusb, hasUdev)
    ensures answers[polls - 1].StatusOk? && HasBit(answers[polls - 1].status, PORT_STAT_RESET) ==>
              polls == |ResetSchedule(0, delay)|
  {
    var delayTime := 0;
    var curDelay := delay;
    var i := 0;
    var portstatus: Word := 0;
    var portchange: Word := 0;
    while delayTime < HUB_RESET_TIMEOUT
      invariant curDelay > 0
      invariant |ResetSchedule(0, delay)| == i + |ResetSchedule(delayTime, curDelay)|
      invariant forall k | 0 <= k < i :: answers[k].StatusOk? && HasBit(answers[k].status, PORT_STAT_RESET)
      invariant i > 0 ==> answers[i - 1] == StatusOk(portstatus, portchange)
      invariant i == 0 ==> delayTime == 0
      decreases HUB_RESET_TIMEOUT - delayTime
    {
      if answers[i].StatusErr? {
        return answers[i].err, None, i + 1;
      }
      portstatus, portchange := answers[i].status, answers[i].change;
      i := i + 1;
      if !HasBit(portstatus, PORT_STAT_RESET) {
        break;
      }
      if delayTime >= 2 * HUB_SHORT_RESET_TIME {
        curDelay := HUB_LONG_RESET_TIME;
      }
      delayTime := delayTime + curDelay;
    }
    polls := i;
    ret, speed := ResetOutcome(portstatus, portchange, superspeed, wusb, hasUdev).0,
                  ResetOutcome(portstatus, portchange, superspeed, wusb, hasUdev).1;
  }

  // ---------------------------------------------------------------------
  // hub_usb3_port_disable and hub_port_disable

  /**
   * The poll at which the wait in hub_usb3_port_disable stops, counted
   * from 1: the first failed read, the first read showing SS.Disabled, or
   * the read at 2000 ms.
   */
  function DisableWait(answers: seq<StatusRead>, t: nat): (polls: nat)
    requires |answers| >= DEBOUNCE_POLLS && t < DEBOUNCE_POLLS
    ensures t < polls <= DEBOUNCE_POLLS
    ensures forall k | t <= k < polls - 1 :: answers[k].StatusOk? && LinkState(answers[k].status) != SS_PORT_LS_SS_DISABLED
    ensures polls < DEBOUNCE_POLLS ==>
              answers[polls - 1].StatusErr? || LinkState(answers[polls - 1].status) == SS_PORT_LS_SS_DISABLED
    decreases DEBOUNCE_POLLS - t
  {
    if answers[t].StatusErr? || LinkState(answers[t].status) == SS_PORT_LS_SS_DISABLED then t + 1
    else if t * HUB_DEBOUNCE_STEP >= HUB_DEBOUNCE_TIMEOUT then t + 1
    else DisableWait(answers, t + 1)
  }

  /**
   * What hub_usb3_port_disable returns: `setDisabled` and `setRxDetect` are
   * the results of the two SET_FEATURE(PORT_LINK_STATE) requests.
   */
  function Usb3DisableResult(superspeed: bool, setDisabled: int, answers: seq<StatusRead>, setRxDetect: int): int
    requires |answers| >= DEBOUNCE_POLLS
  {
    if !superspeed then -EINVAL
    else if setDisabled != 0 then setDisabled
    else
      var p := DisableWait(answers, 0);
      if answers[p - 1].StatusErr? then answers[p - 1].err else setRxDetect
  }

  /**
   * hub_usb3_port_disable: asks for SS.Disabled, waits up to 2000 ms for
   * the link to get there, then asks for RX.Detect, whether or not it did.
   */
  method HubUsb3PortDisable(superspeed: bool, setDisabled: int, answers: seq<StatusRead>, setRxDetect: int)
    returns (ret: int, polls: nat, rxDetectSent: bool)
    requires |answers| >= DEBOUNCE_POLLS
    ensures ret == Usb3DisableResult(superspeed, setDisabled, answers, setRxDetect)
    ensures !superspeed || setDisabled != 0 ==> polls == 0 && !rxDetectSent
    ensures superspeed && setDisabled == 0 ==>
              && polls == DisableWait(answers, 0)
              && (rxDetectSent <==> answers[polls - 1].StatusOk?)
              && (rxDetectSent && LinkState(answers[polls - 1].status) != SS_PORT_LS_SS_DISABLED ==> polls == DEBOUNCE_POLLS)
  {
    if !superspeed {
      return -EINVAL, 0, false;
    }
    if setDisabled != 0 {
      return setDisabled, 0, false;
    }
    var totalTime := 0;
    var i := 0;
    while true
      invariant 0 <= i < DEBOUNCE_POLLS && totalTime == i * HUB_DEBOUNCE_STEP
      invariant DisableWait(answers, i) == DisableWait(answers, 0)
      decreases DEBOUNCE_POLLS - i
    {
      if answers[i].StatusErr? {
        return answers[i].err, i + 1, false;
      }
      if LinkState(answers[i].status) == SS_PORT_LS_SS_DISABLED {
        break;
      }
      if totalTime >= HUB_DEBOUNCE_TIMEOUT {
        break;
      }
      totalTime := totalTime + HUB_DEBOUNCE_STEP;
      i := i + 1;
    }
    return setRxDetect, i + 1, true;
  }

  /** The disabling of a SuperSpeed port succeeds when both link-state requests and every read do. */
  lemma Usb3DisableSucceeds(answers: seq<StatusRead>)
    requires |answers| >= DEBOUNCE_POLLS
    requires forall k | 0 <= k < DEBOUNCE_POLLS :: answers[k].StatusOk?
    ensures Usb3DisableResult(true, 0, answers, 0) == 0
  {
    var p := DisableWait(answers, 0);
    assert answers[p - 1].StatusOk?;
  }

  /**
   * hub_port_disable: with `setState` the child on the port (if any) goes
   * NOTATTACHED with its subtree; then, unless the hub is in error, the port
   * is disabled (hub_usb3_port_disable on a SuperSpeed hub, or
   * CLEAR_FEATURE(PORT_ENABLE) whose result is `clearEnable`).
   */
  method HubPortDisable(tree: DeviceTree, child: Option<nat>, setState: bool, hubError: bool, superspeed: bool,
                        setDisabled: int, answers: seq<StatusRead>, setRxDetect: int, clearEnable: int, now: int)
    returns (ret: int)
    requires tree.Valid() && (child.Some? ==> child.value < |tree.children|)
    requires |answers| >= DEBOUNCE_POLLS
    modifies tree.state, tree.activeDuration
    ensures ret == (if hubError then 0
                    else if superspeed then Usb3DisableResult(superspeed, setDisabled, answers, setRxDetect)
                    else clearEnable)
    ensures child.Some? && setState && old(tree.state[child.value]) != NotAttached ==>
              && (forall x | 0 <= x < tree.state.Length ::
                    tree.state[x] == (if x in Subtree(tree.children, tree.hasHub, child.value) then NotAttached
                                      else old(tree.state[x])))
              && (forall x | 0 <= x < tree.activeDuration.Length ::
                    tree.activeDuration[x] == (if x in Subtree(tree.children, tree.hasHub, child.value) && old(tree.state[x]) == Suspended
                                               then old(tree.activeDuration[x]) - now else old(tree.activeDuration[x])))
    ensures child.None? || !setState || old(tree.state[child.value]) == NotAttached ==>
              tree.state[..] == old(tree.state[..]) && tree.activeDuration[..] == old(tree.activeDuration[..])
  {
    if child.Some? && setState {
      var _ := tree.SetDeviceState(child.value, NotAttached, now, false);
    }
    ret := 0;
    if !hubError {
      if superspeed {
        var polls, sent;
        ret, polls, sent := HubUsb3PortDisable(superspeed, setDisabled, answers, setRxDetect);
      } else {
        ret := clearEnable;
      }
    }
  }
}
