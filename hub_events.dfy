/**
 * Hub-side event plumbing in drivers/usb/core/hub.c: the port-indicator
 * blinker (led_work) and queueing a hub for khubd (kick_khubd).
 */
module HubEvents {
  import opened UsbDefs

  // ---------------------------------------------------------------------
  // Port indicators (led_work)

  /** hub->indicator[i]: what the blinker does with a port's LED on its next pass. */
  datatype Indicator =
    | IndicatorAuto
    | IndicatorCycle
    | IndicatorGreenBlink
    | IndicatorGreenBlinkOff
    | IndicatorAmberBlink
    | IndicatorAmberBlinkOff
    | IndicatorAltBlink
    | IndicatorAltBlinkOff

  /** The PORT_INDICATOR selector sent by set_port_led. */
  datatype LedSelector = LedAuto | LedAmber | LedGreen | LedOff

  /** A SET_FEATURE(PORT_INDICATOR) request: port number and selector. */
  datatype LedRequest = LedRequest(port1: nat, selector: LedSelector)

  predicate Blinking(m: Indicator)
  {
    m != IndicatorAuto && m != IndicatorCycle
  }

  /**
   * The switch of led_work: the selector to send and the next mode, or
   * None for a port left alone (INDICATOR_AUTO).
   */
  function LedSwitch(m: Indicator): (r: Option<(LedSelector, Indicator)>)
    ensures r.None? <==> m == IndicatorAuto
    ensures r.Some? ==> (r.value.0 == LedAuto <==> m == IndicatorCycle)
    ensures m == IndicatorCycle ==> r == Some((LedAuto, IndicatorAuto))
    ensures Blinking(m) ==> r.Some? && Blinking(r.value.1) && r.value.1 != m
  {
    match m
    case IndicatorCycle => Some((LedAuto, IndicatorAuto))
    case IndicatorGreenBlink => Some((LedGreen, IndicatorGreenBlinkOff))
    case IndicatorGreenBlinkOff => Some((LedOff, IndicatorGreenBlink))
    case IndicatorAmberBlink => Some((LedAmber, IndicatorAmberBlinkOff))
    case IndicatorAmberBlinkOff => Some((LedOff, IndicatorAmberBlink))
    case IndicatorAltBlink => Some((LedGreen, IndicatorAltBlinkOff))
    case IndicatorAltBlinkOff => Some((LedAmber, IndicatorAltBlink))
    case IndicatorAuto => None
  }

  /** A port's mode after one pass. */
  function NextMode(m: Indicator): Indicator
  {
    if LedSwitch(m).Some? then LedSwitch(m).value.1 else m
  }

  /**
   * Every blink mode has period two and shows a different LED on its two
   * halves; GREEN_BLINK and AMBER_BLINK alternate with OFF.
   */
  lemma BlinkHasPeriodTwo(m: Indicator)
    requires Blinking(m)
    ensures NextMode(NextMode(m)) == m
    ensures LedSwitch(m).value.0 != LedSwitch(NextMode(m)).value.0
    ensures (m == IndicatorGreenBlink || m == IndicatorAmberBlink) ==> LedSwitch(NextMode(m)).value.0 == LedOff
  {
  }

  /** The loop's state after the first n ports. */
  datatype LedPass = LedPass(indicator: seq<Indicator>, requests: seq<LedRequest>, changed: bool, cursor: int)

  function LedLoop(ind: seq<Indicator>, n: nat): (p: LedPass)
    requires n <= |ind|
    ensures |p.indicator| == |ind|
  {
    if n == 0 then LedPass(ind, [], false, -1)
    else
      var p := LedLoop(ind, n - 1);
      match LedSwitch(ind[n - 1])
      case None => p
      case Some((selector, mode)) =>
        LedPass(p.indicator[n - 1 := mode], p.requests + [LedRequest(n, selector)],
                p.changed || selector != LedAuto,
                if ind[n - 1] == IndicatorCycle then n - 1 else p.cursor)
  }

  /** The ports among the first n in a blink mode and the index of the last cycle marker. */
  function LastCycle(ind: seq<Indicator>, n: nat): (c: int)
    requires n <= |ind|
    ensures -1 <= c < n
    ensures c >= 0 ==> ind[c] == IndicatorCycle
  {
    if n == 0 then -1
    else if ind[n - 1] == IndicatorCycle then n - 1
    else LastCycle(ind, n - 1)
  }

  /** The requests of the first n ports: one per port not in AUTO, in port order. */
  function RequestsOf(ind: seq<Indicator>, n: nat): seq<LedRequest>
    requires n <= |ind|
  {
    if n == 0 then []
    else if ind[n - 1] == IndicatorAuto then RequestsOf(ind, n - 1)
    else RequestsOf(ind, n - 1) + [LedRequest(n, LedSwitch(ind[n - 1]).value.0)]
  }

  /**
   * One pass over the first n ports advances each port's mode on its own,
   * sends one request per port not in AUTO, reports a change exactly when
   * some port blinks, and remembers the last cycle marker.
   */
  lemma {:induction false} LedLoopEffect(ind: seq<Indicator>, n: nat)
    requires n <= |ind|
    ensures forall k | 0 <= k < |ind| :: LedLoop(ind, n).indicator[k] == (if k < n then NextMode(ind[k]) else ind[k])
    ensures LedLoop(ind, n).requests == RequestsOf(ind, n)
    ensures LedLoop(ind, n).changed <==> exists k | 0 <= k < n :: Blinking(ind[k])
    ensures LedLoop(ind, n).cursor == LastCycle(ind, n)
  {
    if n > 0 {
      LedLoopEffect(ind, n - 1);
      var p := LedLoop(ind, n - 1);
      if Blinking(ind[n - 1]) {
        assert LedLoop(ind, n).changed;
      } else if !p.changed {
        assert forall k | 0 <= k < n - 1 :: !Blinking(ind[k]);
      }
    }
  }

  /** The whole of led_work on the indicators of a hub with nports ports. */
  function LedWork(ind: seq<Indicator>, nports: nat, configured: bool, quiescing: bool, blinkenlights: bool): (p: LedPass)
    requires nports <= |ind|
    requires blinkenlights ==> nports > 0
    ensures |p.indicator| == |ind|
  {
    if !configured || quiescing then LedPass(ind, [], false, -1)
    else
      var p := LedLoop(ind, nports);
      if !p.changed && blinkenlights then
        var cursor := (p.cursor + 1) % nports;
        LedPass(p.indicator[cursor := IndicatorCycle], p.requests + [LedRequest(cursor + 1, LedGreen)], true, cursor)
      else p
  }

  /** With no cycle marker in play, two passes put every port's mode back where it was. */
  lemma TwoPassesRestoreBlinking(ind: seq<Indicator>, nports: nat)
    requires nports <= |ind|
    requires forall k | 0 <= k < nports :: ind[k] != IndicatorCycle
    ensures LedLoop(LedLoop(ind, nports).indicator, nports).indicator == ind
  {
    var once := LedLoop(ind, nports).indicator;
    LedLoopEffect(ind, nports);
    LedLoopEffect(once, nports);
    var twice := LedLoop(once, nports).indicator;
    forall k | 0 <= k < |ind|
      ensures twice[k] == ind[k]
    {
      if k < nports && Blinking(ind[k]) {
        BlinkHasPeriodTwo(ind[k]);
      }
    }
  }

  /**
   * With blinkenlights and no port blinking, the single cycle marker moves
   * one port on (wrapping after the last) and that port's LED goes green.
   */
  lemma CycleMarkerAdvances(ind: seq<Indicator>, nports: nat, c: nat)
    requires 0 < nports <= |ind| && c < nports
    requires forall k | 0 <= k < nports :: ind[k] == (if k == c then IndicatorCycle else IndicatorAuto)
    ensures var p := LedWork(ind, nports, true, false, true);
            && (forall k | 0 <= k < nports :: p.indicator[k] == (if k == (c + 1) % nports then IndicatorCycle else IndicatorAuto))
            && p.requests == [LedRequest(c + 1, LedAuto), LedRequest((c + 1) % nports + 1, LedGreen)]
            && p.changed
  {
    LedLoopEffect(ind, nports);
    LastCycleIsTheMarker(ind, nports, c);
    RequestsOfOneMarker(ind, nports, c);
  }

  lemma {:induction false} LastCycleIsTheMarker(ind: seq<Indicator>, n: nat, c: nat)
    requires c < n <= |ind|
    requires ind[c] == IndicatorCycle
    requires forall k | c < k < n :: ind[k] != IndicatorCycle
    ensures LastCycle(ind, n) == c
  {
    if n - 1 != c {
      LastCycleIsTheMarker(ind, n - 1, c);
    }
  }

  lemma {:induction false} RequestsOfOneMarker(ind: seq<Indicator>, n: nat, c: nat)
    requires n <= |ind|
    requires forall k | 0 <= k < n :: ind[k] == (if k == c then IndicatorCycle else IndicatorAuto)
    ensures RequestsOf(ind, n) == (if c < n then [LedRequest(c + 1, LedAuto)] else [])
  {
    if n > 0 {
      RequestsOfOneMarker(ind, n - 1, c);
    }
  }

  /** The indicator state of one hub (hub->indicator[]), changed in place by led_work. */
  class HubLeds {
    const indicator: array<Indicator>

    constructor (maxchild: nat)
      ensures indicator.Length == maxchild && fresh(indicator)
      ensures forall k | 0 <= k < maxchild :: indicator[k] == IndicatorAuto
    {
      indicator := new Indicator[maxchild](_ => IndicatorAuto);
    }

    /**
     * led_work: the set_port_led requests are returned in order, together
     * with whether the work reschedules itself.
     */
    method LedWorkPass(nports: nat, configured: bool, quiescing: bool, blinkenlights: bool)
      returns (requests: seq<LedRequest>, reschedule: bool)
      requires nports <= indicator.Length
      requires blinkenlights ==> nports > 0
      modifies indicator
      ensures var p := LedWork(old(indicator[..]), nports, configured, quiescing, blinkenlights);
              indicator[..] == p.indicator && requests == p.requests && reschedule == p.changed
    {
      requests := [];
      reschedule := false;
      if !configured || quiescing {
        return;
      }
      var cursor := -1;
      var i := 0;
      while i < nports
        invariant 0 <= i <= nports
        invariant LedLoop(old(indicator[..]), i) == LedPass(indicator[..], requests, reschedule, cursor)
        invariant forall k | i <= k < indicator.Length :: indicator[k] == old(indicator[k])
      {
        var m := indicator[i];
        var selector, mode;
        match m {
          case IndicatorCycle =>
            cursor := i;
            selector, mode := LedAuto, IndicatorAuto;
          case IndicatorGreenBlink =>
            selector, mode := LedGreen, IndicatorGreenBlinkOff;
          case IndicatorGreenBlinkOff =>
            selector, mode := LedOff, IndicatorGreenBlink;
          case IndicatorAmberBlink =>
            selector, mode := LedAmber, IndicatorAmberBlinkOff;
          case IndicatorAmberBlinkOff =>
            selector, mode := LedOff, IndicatorAmberBlink;
          case IndicatorAltBlink =>
            selector, mode := LedGreen, IndicatorAltBlinkOff;
          case IndicatorAltBlinkOff =>
            selector, mode := LedAmber, IndicatorAltBlink;
          case IndicatorAuto =>
            i := i + 1;
            continue;
        }
        if selector != LedAuto {
          reschedule := true;
        }
        requests := requests + [LedRequest(i + 1, selector)];
        indicator[i] := mode;
        i := i + 1;
      }
      if !reschedule && blinkenlights {
        cursor := (cursor + 1) % nports;
        requests := requests + [LedRequest(cursor + 1, LedGreen)];
        indicator[cursor] := IndicatorCycle;
        reschedule := true;
      }
    }
  }

  // ---------------------------------------------------------------------
  // kick_khubd

  /** kick_khubd on the list of hubs waiting for khubd: append the hub unless it is gone or already queued. */
  function Kick(events: seq<nat>, hub: nat, disconnected: bool): (q: seq<nat>)
    ensures !disconnected && hub !in events ==> q == events + [hub]
    ensures disconnected || hub in events ==> q == events
  {
    if !disconnected && hub !in events then events + [hub] else events
  }

  predicate Distinct(events: seq<nat>)
  {
    forall i, j | 0 <= i < j < |events| :: events[i] != events[j]
  }

  /**
   * A hub is on the list at most once however often it is kicked, a second
   * kick changes nothing, and hubs already waiting keep their order.
   */
  lemma KickQueuesOnce(events: seq<nat>, hub: nat, disconnected: bool)
    requires Distinct(events)
    ensures Distinct(Kick(events, hub, disconnected))
    ensures Kick(Kick(events, hub, disconnected), hub, disconnected) == Kick(events, hub, disconnected)
    ensures Kick(events, hub, disconnected)[..|events|] == events
    ensures !disconnected ==> hub in Kick(events, hub, disconnected)
  {
  }

  /** hub_event_list, with the autosuspend references its queued hubs hold. */
  class EventList {
    var events: seq<nat>
    var autopmHeld: nat

    constructor ()
      ensures events == [] && autopmHeld == 0
    {
      events := [];
      autopmHeld := 0;
    }

    /** kick_khubd: a hub newly queued also takes an autosuspend reference. */
    method KickKhubd(hub: nat, disconnected: bool)
      modifies this
      ensures events == Kick(old(events), hub, disconnected)
      ensures autopmHeld == old(autopmHeld) + |events| - |old(events)|
    {
      if !disconnected && hub !in events {
        events := events + [hub];
        autopmHeld := autopmHeld + 1;
      }
    }
  }
}
