/**
 * The status-change interrupt handler of a hub (hub_irq in
 * drivers/usb/core/hub.c): the consecutive-error count that escalates to a
 * hub reset, and the change bitmap built from the received bytes.
 */
module HubInterrupt {
  import opened UsbDefs
  import opened HubEvents

  /**
   * The little-endian value of the first n bytes of the interrupt buffer
   * (event_bits[0] is an unsigned long, 64 bits here). Shift amounts are
   * kept as 7-bit values: i * 8 never exceeds 56.
   */
  function LeBits(buf: seq<Byte>, n: nat): bv64
    requires n <= |buf| && n <= 8
  {
    if n == 0 then 0 else LeBits(buf, n - 1) | ((buf[n - 1] as bv64) << ((n - 1) as bv7 * 8))
  }

  /** OR-ing a byte in at position j leaves byte k != j alone. */
  lemma ByteOfOther(x: bv64, b: Byte, j: bv7, k: bv7)
    requires j < 8 && k < 8 && j != k
    ensures ((x | ((b as bv64) << (j * 8))) >> (k * 8)) & 0xff == (x >> (k * 8)) & 0xff
  {
  }

  /** OR-ing a byte into an empty byte position j makes it that byte. */
  lemma ByteOfSame(x: bv64, b: Byte, j: bv7)
    requires j < 8
    requires (x >> (j * 8)) & 0xff == 0
    ensures ((x | ((b as bv64) << (j * 8))) >> (j * 8)) & 0xff == b as bv64
  {
  }

  lemma SmallIndexConversion(a: nat, b: nat)
    requires a < 8 && b < 8
    ensures (a as bv7 == b as bv7) <==> (a == b)
  {
  }

  /**
   * The bitmap hub_irq builds gives back the buffer: byte k of it is
   * buffer[k] for k < actual_length and 0 above, so bit p is the change bit
   * of port p as the hub sent it.
   */
  lemma {:induction false} BitmapHoldsTheBytes(buf: seq<Byte>, n: nat, k: nat)
    requires n <= |buf| && n <= 8 && k < 8
    ensures k < n ==> (LeBits(buf, n) >> (k as bv7 * 8)) & 0xff == buf[k] as bv64
    ensures k >= n ==> (LeBits(buf, n) >> (k as bv7 * 8)) & 0xff == 0
  {
    if n > 0 {
      BitmapHoldsTheBytes(buf, n - 1, k);
      SmallIndexConversion(n - 1, k);
      if k == n - 1 {
        ByteOfSame(LeBits(buf, n - 1), buf[n - 1], k as bv7);
      } else {
        ByteOfOther(LeBits(buf, n - 1), buf[n - 1], (n - 1) as bv7, k as bv7);
      }
    }
  }

  /** The loop of hub_irq that ORs the received bytes into event_bits[0]. */
  method CollectEventBits(buffer: seq<Byte>, actualLength: nat) returns (bits: bv64)
    requires actualLength <= |buffer| && actualLength <= 8
    ensures bits == LeBits(buffer, actualLength)
  {
    bits := 0;
    var i := 0;
    while i < actualLength
      invariant 0 <= i <= actualLength
      invariant bits == LeBits(buffer, i)
    {
      bits := bits | ((buffer[i] as bv64) << (i as bv7 * 8));
      i := i + 1;
    }
  }

  /** What hub_irq keeps between interrupts. */
  datatype IrqState = IrqState(nerrors: int, error: int, eventBits: bv64)

  /** The outcome of one interrupt: the new state, whether khubd was kicked, whether the URB was resubmitted. */
  datatype IrqOutcome = IrqOutcome(state: IrqState, kicked: bool, resubmitted: bool)

  predicate Unlinked(status: int)
  {
    status == -ENOENT || status == -ECONNRESET || status == -ESHUTDOWN
  }

  /** The number of consecutive errors after which hub_irq hands the hub to khubd for a reset. */
  const HUB_IRQ_ERROR_LIMIT: int := 10

  /**
   * hub_irq: an unlink ends the handler; an error is counted and only the
   * tenth in a row, with no error already pending, is recorded in
   * hub->error and passed to khubd; data is copied into event_bits[0].
   */
  function HubIrq(s: IrqState, status: int, buf: seq<Byte>, actualLength: nat, quiescing: bool): (r: IrqOutcome)
    requires actualLength <= |buf| && actualLength <= 8
    ensures Unlinked(status) ==> r == IrqOutcome(s, false, false)
    ensures !Unlinked(status) ==> r.resubmitted == !quiescing
    ensures r.kicked ==> r.state == IrqState(0, if status == 0 then s.error else status, LeBits(buf, actualLength))
    ensures !Unlinked(status) && !r.kicked ==> r.state == s.(nerrors := s.nerrors + 1)
    ensures !Unlinked(status) ==> (r.kicked <==> status == 0 || (s.nerrors + 1 >= HUB_IRQ_ERROR_LIMIT && s.error == 0))
  {
    if Unlinked(status) then IrqOutcome(s, false, false)
    else if status != 0 && (s.nerrors + 1 < HUB_IRQ_ERROR_LIMIT || s.error != 0) then
      IrqOutcome(s.(nerrors := s.nerrors + 1), false, !quiescing)
    else
      IrqOutcome(IrqState(0, if status != 0 then status else s.error, LeBits(buf, actualLength)), true, !quiescing)
  }

  /** The state after k interrupts that all failed with `status` (and no data). */
  function AfterErrors(s: IrqState, status: int, k: nat): IrqState
  {
    if k == 0 then s else HubIrq(AfterErrors(s, status, k - 1), status, [], 0, false).state
  }

  /**
   * From a clean hub, nine consecutive errors only count up and kick no one;
   * the tenth records the error and kicks khubd.
   */
  lemma {:induction false} TenthErrorKicks(s: IrqState, status: int, k: nat)
    requires s.nerrors == 0 && s.error == 0
    requires status != 0 && !Unlinked(status)
    requires k <= 9
    ensures AfterErrors(s, status, k) == s.(nerrors := k)
    ensures k < 9 ==> !HubIrq(AfterErrors(s, status, k), status, [], 0, false).kicked
    ensures k == 9 ==> HubIrq(AfterErrors(s, status, k), status, [], 0, false).state == IrqState(0, status, 0)
  {
    if k > 0 {
      TenthErrorKicks(s, status, k - 1);
    }
  }

  /** Once hub->error is set, further errors never reach khubd and never overwrite the recorded error. */
  lemma PendingErrorIsSticky(s: IrqState, status: int, buf: seq<Byte>, actualLength: nat, quiescing: bool)
    requires actualLength <= |buf| && actualLength <= 8
    requires s.error != 0 && status != 0
    ensures HubIrq(s, status, buf, actualLength, quiescing).state.error == s.error
    ensures !HubIrq(s, status, buf, actualLength, quiescing).kicked
  {
  }

  /** The interrupt-side state of a hub (struct usb_hub). */
  class Hub {
    const id: nat
    const khubd: EventList
    var disconnected: bool
    var quiescing: bool
    var nerrors: int
    var error: int
    var eventBits: bv64

    function State(): IrqState
      reads this
    {
      IrqState(nerrors, error, eventBits)
    }

    constructor (id: nat, khubd: EventList)
      ensures this.id == id && this.khubd == khubd
      ensures !disconnected && !quiescing && State() == IrqState(0, 0, 0)
    {
      this.id := id;
      this.khubd := khubd;
      disconnected := false;
      quiescing := false;
      nerrors := 0;
      error := 0;
      eventBits := 0;
    }

    /** hub_irq for one completed URB; `resubmitted` says whether usb_submit_urb is called again. */
    method HandleIrq(status: int, buffer: seq<Byte>, actualLength: nat) returns (resubmitted: bool)
      requires actualLength <= |buffer| && actualLength <= 8
      modifies this, khubd
      ensures var r := HubIrq(old(State()), status, buffer, actualLength, old(quiescing));
              State() == r.state && resubmitted == r.resubmitted
              && khubd.events == (if r.kicked then Kick(old(khubd.events), id, disconnected) else old(khubd.events))
      ensures khubd.autopmHeld == old(khubd.autopmHeld) + |khubd.events| - |old(khubd.events)|
      ensures disconnected == old(disconnected) && quiescing == old(quiescing)
    {
      if Unlinked(status) {
        return false;
      }
      if status != 0 {
        nerrors := nerrors + 1;
        if nerrors < HUB_IRQ_ERROR_LIMIT || error != 0 {
          return !quiescing;
        }
        error := status;
      }
      eventBits := CollectEventBits(buffer, actualLength);
      nerrors := 0;
      khubd.KickKhubd(id, disconnected);
      resubmitted := !quiescing;
    }
  }
}
