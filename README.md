# Linux USB hub core and OOM victim selection, modelled in Dafny

This project models two parts of the Linux kernel and proves properties of the model.

The first is the core of the USB hub driver, `drivers/usb/core/hub.c`:
- the per-bus device-address allocator;
- the device-state tree and the recursive NOTATTACHED marking done on disconnect;
- the port-ownership table;
- the polling loops: GET_STATUS retries, connect debounce, the wait for the end of a port reset, and the wait for a SuperSpeed port to go SS.Disabled;
- the short-read rules of the two status readers;
- the words the driver composes for its control requests (wIndex for a link state or an indicator, the devinfo of CLEAR_TT_BUFFER);
- the DeviceRemovable bitmaps of the hub descriptor;
- the Link Power Management (LPM) latency arithmetic, the SET_SEL and U1/U2 timeout requests, and the enable/disable reference count;
- the enumeration helpers: ep0 max-packet defaults and validation, the old/new scheme alternation, SET_ADDRESS guards, a hub's remaining power budget and the resume-type check;
- the port-indicator worker `led_work`, the khubd event list of `kick_khubd`, and the status-change interrupt handler `hub_irq` with its ten-error reset threshold.

The second is the out-of-memory killer's choice of victim, `mm/oom_kill.c`:
- the badness score;
- which tasks are immune;
- the per-thread scan verdict and the selection over all threads;
- the choice of a child to sacrifice instead of the parent;
- the zonelist OOM lock;
- the panic policy.

Style of the model:
- Stateful objects the driver updates in place are classes with `modifies` clauses. These are the address bitmap, the device tree, the owner table, the descriptor bitmaps, the LPM link, the indicator array, the khubd list, the hub's interrupt state and the zone flags.
- Each method is proved equal to a pure specification function of the old state.
- The driver's promises are lemmas about those functions.
- Everything the hardware or the host controller answers is an oracle parameter. Examples are the sequence of GET_STATUS results, the status of a SET_ADDRESS transfer, and the result of an HCD callback. Sleeps are represented only by the poll count or the delay schedule.

Constants from `include/linux/usb/ch11.h`, `include/uapi/linux/usb/ch9.h` and the errno headers appear as their kernel values. Those headers are not part of this model. They include the port-status bits, the link states, the feature selectors and the errno numbers.

Where the specification text and the code disagree, the model follows the code. One case: the comment above `hub_port_debounce` gives a 1500 ms timeout, but `HUB_DEBOUNCE_TIMEOUT` (`drivers/usb/core/hub.c:83`) is 2000.

Files:
- `usb_defs.dfy`: shared constants, device states, speeds, status bits (module `UsbDefs`).
- `hub_devnum.dfy`: address allocation (`HubDevnum`).
- `hub_state.dfy`: device tree and state changes (`HubDeviceState`).
- `hub_owner.dfy`: port owners (`HubPortOwner`).
- `hub_status.dfy`: status reading and bitfield words (`HubPortStatus`).
- `hub_poll.dfy`: debounce, reset wait, USB 3 port disable, `hub_port_disable` (`HubPolling`).
- `hub_lpm.dfy`: LPM (`HubLpm`).
- `hub_enum.dfy`: enumeration helpers and power budget (`HubEnumeration`).
- `hub_events.dfy`: `led_work` and `kick_khubd` (`HubEvents`).
- `hub_irq.dfy`: `hub_irq` (`HubInterrupt`).
- `oom_kill.dfy`: the OOM killer (`OomKill`).

## Model

| member | source | states |
|---|---|---|
| HubDevnum.FindNextZeroBit | drivers/usb/core/hub.c:1614-1618 | the result is the first clear bit at or after `start`, or `size` when every bit from `start` on is set |
| HubDevnum.ChosenAddress | drivers/usb/core/hub.c:1614-1618 | no address iff addresses 1..127 are all taken; otherwise a free address in 1..127, the first free one at or after the cursor, wrapping round to the first free one from 1 |
| HubDevnum.NextCursor | drivers/usb/core/hub.c:1619 | the next-search cursor stays in 1..127 and is the address after the one handed out, wrapping 128 to 1 |
| HubDevnum.ReleasedAddressIsReissued | drivers/usb/core/hub.c:1604-1633 | on a full bus, the one address just released is the address handed out next, wherever the cursor is |
| HubDevnum.ChoicesAreDistinct | drivers/usb/core/hub.c:1604-1625 | once the chosen address is marked used, the next choice is a different address |
| HubDevnum.Bus.ChooseDevnum | drivers/usb/core/hub.c:1604-1625 | wireless devices get port number + 1; others get the ChosenAddress from the cursor; the bitmap gains the address and the cursor advances; a full bus leaves devnum and the bitmap unchanged and resets the cursor to 1 |
| HubDevnum.Bus.ReleaseDevnum | drivers/usb/core/hub.c:1627-1633 | a positive devnum clears exactly its bit and becomes -1; otherwise nothing changes |
| HubDeviceState.BelowPortsBounds | drivers/usb/core/hub.c:1559-1562 | every device reached through ports 0..i-1 of a hub has a larger index than the hub (the tree is built downwards) |
| HubDeviceState.SubtreeBounds | drivers/usb/core/hub.c:1551-1566 | every device in a subtree lies at or below its root |
| HubDeviceState.ChildSubtreeBelowPorts | drivers/usb/core/hub.c:1559-1562 | the subtree of the child on port j is reached by the loop before it passes port j |
| HubDeviceState.SubtreeClosed | drivers/usb/core/hub.c:1559-1562 | the children of a device in the subtree are in the subtree, so the recursion marks whole subtrees |
| HubDeviceState.PortLeadingTo | drivers/usb/core/hub.c:1559-1562 | a device reached through the first i ports lies in the subtree of one child on one of those ports |
| HubDeviceState.OutsideIsUntouched | drivers/usb/core/hub.c:1551-1566 | devices above the root of a marking are not in its subtree |
| HubDeviceState.DurationAfter | drivers/usb/core/hub.c:1589-1594 | leaving SUSPENDED subtracts the time from active_duration; entering it adds the time; otherwise active_duration is unchanged |
| HubDeviceState.SuspendResumeIsNet | drivers/usb/core/hub.c:1589-1594 | a suspend at t1 followed by a resume at t2 shortens active_duration by exactly t2 - t1 |
| HubDeviceState.WakeupAfter | drivers/usb/core/hub.c:1579-1588 | wakeup is re-evaluated only for non-root devices moving between non-SUSPENDED states, and is then on exactly when they become CONFIGURED with a remote-wakeup configuration, off otherwise |
| HubDeviceState.DeviceTree.MarkNotAttached | drivers/usb/core/hub.c:1551-1566 | every device in the subtree becomes NOTATTACHED, suspended ones have their active_duration closed, and every other device is unchanged (corrected form, see Findings) |
| HubDeviceState.DeviceTree.MarkNotAttachedAsWritten | drivers/usb/core/hub.c:1551-1566 | as written: only devices that are hubs, and hubs reached through hubs, are marked; the others keep their state |
| HubDeviceState.DeviceTree.SetDeviceState | drivers/usb/core/hub.c:1568-1601 | a NOTATTACHED device stays so; a change to another state updates state, duration and wakeup; a change to NOTATTACHED marks the whole subtree, using the corrected marking of MarkNotAttached (see Findings) rather than the as-written one that skips non-hub devices |
| HubDeviceState.LeafEscapesMarkingAsWritten | drivers/usb/core/hub.c:1556-1557 | a device with no hub structure is in its own subtree but is not marked by the code as written |
| HubPortOwner.FindPortOwner | drivers/usb/core/hub.c:1478-1490 | -ENODEV iff there is no hub or the hub is gone; 0 iff the port number is in 1..maxchild; -EINVAL otherwise |
| HubPortOwner.Claim | drivers/usb/core/hub.c:1492-1505 | lookup errors change nothing; an owned port gives -EBUSY and changes nothing; a free port becomes owned by the caller and no other port changes |
| HubPortOwner.Release | drivers/usb/core/hub.c:1507-1520 | lookup errors change nothing; releasing a port the caller does not own is -ENOENT; otherwise only that port is freed |
| HubPortOwner.ReleaseAll | drivers/usb/core/hub.c:1522-1535 | every port held by the owner is freed and every other port is unchanged |
| HubPortOwner.DeviceIsOwned | drivers/usb/core/hub.c:1537-1549 | a device is owned iff it is attached, has a parent hub, and its port in that hub has an owner |
| HubPortOwner.ClaimThenReleaseRestores | drivers/usb/core/hub.c:1492-1520 | a successful claim followed by a release by the same owner succeeds and restores the table |
| HubPortOwner.ClaimIsExclusive | drivers/usb/core/hub.c:1492-1505 | after a successful claim, any other claim of the same port fails with -EBUSY |
| HubPortOwner.ReleaseAllFreesOwner | drivers/usb/core/hub.c:1522-1535 | after release-all, no port belongs to the owner, and ports of other owners are kept |
| HubPortOwner.PortOwnerTable.ClaimPort | drivers/usb/core/hub.c:1492-1505 | the return code and new table are those of Claim |
| HubPortOwner.PortOwnerTable.ReleasePort | drivers/usb/core/hub.c:1507-1520 | the return code and new table are those of Release |
| HubPortOwner.PortOwnerTable.ReleaseAllPorts | drivers/usb/core/hub.c:1522-1535 | the new table is that of ReleaseAll |
| HubPortStatus.WarmResetRequired | drivers/usb/core/hub.c:2084-2091 | only a SuperSpeed hub's port can need a warm reset, and it does exactly when the link state is SS.Inactive or Compliance Mode (so never in U0 or U3) |
| HubPortStatus.PortIsPowerOn | drivers/usb/core/hub.c:2273-2286 | power is bit 0x0100 on a USB 2 hub, and on a SuperSpeed hub bit 0x0200, which is the USB 2 LOW_SPEED position |
| HubPortStatus.PortIsSuspended | drivers/usb/core/hub.c:2290-2303 | suspended is bit 0x0004 on a USB 2 hub and link state U3 (0x0060 in the 0x01e0 field) on a SuperSpeed hub |
| HubPortStatus.PredicatesAreDisjoint | drivers/usb/core/hub.c:2084-2304 | a port that needs a warm reset is never taken for suspended; USB 2 ports never need one; the power bit is read at 0x0200 on SuperSpeed hubs and 0x0100 elsewhere |
| HubPortStatus.GetStatusWithRetries | drivers/usb/core/hub.c:390-416 | at most 5 attempts; the result is that of the last attempt; every earlier attempt timed out or stalled; stopping early means the last result was neither |
| HubPortStatus.Le16 | drivers/usb/core/hub.c:432-433 | the low byte of the word is the first byte and the high byte the second, as le16_to_cpu reads them |
| HubPortStatus.HubPortStatus | drivers/usb/core/hub.c:418-439 | success iff all 4 bytes arrived; a short read is -EIO; other errors pass unchanged; status and change are the two little-endian words |
| HubPortStatus.HubHubStatus | drivers/usb/core/hub.c:660-678 | success iff the transfer did not fail, even when it was short; status and change are the two little-endian words |
| HubPortStatus.ShortReadsDiffer | drivers/usb/core/hub.c:418-439 | for a short read, the port reader reports -EIO while the hub reader reports success |
| HubPortStatus.PortFeatureIndex | drivers/usb/core/hub.c:299 | the wIndex carries the port in its low byte and the selector in its high byte |
| HubPortStatus.LinkStateIndex | drivers/usb/core/hub.c:680-686 | the link-state wIndex is the port in the low byte and the link-state field (shifted down 5 bits) in the high byte |
| HubPortStatus.Devinfo | drivers/usb/core/hub.c:612-617 | bits 0-3 hold the endpoint, bits 4-10 the address, and bits 11-12 the control or bulk type; bit 15 is set iff the direction is IN; bits 13-14 are clear |
| HubPortStatus.ClearTtRequests | drivers/usb/core/hub.c:527-541 | control endpoints get the opposite-direction request first, then the original one unless the first failed; other endpoints get only the original |
| HubPortStatus.ControlClearsBothDirections | drivers/usb/core/hub.c:527-541 | for a control endpoint the two requests differ only in the direction bit |
| HubPortStatus.SetHsBit | drivers/usb/core/hub.c:4450-4455 | the bit for port i is set and no other bit of the bitmap changes |
| HubPortStatus.AdjustedHsBits | drivers/usb/core/hub.c:4439-4478 | after the adjustment, a USB 2 DeviceRemovable bit is set iff it was set before or its port is hard-wired |
| HubPortStatus.AdjustedSsBits | drivers/usb/core/hub.c:4439-4478 | after the adjustment, a SuperSpeed DeviceRemovable bit is set iff it was set before or its port (below 16) is hard-wired |
| HubPortStatus.PortRemovable | drivers/usb/core/hub.c:1871-1904 | removability is known only for a device under a compound hub; it is fixed iff the port's DeviceRemovable bit is set |
| HubPortStatus.HardWiredPortIsFixed | drivers/usb/core/hub.c:1871-1904 | after the descriptor adjustment, a device on a hard-wired port of a compound hub is reported fixed |
| HubPortStatus.HubDescriptor.AdjustDeviceRemovable | drivers/usb/core/hub.c:4439-4478 | the USB 2 bitmap (or the SuperSpeed word) becomes the adjusted one, and the other bitmap is unchanged |
| HubPortStatus.HubDescriptor.AdjustHs | drivers/usb/core/hub.c:4445-4458 | the USB 2 bitmap becomes AdjustedHs of the old bitmap |
| HubPortStatus.AdjustedSsWord | drivers/usb/core/hub.c:4460-4476 | the loop computes AdjustedSs of the old word |
| HubPortStatus.CheckPortResumeType | drivers/usb/core/hub.c:2306-2341 | an earlier error is kept; a positive status, or a port that is suspended, unpowered or disconnected, gives -ENODEV; a port that is no longer enabled gives -ENODEV unless reset-resume is already set or persist turns it on; every other port gives 0; the connect and enable change bits are cleared only on success after reset-resume |
| HubPolling.ConnBit | drivers/usb/core/hub.c:3175-3176 | the connection flag is 1 iff the CONNECTION bit of wPortStatus is set |
| HubPolling.Debounce | drivers/usb/core/hub.c:3163-3204 | from the initial state (connection 0xffff, stable_time 0) the debounce makes 1 to 81 polls, all but the last readable; a failed last read returns its error, and a readable one returns its status or, only at the 2000 ms poll, -ETIMEDOUT |
| HubPolling.DebounceShape | drivers/usb/core/hub.c:3163-3204 | the debounce ends either in an error, after as many polls as it made, or with a status after a timeout or a stable stretch |
| HubPolling.HubPortDebounce | drivers/usb/core/hub.c:3163-3204 | the loop returns exactly Debounce of the GET_STATUS answers, with the number of polls it made |
| HubPolling.DebounceFromIsStable | drivers/usb/core/hub.c:3172-3195 | from any loop state that matches its history, a success ends after 100 ms of unchanged connection with no connect-change bit |
| HubPolling.HistoryAdvances | drivers/usb/core/hub.c:3175-3185 | one poll keeps the stability counter equal to the length of the run of steady answers |
| HubPolling.DebounceSuccessIsStable | drivers/usb/core/hub.c:3163-3204 | a successful debounce means the last 100 ms of answers showed the same connection bit and no connect change, and it was connected when required |
| HubPolling.SteadyPortDebounces | drivers/usb/core/hub.c:3163-3204 | a port answering the same steady status debounces after exactly five polls with that status |
| HubPolling.EmptyPortFrom | drivers/usb/core/hub.c:3192-3203 | from any point, a port that never shows a connection runs out the 2000 ms and gives -ETIMEDOUT |
| HubPolling.EmptyPortTimesOut | drivers/usb/core/hub.c:3163-3204 | a debounce requiring a connection on a port that never shows one fails with -ETIMEDOUT after all polls |
| HubPolling.ResetSchedule | drivers/usb/core/hub.c:2093-2155 | the delay_time values at which the loop reads the port all lie below HUB_RESET_TIMEOUT |
| HubPolling.LongScheduleBound | drivers/usb/core/hub.c:2100-2122 | once the delay has switched to 200 ms, what remains of the schedule has at most ceil((800 - t)/200) polls |
| HubPolling.ShortScheduleBound | drivers/usb/core/hub.c:2100-2122 | polls made before the switch to the long delay are bounded by 24 - t |
| HubPolling.ResetScheduleAtMost24 | drivers/usb/core/hub.c:2093-2155 | the reset wait polls at most 24 times, whatever its delay |
| HubPolling.ShortResetSchedule | drivers/usb/core/hub.c:2076-2117 | with HUB_SHORT_RESET_TIME, delay_time at the successive reads is 0, 10, 20, 220, 420 and 620; each read follows a sleep of the delay in force, so the reads happen at 10, 20, 30, 230, 430 and 630 ms: three 10 ms sleeps, then 200 ms ones |
| HubPolling.BhResetSchedule | drivers/usb/core/hub.c:2077-2117 | with HUB_BH_RESET_TIME, delay_time at the successive reads is 0, 50, 250, 450 and 650; the reads happen at 50, 100, 300, 500 and 700 ms |
| HubPolling.LongResetSchedule | drivers/usb/core/hub.c:2078-2117 | with HUB_LONG_RESET_TIME, delay_time at the successive reads is 0, 200, 400 and 600; the reads happen at 200, 400, 600 and 800 ms |
| HubPolling.ResetOutcome | drivers/usb/core/hub.c:2124-2154 | in the order of the source: still in reset is -EBUSY; a SuperSpeed port needing a warm reset is -ENOTCONN; disconnected is -ENOTCONN; a connect change on a non-SuperSpeed hub is -ENOTCONN; connected but not enabled is -EBUSY; otherwise 0, with a speed iff there is a device: wireless on a wireless hub, else super on a SuperSpeed hub, else high, low or full from the status bits |
| HubPolling.HubPortWaitReset | drivers/usb/core/hub.c:2093-2155 | polls follow the schedule; every poll before the last saw RESET set; the result is the failed read, the ResetOutcome of the last status, or -EBUSY at timeout |
| HubPolling.DisableWait | drivers/usb/core/hub.c:702-713 | the wait stops at the first answer that failed or shows SS.Disabled, or after all polls |
| HubPolling.HubUsb3PortDisable | drivers/usb/core/hub.c:688-719 | a non-SuperSpeed hub gives -EINVAL and a failed SS.Disabled request its error, with no polling; otherwise the polls are those of DisableWait, a failed read returns its error, and RX.Detect is requested (its result returned) whether or not the link reached SS.Disabled |
| HubPolling.Usb3DisableSucceeds | drivers/usb/core/hub.c:688-719 | with both link-state requests succeeding and every read readable, the disable succeeds |
| HubPolling.HubPortDisable | drivers/usb/core/hub.c:721-740 | an errored hub returns 0; otherwise the result of the SuperSpeed or USB 2 disable; when asked, the attached child's subtree becomes NOTATTACHED and nothing else changes, using the corrected marking of MarkNotAttached (see Findings), so a non-hub child is marked, which the code as written does not do |
| HubLpm.Mel | drivers/usb/core/hub.c:131-153 | MEL is the parent's MEL plus 100 times the header decode latency plus 1000 times the larger exit latency |
| HubLpm.Pel | drivers/usb/core/hub.c:155-177 | PEL is the larger of 1000 times the larger exit latency and the port-to-port latency added to the parent's PEL |
| HubLpm.Sel | drivers/usb/core/hub.c:179-200 | SEL is never below PEL |
| HubLpm.SelPerHub | drivers/usb/core/hub.c:186-199 | with no hub above, SEL equals PEL; the first external hub adds 2350 ns and each further one 500 ns |
| HubLpm.Ancestors | drivers/usb/core/hub.c:189-191 | the chain starts at the device's parent, each entry is followed by its own parent, every entry lies below the device, and it ends at the root, the only member without a parent |
| HubLpm.HubsBetween | drivers/usb/core/hub.c:189-191 | the loop counts the ancestors' length less one: the external hubs between the device and its root hub |
| HubLpm.HubsBetweenCountsLevels | drivers/usb/core/hub.c:189-191 | a device on a root port has no hubs in between; otherwise it has one more than its parent |
| HubLpm.U2PortToPort | drivers/usb/core/hub.c:232-235 | the U2 port-to-port latency is 1 + U2 - U1 when the hub's U2 exit latency exceeds its U1 exit latency, and 1 + U1 otherwise; it is always at least 1 |
| HubLpm.SetLpmParameters | drivers/usb/core/hub.c:202-247 | parameters are computed iff the device is LPM-capable, SuperSpeed and has a hub parent, and are the MEL/PEL/SEL of the two links |
| HubLpm.UsbSetLpmParameters | drivers/usb/core/hub.c:179-247 | for a device of a parent tree, the result is SetLpmParameters with the hub count that the usb_set_lpm_sel loop finds above the device, so both SEL values add the per-hub terms for exactly the external hubs between it and its root port |
| HubLpm.LatenciesGrowDownTheTree | drivers/usb/core/hub.c:202-247 | a device's MEL and PEL are each at least its hub's |
| HubLpm.DivRoundUp1000 | drivers/usb/core/hub.c:2831-2846 | ns-to-us conversion rounds up: the smallest us with us*1000 >= ns |
| HubLpm.ReqSetSel | drivers/usb/core/hub.c:2809-2864 | too long an SEL or PEL for the enabled state is -EINVAL with no request; otherwise the request has the rounded-up values, clamped only for the state not being enabled |
| HubLpm.SetSelIsExactForTheEnabledState | drivers/usb/core/hub.c:2809-2864 | every request fits the u8 and le16 fields; a request sent for U1 (or U2) carries that link's SEL and PEL rounded up to whole us, unclamped, so never less than the true latency |
| HubLpm.SetLpmTimeout | drivers/usb/core/hub.c:2917-2958 | -EINVAL for a state other than U1/U2 or a reserved U1 value; otherwise the port request is sent and its failure gives -EBUSY; the timeout is stored iff the result is 0 |
| HubLpm.ReservedTimeoutsStayLocal | drivers/usb/core/hub.c:2917-2958 | U1 values 0x80-0xfe are refused without touching the hub; 0 for U1 and any U2 value reach the hub |
| HubLpm.EnableLinkState | drivers/usb/core/hub.c:2960-2998 | the stored timeout changes only when the exit latency is non-zero, SET_SEL succeeds, the HCD gives a positive timeout and the hub accepts it; and in exactly that case it becomes the HCD's timeout |
| HubLpm.EnableLpm | drivers/usb/core/hub.c:3077-3097 | an ineligible device is untouched; otherwise the disable count drops by one; timeouts change only once it reaches zero with HCD support, and then both links go through EnableLinkState |
| HubLpm.DisableLinkState | drivers/usb/core/hub.c:3000-3028 | disabling a link succeeds iff the hub accepts the zero timeout |
| HubLpm.DisableLpm | drivers/usb/core/hub.c:3030-3058 | the result is 0 or -EBUSY; ineligible devices or missing HCD support change nothing; success raises the count and zeroes both timeouts; -EBUSY leaves the count and only happens with a timeout still set |
| HubLpm.DisableEnableBalances | drivers/usb/core/hub.c:3030-3097 | a successful disable followed by an enable restores the disable count |
| HubLpm.LpmLink.EnableLinkStates | drivers/usb/core/hub.c:3089-3096 | the U1 and U2 timeouts become those of EnableLinkState |
| HubLpm.LpmLink.UsbEnableLpm | drivers/usb/core/hub.c:3077-3097 | the new link state is EnableLpm of the old one |
| HubLpm.LpmLink.UsbDisableLpm | drivers/usb/core/hub.c:3030-3058 | the result and new link state are DisableLpm of the old one |
| HubEnumeration.Ep0Default | drivers/usb/core/hub.c:3277-3300 | enumeration fails when the speed is unknown or a reset changed it; otherwise ep0 starts at 512 for SuperSpeed and wireless, 8 for low speed and 64 otherwise |
| HubEnumeration.Ep0Wanted | drivers/usb/core/hub.c:3453-3457 | the wanted size is 512 for 0xff or SuperSpeed, and bMaxPacketSize0 otherwise |
| HubEnumeration.CheckEp0 | drivers/usb/core/hub.c:3453-3471 | a differing size is refused for low speed or when it is not 8, 16, 32 or 64; accepted sizes become the wanted one |
| HubEnumeration.Ep0DefaultsPassTheCheck | drivers/usb/core/hub.c:3277-3471 | SuperSpeed defaults always pass; a low-speed device passes iff it reports 8; a size the check has accepted passes the check again unchanged |
| HubEnumeration.SetConfigTries | drivers/usb/core/hub.c:2072 | 4 attempts with use_both_schemes, 2 without |
| HubEnumeration.UseNewScheme | drivers/usb/core/hub.c:2073 | the new scheme is used for the first two tries unless old_scheme_first, then for tries 2 and 3 |
| HubEnumeration.SchemesAlternateByPairs | drivers/usb/core/hub.c:2072-2073 | with both schemes, each is used for one pair of tries; with one, every try uses the preferred scheme |
| HubEnumeration.UpdateDevnum | drivers/usb/core/hub.c:1635-1640 | wireless devices keep their number; others take the new one |
| HubEnumeration.HubSetAddress | drivers/usb/core/hub.c:3217-3241 | devnum <= 1 without address_device is -EINVAL; ADDRESS is 0 with no change; states other than DEFAULT are -EINVAL; a successful transfer moves DEFAULT to ADDRESS with the new number; a failure changes nothing |
| HubEnumeration.SetAddressIsIdempotent | drivers/usb/core/hub.c:3217-3241 | repeating a successful SET_ADDRESS changes nothing more |
| HubEnumeration.Draw | drivers/usb/core/hub.c:3548-3562 | a configured child draws its configuration's maximum power; an unconfigured one draws one unit load (150 mA SuperSpeed, 100 mA otherwise), or 8 mA on the OTG port of a root hub |
| HubEnumeration.HubPowerRemaining | drivers/usb/core/hub.c:3528-3569 | 0 without limited power; otherwise the bus budget less hub current and every child's draw, floored at 0 |
| HubEnumeration.TotalDraw | drivers/usb/core/hub.c:3539-3562 | no children draw nothing, and the total over ports 1..n is at least the draw of every child on those ports |
| HubEnumeration.TotalDrawUpdate | drivers/usb/core/hub.c:3539-3562 | changing one port's child changes the total draw by exactly that port's difference |
| HubEnumeration.PluggingNeverRaisesBudget | drivers/usb/core/hub.c:3528-3569 | occupying an empty port adds exactly the new child's draw to the total |
| HubEvents.LedSwitch | drivers/usb/core/hub.c:329-372 | AUTO ports are skipped; CYCLE switches the port to automatic; a blinking mode switches the LED and moves to its other phase |
| HubEvents.BlinkHasPeriodTwo | drivers/usb/core/hub.c:336-368 | each blinking mode returns to itself after two steps, with the LED selector alternating; green and amber blinks alternate with off |
| HubEvents.LedLoop | drivers/usb/core/hub.c:328-373 | one pass keeps the number of indicators |
| HubEvents.LastCycle | drivers/usb/core/hub.c:329-333 | the remembered cycle port is the last CYCLE port visited, or -1 |
| HubEvents.LedLoopEffect | drivers/usb/core/hub.c:328-373 | a pass advances every visited port's mode, issues one request per non-AUTO port, reports change iff some port blinks, and remembers the last CYCLE port |
| HubEvents.LedWork | drivers/usb/core/hub.c:317-385 | an unconfigured or quiescing hub is left alone; the blinkenlights marker moves to the next port; the work reschedules iff some port changed |
| HubEvents.TwoPassesRestoreBlinking | drivers/usb/core/hub.c:328-373 | without CYCLE ports, two passes restore every indicator |
| HubEvents.CycleMarkerAdvances | drivers/usb/core/hub.c:374-380 | with blinkenlights, the unique CYCLE marker moves to the next port, wrapping to the first |
| HubEvents.LastCycleIsTheMarker | drivers/usb/core/hub.c:329-333 | the remembered cycle port is the marker when no later port is CYCLE |
| HubEvents.RequestsOfOneMarker | drivers/usb/core/hub.c:329-372 | with one marker and the rest AUTO, the only request is automatic mode for the marker's port |
| HubEvents.HubLeds.LedWorkPass | drivers/usb/core/hub.c:317-385 | the indicator array, LED requests and rescheduling are those of LedWork |
| HubEvents.Kick | drivers/usb/core/hub.c:441-455 | a hub not yet listed is appended unless disconnected; otherwise the list is unchanged |
| HubEvents.KickQueuesOnce | drivers/usb/core/hub.c:441-455 | the list stays duplicate-free, a second kick changes nothing, existing entries keep their order, and a live hub ends up listed |
| HubEvents.EventList.KickKhubd | drivers/usb/core/hub.c:441-455 | the list becomes Kick of the old one, and one autopm reference is taken per added hub |
| HubInterrupt.BitmapHoldsTheBytes | drivers/usb/core/hub.c:504-508 | byte k of event_bits[0] is buffer[k] for k below actual_length and 0 above |
| HubInterrupt.CollectEventBits | drivers/usb/core/hub.c:504-508 | the loop builds the little-endian value of the received bytes |
| HubInterrupt.HubIrq | drivers/usb/core/hub.c:481-524 | an unlink ends the handler with no effect; an error only counts unless it is the tenth with no error pending, which records it; data or that error resets the count, stores the bitmap and kicks khubd; resubmission iff not quiescing |
| HubInterrupt.TenthErrorKicks | drivers/usb/core/hub.c:494-500 | from a clean hub, nine consecutive errors only count; the tenth records the error and kicks khubd |
| HubInterrupt.PendingErrorIsSticky | drivers/usb/core/hub.c:497-499 | with an error pending, further errors never kick khubd nor replace the recorded error |
| HubInterrupt.Hub.HandleIrq | drivers/usb/core/hub.c:481-524 | the hub state and resubmission are those of HubIrq; the khubd list is kicked iff HubIrq says so, and the autopm reference count grows by the number of hubs added to the list |
| OomKill.U32 | mm/oom_kill.c:222-223 | a value kept in a 32-bit unsigned is reduced mod 2^32 |
| OomKill.Unkillable | mm/oom_kill.c:87-104 | init, kernel threads and tasks whose allowed nodes miss the nodemask are always immune; a task outside the memory cgroup is immune only when a cgroup is given |
| OomKill.GroupMm | mm/oom_kill.c:116-118 | the task's mm, else any other thread's; none iff no thread has one |
| OomKill.Badness | mm/oom_kill.c:106-137 | 0 iff the task is unkillable, no thread of it has an mm, or it has the minimum adjustment; otherwise at least 1, and with no admin discount and no positive adjustment no more than the pages it holds (or 1) |
| OomKill.BadnessMonotone | mm/oom_kill.c:119-136 | raising oom_score_adj never lowers the score |
| OomKill.AdminDiscountNeverRaises | mm/oom_kill.c:129-130 | a task with CAP_SYS_ADMIN scores no more than the same task without it (the 3% discount) |
| OomKill.MaxAdjDominates | mm/oom_kill.c:130-132 | a killable task with an mm and the maximum adjustment scores at least the whole of totalpages (rounded down to thousands), whether or not it has CAP_SYS_ADMIN |
| OomKill.OomScan | mm/oom_kill.c:189-215 | exited or unkillable threads are CONTINUE; a thread already dying (TIF_MEMDIE) aborts the scan unless the kill is forced; no mm is CONTINUE; an origin task is SELECT; an exiting thread aborts unless forced or its leader traces exits; OK exactly for a live, killable, non-origin thread with an mm that neither aborts through TIF_MEMDIE nor through exiting |
| OomKill.ScanAgreesWithBadness | mm/oom_kill.c:189-215 | a forced scan never aborts; a task the scan calls OK is killable and has an mm, so its score is positive unless it has the minimum adjustment |
| OomKill.FirstStrictMaxIsMax | mm/oom_kill.c:240-247 | the chosen index has the largest score, no earlier index ties it, and no choice means every score is 0 |
| OomKill.SelectFrom | mm/oom_kill.c:229-252 | the scan state after the first n threads |
| OomKill.ScaledPoints | mm/oom_kill.c:253 | *ppoints is the chosen score times 1000 over totalpages, when the arithmetic stays within range |
| OomKill.SelectedPointsWrap | mm/oom_kill.c:233-253 | for a SELECT victim (chosen_points ULONG_MAX) the unsigned long product wraps, so *ppoints is (2^64 - 1000) / totalpages narrowed to unsigned int |
| OomKill.TaskPoints | mm/oom_kill.c:227-243 | the score the scan compares is oom_badness kept in an unsigned int: below 2^32, equal to oom_badness when that fits, and 0 for an unkillable task or the minimum adjustment |
| OomKill.ChosenWasAccepted | mm/oom_kill.c:229-247 | the thread chosen so far is one the scan classified OK or SELECT |
| OomKill.SelectBadProcess | mm/oom_kill.c:217-255 | the result is ERR_PTR(-1UL) iff some thread's scan aborts; otherwise a chosen thread is alive, killable and has an mm, as the scan accepted or selected it |
| OomKill.SelectBadProcessLoop | mm/oom_kill.c:217-255 | the loop over threads returns SelectBadProcess |
| OomKill.AbortStaysAborted | mm/oom_kill.c:238-239 | once the scan aborts, it stays aborted |
| OomKill.AbortIffSomeTaskAborts | mm/oom_kill.c:229-252 | the selection aborts iff some thread's scan aborts |
| OomKill.OkScores | mm/oom_kill.c:240-247 | each thread's effective score is its badness when OK and 0 otherwise |
| OomKill.PlainScanIsFirstMax | mm/oom_kill.c:240-247 | with no SELECT or abort, the scan equals the first strict maximum of the scores |
| OomKill.ChosenIsFirstWorst | mm/oom_kill.c:217-255 | with no SELECT or abort, the victim has the highest score and is the first thread to reach it |
| OomKill.LastSelectWins | mm/oom_kill.c:233-236 | the last SELECT thread is the victim with ULONG_MAX points, as long as none aborts |
| OomKill.ChildScores | mm/oom_kill.c:331-347 | a child sharing the parent's mm scores 0; others score their badness |
| OomKill.SacrificeChild | mm/oom_kill.c:331-347 | the loop returns the first strict maximum over the children's scores |
| OomKill.SacrificedChildIsWorst | mm/oom_kill.c:331-347 | the sacrificed child has a positive score, the highest among the children, and no earlier child ties it |
| OomKill.TrySet | mm/oom_kill.c:418-439 | 0 and no change iff some zone is already locked; otherwise 1 with exactly the listed zones added |
| OomKill.Clear | mm/oom_kill.c:441-451 | exactly the listed zones are unlocked |
| OomKill.ZoneLockIsExclusive | mm/oom_kill.c:418-451 | after a successful lock, any zonelist sharing a zone is refused, and clearing the same zonelist restores the flags |
| OomKill.ZoneFlags.TrySetZonelistOom | mm/oom_kill.c:418-439 | the result and flags are those of TrySet |
| OomKill.ZoneFlags.ClearZonelistOom | mm/oom_kill.c:441-451 | the flags are those of Clear |
| OomKill.PanicsOnOom | mm/oom_kill.c:390-402 | panic_on_oom 0 never panics; 2 always panics; any other non-zero value panics for an unconstrained OOM and not for a constrained one |
| OomKill.PanicPolicy | mm/oom_kill.c:390-402 | panic iff panic_on_oom is set and either is 2 or the OOM is unconstrained; 2 always panics; a constrained panic implies an unconstrained one |

## Left out

- Wire I/O: every control transfer, URB submission and host-controller callback is an oracle parameter or an outcome sequence. Sleeps and jiffies are represented only by poll counts, delay schedules and a `now` parameter.
- khubd and hub_events, delayed work, the TT clearing worker and hub_tt_work are left out. So are OTG handling, the rebind after reset, and the descriptors_changed comparison. They are event plumbing that these helpers only feed.
- hub_configure and its allocation failures are left out, as are logging and all dev_dbg output.
- The ch11.h, ch9.h, usb.h and errno header files are not part of this model; their constants are written as values.
- HubPortStatus.HubDescriptor.AdjustDeviceRemovable: sets the bit of every hard-wired port unconditionally; the source's test of the existing bit only decides whether to log.
- HubPortStatus.CheckPortResumeType: records which change bits are cleared but not the clear requests' own results, which the source ignores.
- HubLpm.SetLpmParameters: latencies are unbounded; the 32-bit unsigned int fields never wrap for descriptor-sized inputs.
- HubLpm.ReqSetSel: the kmalloc failure (-ENOMEM) is not modelled.
- HubLpm.EnableLinkState: results of device-initiated LPM enabling are ignored, as in the source.
- HubEnumeration: the 64-byte GET_DESCRIPTOR probe of the new scheme, its retry loop and the 0x1a0a vendor quirk are not modelled; only the ep0 default and the validation after the descriptor read are.
- HubEnumeration.UseNewScheme, HubEnumeration.SetConfigTries and HubEvents.LedWork: the module parameters old_scheme_first, use_both_schemes and blinkenlights are passed as arguments; their defaults in the source are old_scheme_first 0, use_both_schemes 1 and blinkenlights 0 (drivers/usb/core/hub.c:59, 69, 74).
- HubEvents.LedWork: set_port_led is returned as a sequence of requests; their transfer results are only logged in the source.
- HubEvents.EventList.KickKhubd: the caller's NULL-hub check in usb_kick_khubd is not modelled; releasing the autopm reference in hub_events is out of scope with hub_events.
- usb_wakeup_notification's wakeup_bits are not modelled.
- HubInterrupt.HubIrq: the resubmit result is only logged and is not modelled; nerrors is unbounded (no int wrap); event_bits[0] is taken as 64 bits with actual_length at most 8.
- OomKill.Badness: the unsigned-long and long arithmetic is unbounded, so wrap-around for absurd page counts is not modelled. find_lock_task_mm is represented by the task's own mm or a given other thread's mm.
- OomKill: __thaw_task, the locking, the OOM notifier chain, dump_header, the signals and the kill itself after the victim is chosen are left out. So are constrained_alloc, out_of_memory and pagefault_out_of_memory.
- kernel/smp.c, include/linux/pinctrl/pinctrl.h and u_serial.h are not part of this model.

## Findings

| source | as written | input that shows it | evidently intended | confidence | as-written member | corrected member |
|---|---|---|---|---|---|---|
| drivers/usb/core/hub.c:1556-1557 | recursively_mark_NOTATTACHED returns at once when the device has no hub structure, so a non-hub device (any leaf, maxchild 0) is never set to NOTATTACHED and its active_duration is not closed | a single configured device with no hub structure (`children [[]]`, `hasHub [false]`): it is in its own subtree but is not marked | skip only the child loop for non-hubs and mark every device of the subtree, as usb_disconnect does with `if (hub)` around its loop; HubDeviceState.DeviceTree.SetDeviceState and HubPolling.HubPortDisable are built on this corrected marking | not executed | HubDeviceState.LeafEscapesMarkingAsWritten (on HubDeviceState.DeviceTree.MarkNotAttachedAsWritten) | HubDeviceState.DeviceTree.MarkNotAttached |
