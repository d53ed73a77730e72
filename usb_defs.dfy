/**
 * Shared vocabulary of the USB hub model: kernel error numbers (returned
 * negated, as the hub driver does), the device lifecycle states, the link
 * speeds, and the bit layout of the 16-bit wPortStatus / wPortChange words
 * defined by the USB 2.0 and USB 3.0 hub class (chapter 11 of USB 2.0,
 * chapter 10 of USB 3.0).
 */
module UsbDefs {

  datatype Option<T> = None | Some(value: T)

  /** A 16-bit little-endian status word after conversion to host order. */
  type Word = bv16
  type Byte = bv8

  // Linux error numbers used by the hub driver (hub.c returns them negated).
  const EPERM: int := 1
  const ENOENT: int := 2
  const EIO: int := 5
  const ENOMEM: int := 12
  const EBUSY: int := 16
  const ENODEV: int := 19
  const EINVAL: int := 22
  const EPIPE: int := 32
  const ENOMSG: int := 42
  const EPROTO: int := 71
  const EMSGSIZE: int := 90
  const ECONNRESET: int := 104
  const ENOTCONN: int := 107
  const ESHUTDOWN: int := 108
  const ETIMEDOUT: int := 110

  /** enum usb_device_state */
  datatype DevState =
    | NotAttached
    | Attached
    | Powered
    | Reconnecting
    | Unauthenticated
    | Default
    | Address
    | Configured
    | Suspended

  /** enum usb_device_speed */
  datatype Speed = SpeedUnknown | SpeedLow | SpeedFull | SpeedHigh | SpeedWireless | SpeedSuper

  // wPortStatus bits (USB 2.0 table 11-21 and USB 3.0 table 10-10).
  const PORT_STAT_CONNECTION: Word := 0x0001
  const PORT_STAT_ENABLE: Word := 0x0002
  const PORT_STAT_SUSPEND: Word := 0x0004
  const PORT_STAT_RESET: Word := 0x0010
  const PORT_STAT_POWER: Word := 0x0100
  const PORT_STAT_LOW_SPEED: Word := 0x0200
  const PORT_STAT_HIGH_SPEED: Word := 0x0400
  const PORT_STAT_LINK_STATE: Word := 0x01e0
  const SS_PORT_STAT_POWER: Word := 0x0200

  // SuperSpeed link states, as they sit in the PORT_STAT_LINK_STATE field.
  const SS_PORT_LS_U0: Word := 0x0000
  const SS_PORT_LS_U3: Word := 0x0060
  const SS_PORT_LS_SS_DISABLED: Word := 0x0080
  const SS_PORT_LS_RX_DETECT: Word := 0x00a0
  const SS_PORT_LS_SS_INACTIVE: Word := 0x00c0
  const SS_PORT_LS_COMP_MOD: Word := 0x0140

  // wPortChange bits.
  const PORT_STAT_C_CONNECTION: Word := 0x0001
  const PORT_STAT_C_ENABLE: Word := 0x0002

  /** The C bit test `w & mask`, read as a condition. */
  predicate HasBit(w: Word, mask: Word) {
    w & mask != 0
  }

  /** The link-state field of a SuperSpeed port status word. */
  function LinkState(status: Word): (ls: Word)
    ensures ls & !PORT_STAT_LINK_STATE == 0
  {
    status & PORT_STAT_LINK_STATE
  }
}
