/** Shared machine-level types of the clock/alarm unit: fixed-width unsigned
    integers, the 8-byte CAN frame and the C `tm`-style time record that the
    serial, clock and display tasks pass between each other. */
module Types {

  /** `uint8_t` */
  type byte = x: int | 0 <= x < 0x100

  /** `uint16_t` */
  type u16 = x: int | 0 <= x < 0x1_0000

  /** `uint32_t` */
  type u32 = x: int | 0 <= x < 0x1_0000_0000

  const TWO_POW_32: int := 0x1_0000_0000

  /** The 8-byte receive buffer `NewMessage` that a CAN frame is copied into. */
  type Frame = s: seq<byte> | |s| == 8 witness [0, 0, 0, 0, 0, 0, 0, 0]

  /** Truncating conversion to `uint8_t`. */
  function ToByte(n: nat): (b: byte)
    ensures n < 0x100 ==> b == n
    ensures (n - b) % 0x100 == 0
  {
    n % 0x100
  }

  /** Unsigned 32-bit subtraction `a - b`, which wraps around modulo 2^32. */
  function Sub32(a: u32, b: u32): (d: u32)
    ensures a >= b ==> d == a - b
    ensures a < b ==> d == a - b + TWO_POW_32
  {
    (a - b) % TWO_POW_32
  }

  /** Unsigned 32-bit increment, which wraps around modulo 2^32. */
  function Inc32(a: u32): (r: u32)
    ensures a < TWO_POW_32 - 1 ==> r == a + 1
    ensures a == TWO_POW_32 - 1 ==> r == 0
  {
    (a + 1) % TWO_POW_32
  }

  /** The `APP_TmTypeDef` record: nine `uint32_t` fields in stdlib `tm` layout. */
  datatype Tm = Tm(
    sec: u32,
    min: u32,
    hour: u32,
    mday: u32,
    mon: u32,
    year: u32,
    wday: u32,
    yday: u32,
    isdst: u32)

  /** The all-zero record a C global of this type starts as. */
  const ZeroTm: Tm := Tm(0, 0, 0, 0, 0, 0, 0, 0, 0)

  /** The `APP_MsgTypeDef` record: a message kind byte and a time record. It is the
      shape of both `MSGHandler` (serial to clock) and `ClockMsg` (clock to display). */
  datatype Msg = Msg(msg: byte, tm: Tm)

  const ZeroMsg: Msg := Msg(0, ZeroTm)
}
