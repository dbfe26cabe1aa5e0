/** Value types shared by the models of the gateway's two cores. */
module Types {

  const U32: int := 0x1_0000_0000

  type byte = b: int | 0 <= b < 0x100
  type u32 = w: int | 0 <= w < U32

  const INTERFACE_COUNT: nat := 6
  const BLOCK_COUNT: nat := 64
  const BLOCK_SIZE: nat := 512
  const HEADER_SIZE: nat := 40
  const PRIORITY_COUNT: nat := 4

  /** Little-endian 16-bit field. */
  function Le16(low: byte, high: byte): (n: nat)
    ensures n < 0x1_0000
  {
    low as int + 0x100 * (high as int)
  }

  function Least(a: nat, b: nat): nat {
    if a < b then a else b
  }

  datatype Option<+T> = None | Some(value: T)

  /** One entry of the RTOS scheduling queue. CIDs are reduced to the first
      byte of the destination CID, the only byte routing looks at. */
  datatype QueueItem = QueueItem(
    frameId: u32,
    source: byte,
    target: byte,
    destination: byte,
    kind: byte,
    priority: byte,
    ttl: byte,
    retryCount: byte,
    epoch: u32,
    flags: u32,
    receiveTime: u32,
    enqueueTime: u32,
    routeEpoch: u32)
}
