/** What every device shares: status and command codes, the reset time, and the two
    things a device tells the bus about its interrupt line. */
module Devices {
  import opened Words

  const READY: Word := 1
  const ILOPERR: Word := 2
  const BUSY: Word := 3

  const RESET: Word := 0
  const ACK: Word := 1

  const RESETTIME := 400

  datatype Signal = IntReq | IntAck
}
