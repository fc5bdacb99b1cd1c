/** The message types of MailMsg V7 (mailmsg.h). */
module Protocol {
  import opened Words

  const MSG_NOP: u32 := 0
  const MSG_PING: u32 := 1
  const MSG_PONG: u32 := 2
  const MSG_ACK: u32 := 3
  const MSG_NACK: u32 := 4
  const MSG_STOP_REQUEST: u32 := 5
  const MSG_STOP_READY: u32 := 6
  const MSG_STOP_REFUSED: u32 := 7
  const MSG_SESSION_READY: u32 := 8
  const MSG_GPIO_READ_REQUEST: u32 := 9
  const MSG_GPIO_READ_RESULT: u32 := 10
  const MSG_PERIPHERAL_REQUEST: u32 := 11
  const MSG_PERIPHERAL_RESULT: u32 := 12

  const PROTOCOL_MAGIC: u32 := 0x4d4d5347
  const PROTOCOL_VERSION: u32 := 7

  datatype Option<T> = None | Some(value: T)
}
