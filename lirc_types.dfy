/** The two message kinds the daemon sends the client. */
module LircTypes {

  /** A button press broadcast by the daemon (`LircEvent`). */
  datatype LircEvent = LircEvent(code: bv64, repeat: int, button: string, remote: string)

  /**
   * The reply to one command (`LircReply`): the echoed command, a success
   * flag (1 or 0, a Go int), the declared number of data lines and the data
   * lines kept.
   */
  datatype LircReply = LircReply(command: string, success: int, dataLength: int, data: seq<string>)
}
