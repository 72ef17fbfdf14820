/** The modes in which picoquic's packet loop calls back, and the code that ends the loop. */
module PacketLoop {
  const PACKET_LOOP_AFTER_RECEIVE := 2
  const PACKET_LOOP_AFTER_SEND := 3
  const PACKET_LOOP_TIME_CHECK := 5
  const TERMINATE_PACKET_LOOP := 0x400 + 47

  /** The two AFTER_* modes. */
  predicate IsAfter(mode: int) {
    mode == PACKET_LOOP_AFTER_RECEIVE || mode == PACKET_LOOP_AFTER_SEND
  }
}
