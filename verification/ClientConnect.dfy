/** How `connect_stream` wires a client stream: three channels, one end of each in the context the packet loop calls
    back into and the other in a half of the application's stream. */
module ClientConnect {
  import opened Chunks
  import opened Channels
  import opened RecvHalf
  import opened SendHalf
  import opened ClientBridge

  method Connect(quic: Picoquic)
    returns (ctx: ClientBridgeCtx, readHalf: SlipstreamRecvHalf, writeHalf: SlipstreamSendHalf)
    requires quic.added == [] && quic.calls == 0 && quic.closes == 0
    ensures ctx.Valid() && ctx.quic == quic && ctx.View(Idle) == NewBridge(4096, 512, 512)
    ensures readHalf.recvRx == ctx.recvTx && readHalf.View() == Reader([], 0)
    ensures writeHalf.sendTx == ctx.sendRx && writeHalf.wakeRx == ctx.wakeTx
    ensures writeHalf.Valid() && writeHalf.View(Out) == Outbox(IDLE_SENDER, NewChan(512), NewChan(512))
  {
    var recv := new Channel<Chunk>(RECV_CAPACITY);
    var send := new Channel<Chunk>(SEND_CAPACITY);
    var wake := new Channel<Token>(WAKE_CAPACITY);
    ctx := new ClientBridgeCtx(recv, send, wake, quic);
    readHalf := new SlipstreamRecvHalf(recv);
    writeHalf := new SlipstreamSendHalf(send, wake);
  }
}
