/** What a transport reports (internal/transport/transport.go). */
module Transport {
  import opened Model

  datatype Event = MessageEvent(m: Message) | ConnectedEvent(connected: bool)
}
