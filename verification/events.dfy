/** The vocabulary both halves share: statuses, events, and a plain option. */
module Events {

  datatype Option<+T> = None | Some(value: T)

  /** Every way a native call can end (rust/src/status.rs). */
  datatype Status =
    | Ok
    | InvalidArgument
    | UnknownHandle
    | PortInUse
    | BindFailed
    | BadCertificate
    | PeerGone
    | WouldBlock
    | NotRunning
    | Panic
    | Unsupported

  /** A stream is named by its session and its QUIC stream id. */
  type Key = (nat, nat)

  /** What an endpoint tells its caller (rust/src/event.rs). */
  datatype Event =
    | SessionOpened(session: nat, authority: string, path: string)
    | SessionClosed(session: nat, reason: string)
    | Datagram(session: nat, utf8: string)
    | StreamMessage(session: nat, utf8: string)
    | StreamOpened(session: nat, stream: nat)
    | StreamData(session: nat, stream: nat, utf8: string)
    | StreamClosed(session: nat, stream: nat)
    | EndpointError(message: string)
}
