/**
 The native entry points as one thread sees them: the last-error slot, the
 out-pointers, and the worker that turns each native call into a reply.
 */
module Boundary {
  import opened Events
  import opened CommandChannel
  import opened CStrings

  /** A message in the slot; `serial` tells one setting of the slot from every other. */
  datatype Note = Note(serial: nat, text: string)

  /** The slot of one thread, how often it was ever set, and which settings were ever read. */
  datatype Slot = Slot(content: Option<Note>, settings: nat, readings: seq<nat>)

  function Cleared(slot: Slot): Slot {
    slot.(content := None)
  }

  function Filled(slot: Slot, text: string): Slot {
    slot.(content := Some(Note(slot.settings, text)), settings := slot.settings + 1)
  }

  function Emptied(slot: Slot): Slot {
    match slot.content
    case None => slot
    case Some(note) => slot.(content := None, readings := slot.readings + [note.serial])
  }

  function TextOf(slot: Slot): Option<string> {
    match slot.content
    case None => None
    case Some(note) => Some(note.text)
  }

  /** Nothing that was read is still there to be read again. */
  ghost predicate ReadOnce(slot: Slot) {
    && (forall i, j | 0 <= i < j < |slot.readings| :: slot.readings[i] < slot.readings[j])
    && (forall serial <- slot.readings :: serial < slot.settings)
    && (slot.content.Some? ==> slot.content.value.serial < slot.settings)
    && (slot.content.Some? ==> forall serial <- slot.readings :: serial < slot.content.value.serial)
  }

  lemma SlotKeepsReadOnce(slot: Slot, text: string)
    requires ReadOnce(slot)
    ensures ReadOnce(Cleared(slot)) && ReadOnce(Filled(slot, text)) && ReadOnce(Emptied(slot))
  {
    assert forall i | 0 <= i < |slot.readings| :: slot.readings[i] in slot.readings;
  }

  /** What the three checks of a configuration find. */
  datatype Config = NoText | Misshapen(why: string) | Refused(status: Status, why: string) | Accepted

  /** What the transport makes of an attempt. */
  datatype Attempt<T> = Fails(status: Status, message: string) | Yields(value: T)

  /** A native call of the worker, with everything the outside decides about it. */
  datatype Native =
    | ServerStart(config: Config, started: Attempt<nat>, port: nat)
    | ClientConnect(config: Config, connected: Attempt<(nat, nat)>)
    | OpenStream(opening: Attempt<nat>)
    | SessionSend(readable: bool, found: bool, outcome: Status)
    | StreamSend(readable: bool, found: bool, outcome: Status)
    | StreamClose(found: bool, outcome: Status)
    | ServerStop(outcome: Status)

  /** The transport's failures are never `ok`. */
  predicate Sensible(call: Native) {
    match call
    case ServerStart(config, started, _) =>
      (config.Refused? ==> config.status != Ok) && (started.Fails? ==> started.status != Ok)
    case ClientConnect(config, connected) =>
      (config.Refused? ==> config.status != Ok) && (connected.Fails? ==> connected.status != Ok)
    case OpenStream(opening) => opening.Fails? ==> opening.status != Ok
    case _ => true
  }

  class Cell {
    var value: nat

    constructor (value: nat)
      ensures this.value == value
    {
      this.value := value;
    }
  }

  /** Writes through an out-pointer, unless it is null. */
  method WriteOut(out: Cell?, value: nat)
    modifies out
    ensures out != null ==> out.value == value
  {
    if out != null {
      out.value := value;
    }
  }

  /** The message a configuration that is not accepted leaves, and its status. */
  function ConfigEnd(config: Config): (Status, string)
    requires !config.Accepted?
  {
    match config
    case NoText => (InvalidArgument, "configJson is null or not UTF-8")
    case Misshapen(why) => (InvalidArgument, "configJson is not the expected shape: " + why)
    case Refused(status, why) => (status, why)
  }

  const UNREADABLE := "payloadUtf8 is null or not UTF-8"

  /** The message a call itself sets, whatever the slot held before: `None` where the code sets none. */
  function OwnMessage(call: Native): Option<string> {
    match call
    case ServerStart(config, started, _) =>
      if !config.Accepted? then Some(ConfigEnd(config).1)
      else if started.Fails? then Some(started.message) else None
    case ClientConnect(config, connected) =>
      if !config.Accepted? then Some(ConfigEnd(config).1)
      else if connected.Fails? then Some(connected.message) else None
    case OpenStream(opening) => if opening.Fails? then Some(opening.message) else None
    case SessionSend(readable, _, _) => if readable then None else Some(UNREADABLE)
    case StreamSend(readable, _, _) => if readable then None else Some(UNREADABLE)
    case StreamClose(_, _) => None
    case ServerStop(_) => None
  }

  /** A message as it arrives at the other side. */
  function Arrived(message: Option<string>): Option<string> {
    match message
    case None => None
    case Some(text) => Some(Received(text))
  }

  /** The detail of a reply: the call's own message as it arrives, if it set one. */
  function OwnDetail(call: Native): Option<string> {
    Arrived(OwnMessage(call))
  }

  /** The reply a call deserves, told from the call alone. */
  function ReplyOf(call: Native): Answer {
    match call
    case ServerStart(config, started, port) =>
      if !config.Accepted? then StatusReply(Known(ConfigEnd(config).0), OwnDetail(call))
      else if started.Fails? then StatusReply(Known(started.status), OwnDetail(call))
      else StartedReply(started.value, port)
    case ClientConnect(config, connected) =>
      if !config.Accepted? then StatusReply(Known(ConfigEnd(config).0), OwnDetail(call))
      else if connected.Fails? then StatusReply(Known(connected.status), OwnDetail(call))
      else ConnectedReply(connected.value.0, connected.value.1)
    case OpenStream(opening) =>
      if opening.Fails? then StatusReply(Known(opening.status), OwnDetail(call)) else StreamOpenedReply(opening.value)
    case SessionSend(readable, found, outcome) =>
      StatusReply(Known(SendStatus(readable, found, outcome)), OwnDetail(call))
    case StreamSend(readable, found, outcome) =>
      StatusReply(Known(SendStatus(readable, found, outcome)), OwnDetail(call))
    case StreamClose(found, outcome) => StatusReply(Known(if found then outcome else UnknownHandle), None)
    case ServerStop(outcome) => StatusReply(Known(outcome), None)
  }

  function SendStatus(readable: bool, found: bool, outcome: Status): Status {
    if !readable then InvalidArgument else if !found then UnknownHandle else outcome
  }

  /** A detail is the message its own call set, letter for letter, if and only if that message holds no NUL. */
  lemma DetailIsOwnMessage(call: Native)
    requires OwnMessage(call).Some?
    ensures OwnDetail(call) == OwnMessage(call) <==> NUL !in OwnMessage(call).value
    ensures NUL in OwnMessage(call).value ==> OwnDetail(call) == Some(LOSSY)
    ensures ReplyOf(call).StatusReply? && ReplyOf(call).detail == OwnDetail(call)
  {
    ReceivedIsSent(OwnMessage(call).value);
  }

  /** The end of a configuration whose path does not begin with a slash (rust/src/config.rs:99-104). */
  function PathRefused(path: string): Config {
    Refused(InvalidArgument, "path \"" + path + "\" must start with /")
  }

  /** A path with a NUL in it: the reply says that a string held one, and nothing about the path. */
  lemma SomeDetailIsLost()
    ensures exists path: string ::
              var call := ServerStart(PathRefused(path), Fails(Panic, ""), 0);
              && Sensible(call) && ReplyOf(call) == StatusReply(Known(InvalidArgument), Some(LOSSY))
              && OwnDetail(call) != OwnMessage(call)
  {
    var path := [NUL] + "x";
    var message := "path \"" + path + "\" must start with /";
    assert message[|"path \""|] == NUL;
    var call := ServerStart(PathRefused(path), Fails(Panic, ""), 0);
    DetailIsOwnMessage(call);
    assert ReplyOf(call) == StatusReply(Known(InvalidArgument), Some(LOSSY));
  }

  /** One thread and the entry points it calls. */
  class Thread {
    var content: Option<string>
    ghost var slot: Slot

    ghost predicate Valid()
      reads this
    {
      ReadOnce(slot) && content == TextOf(slot)
    }

    /** Whatever the thread did before: an arbitrary slot to begin with. */
    constructor (content: Option<string>)
      ensures Valid() && this.content == content && slot.readings == []
    {
      this.content := content;
      this.slot := Slot(match content case None => None case Some(text) => Some(Note(0, text)), 1, []);
    }

    method ClearLastError()
      requires Valid()
      modifies this
      ensures Valid() && slot == Cleared(old(slot)) && content == None
    {
      SlotKeepsReadOnce(slot, "");
      content := None;
      slot := Cleared(slot);
    }

    method SetLastError(text: string)
      requires Valid()
      modifies this
      ensures Valid() && slot == Filled(old(slot), text) && content == Some(text)
    {
      SlotKeepsReadOnce(slot, text);
      content := Some(text);
      slot := Filled(slot, text);
    }

    /** Reading takes the message away, and hands it over as a native string. */
    method TakeLastError() returns (text: Option<string>)
      requires Valid()
      modifies this
      ensures Valid() && slot == Emptied(old(slot)) && content == None
      ensures text == Arrived(TextOf(old(slot)))
    {
      hide IntoCString, FromCString, Received;
      SlotKeepsReadOnce(slot, "");
      match content {
        case None => text := None;
        case Some(message) =>
          StringArrives(message);
          text := FromCString(IntoCString(message));
      }
      content := None;
      slot := Emptied(slot);
    }

    // --- the entry points; each leaves in the slot what it set itself, or nothing ---

    method RkQuicServerStart(config: Config, started: Attempt<nat>, out: Cell?) returns (status: Status)
      requires Valid() && Sensible(ServerStart(config, started, 0))
      modifies this, out
      ensures Valid() && content == OwnMessage(ServerStart(config, started, 0)) && slot.readings == old(slot.readings)
      ensures config.NoText? ==> status == InvalidArgument && content == Some("configJson is null or not UTF-8")
      ensures config.Misshapen? ==>
                status == InvalidArgument && content == Some("configJson is not the expected shape: " + config.why)
      ensures config.Refused? ==> status == config.status && content == Some(config.why)
      ensures config.Accepted? && started.Fails? ==> status == started.status && content == Some(started.message)
      ensures config.Accepted? && started.Yields? ==> content == None
      ensures status == Ok <==> config.Accepted? && started.Yields?
      ensures status != Ok ==> ReplyOf(ServerStart(config, started, 0)) == StatusReply(Known(status), Arrived(content))
      ensures out != null ==> out.value == if status == Ok then started.value else old(out.value)
    {
      ClearLastError();
      if !config.Accepted? {
        SetLastError(ConfigEnd(config).1);
        return ConfigEnd(config).0;
      }
      match started {
        case Yields(handle) =>
          WriteOut(out, handle);
          return Ok;
        case Fails(failure, message) =>
          SetLastError(message);
          return failure;
      }
    }

    method RkQuicClientConnect(config: Config, connected: Attempt<(nat, nat)>, outHandle: Cell?, outSession: Cell?)
      returns (status: Status)
      requires Valid() && Sensible(ClientConnect(config, connected))
      modifies this, outHandle, outSession
      ensures Valid() && content == OwnMessage(ClientConnect(config, connected)) && slot.readings == old(slot.readings)
      ensures config.NoText? ==> status == InvalidArgument && content == Some("configJson is null or not UTF-8")
      ensures config.Misshapen? ==>
                status == InvalidArgument && content == Some("configJson is not the expected shape: " + config.why)
      ensures config.Refused? ==> status == config.status && content == Some(config.why)
      ensures config.Accepted? && connected.Fails? ==>
                status == connected.status && content == Some(connected.message)
      ensures config.Accepted? && connected.Yields? ==> content == None
      ensures status == Ok <==> config.Accepted? && connected.Yields?
      ensures status != Ok ==> ReplyOf(ClientConnect(config, connected)) == StatusReply(Known(status), Arrived(content))
      ensures outHandle != null && (status != Ok || outHandle != outSession) ==>
                outHandle.value == if status == Ok then connected.value.0 else old(outHandle.value)
      ensures outSession != null ==>
                outSession.value == if status == Ok then connected.value.1 else old(outSession.value)
    {
      ClearLastError();
      if !config.Accepted? {
        SetLastError(ConfigEnd(config).1);
        return ConfigEnd(config).0;
      }
      match connected {
        case Yields(ids) =>
          WriteOut(outHandle, ids.0);
          WriteOut(outSession, ids.1);
          return Ok;
        case Fails(failure, message) =>
          SetLastError(message);
          return failure;
      }
    }

    method RkQuicClientOpenStream(opening: Attempt<nat>, out: Cell?) returns (status: Status)
      requires Valid() && Sensible(OpenStream(opening))
      modifies this, out
      ensures Valid() && content == OwnMessage(OpenStream(opening)) && slot.readings == old(slot.readings)
      ensures content == if opening.Fails? then Some(opening.message) else None
      ensures status == if opening.Yields? then Ok else opening.status
      ensures out != null ==> out.value == if opening.Yields? then opening.value else old(out.value)
    {
      ClearLastError();
      match opening {
        case Yields(stream) =>
          WriteOut(out, stream);
          return Ok;
        case Fails(failure, message) =>
          SetLastError(message);
          return failure;
      }
    }

    /** `rk_quic_session_send` and `rk_quic_stream_send` take the same path to the slot. */
    method RkQuicSend(readable: bool, found: bool, outcome: Status) returns (status: Status)
      requires Valid()
      modifies this
      ensures Valid() && slot.readings == old(slot.readings)
      ensures content == OwnMessage(SessionSend(readable, found, outcome))
      ensures content == if readable then None else Some("payloadUtf8 is null or not UTF-8")
      ensures status == SendStatus(readable, found, outcome)
      ensures !readable ==> status == InvalidArgument
      ensures readable && !found ==> status == UnknownHandle
      ensures readable && found ==> status == outcome
    {
      ClearLastError();
      if !readable {
        SetLastError(UNREADABLE);
        return InvalidArgument;
      }
      if !found {
        return UnknownHandle;
      }
      return outcome;
    }

    method RkQuicStreamClose(found: bool, outcome: Status) returns (status: Status)
      requires Valid()
      modifies this
      ensures Valid() && content == None && slot.readings == old(slot.readings)
      ensures status == if found then outcome else UnknownHandle
    {
      ClearLastError();
      return if found then outcome else UnknownHandle;
    }

    method RkQuicServerStop(outcome: Status) returns (status: Status)
      requires Valid()
      modifies this
      ensures Valid() && content == None && slot.readings == old(slot.readings) && status == outcome
    {
      ClearLastError();
      return outcome;
    }

    /** The detail of a reply: asked for only when the call failed. */
    method Detail(status: Status) returns (detail: Option<string>)
      requires Valid()
      modifies this
      ensures Valid() && detail == if status == Ok then None else Arrived(old(content))
    {
      if status == Ok {
        return None;
      }
      detail := TakeLastError();
    }

    /** The worker's branches: what each makes of its native call. */
    method Serve(call: Native) returns (reply: Answer)
      requires Valid() && Sensible(call)
      modifies this
      ensures Valid() && reply == ReplyOf(call)
    {
      hide Received;

      match call {
        case ServerStart(config, started, port) =>
          var out := new Cell(0);
          var status := RkQuicServerStart(config, started, out);
          if status != Ok {
            var detail := Detail(status);
            return StatusReply(Known(status), detail);
          }
          ClearLastError();
          return StartedReply(out.value, port);
        case ClientConnect(config, connected) =>
          var out := new Cell(0);
          var session := new Cell(0);
          var status := RkQuicClientConnect(config, connected, out, session);
          if status != Ok {
            var detail := Detail(status);
            return StatusReply(Known(status), detail);
          }
          return ConnectedReply(out.value, session.value);
        case OpenStream(opening) =>
          var out := new Cell(0);
          var status := RkQuicClientOpenStream(opening, out);
          if status == Ok {
            return StreamOpenedReply(out.value);
          }
          var detail := Detail(status);
          return StatusReply(Known(status), detail);
        case SessionSend(readable, found, outcome) =>
          var status := RkQuicSend(readable, found, outcome);
          var detail := Detail(status);
          return StatusReply(Known(status), detail);
        case StreamSend(readable, found, outcome) =>
          var status := RkQuicSend(readable, found, outcome);
          var detail := Detail(status);
          return StatusReply(Known(status), detail);
        case StreamClose(found, outcome) =>
          var status := RkQuicStreamClose(found, outcome);
          var detail := Detail(status);
          return StatusReply(Known(status), detail);
        case ServerStop(outcome) =>
          var status := RkQuicServerStop(outcome);
          return StatusReply(Known(status), None);
      }
    }

    /** One turn of the worker: the reply is the call's own, whatever the slot held when it began. */
    method Work(call: Native) returns (reply: Answer)
      requires Valid() && Sensible(call)
      modifies this
      ensures Valid() && reply == ReplyOf(call)
      ensures call.ServerStart? && call.config.NoText? ==>
                reply == StatusReply(Known(InvalidArgument), Arrived(Some("configJson is null or not UTF-8")))
      ensures call.ServerStart? && call.config.Misshapen? ==>
                reply == StatusReply(Known(InvalidArgument),
                                     Arrived(Some("configJson is not the expected shape: " + call.config.why)))
      ensures call.ServerStart? && call.config.Refused? ==>
                reply == StatusReply(Known(call.config.status), Arrived(Some(call.config.why)))
      ensures call.ServerStart? && call.config.Accepted? && call.started.Fails? ==>
                reply == StatusReply(Known(call.started.status), Arrived(Some(call.started.message)))
      ensures call.ServerStart? && call.config.Accepted? && call.started.Yields? ==>
                reply.StartedReply? && reply.handle == call.started.value && reply.port == call.port
      ensures call.ClientConnect? && call.config.NoText? ==>
                reply == StatusReply(Known(InvalidArgument), Arrived(Some("configJson is null or not UTF-8")))
      ensures call.ClientConnect? && call.config.Misshapen? ==>
                reply == StatusReply(Known(InvalidArgument),
                                     Arrived(Some("configJson is not the expected shape: " + call.config.why)))
      ensures call.ClientConnect? && call.config.Refused? ==>
                reply == StatusReply(Known(call.config.status), Arrived(Some(call.config.why)))
      ensures call.ClientConnect? && call.config.Accepted? && call.connected.Fails? ==>
                reply == StatusReply(Known(call.connected.status), Arrived(Some(call.connected.message)))
      ensures call.ClientConnect? && call.config.Accepted? && call.connected.Yields? ==>
                reply.ConnectedReply? && reply.handle == call.connected.value.0
                && reply.session == call.connected.value.1
      ensures call.OpenStream? && call.opening.Fails? ==>
                reply == StatusReply(Known(call.opening.status), Arrived(Some(call.opening.message)))
      ensures call.OpenStream? && call.opening.Yields? ==>
                reply.StreamOpenedReply? && reply.stream == call.opening.value
      ensures call.SessionSend? && !call.readable ==>
                reply == StatusReply(Known(InvalidArgument), Arrived(Some("payloadUtf8 is null or not UTF-8")))
      ensures call.SessionSend? && call.readable ==>
                reply == StatusReply(Known(if call.found then call.outcome else UnknownHandle), None)
      ensures call.StreamSend? && !call.readable ==>
                reply == StatusReply(Known(InvalidArgument), Arrived(Some("payloadUtf8 is null or not UTF-8")))
      ensures call.StreamSend? && call.readable ==>
                reply == StatusReply(Known(if call.found then call.outcome else UnknownHandle), None)
      ensures call.StreamClose? ==>
                reply == StatusReply(Known(if call.found then call.outcome else UnknownHandle), None)
      ensures call.ServerStop? ==> reply == StatusReply(Known(call.outcome), None)
    {
      hide Received, Valid;
      reply := Serve(call);
    }

    /** Any number of turns: each reply is its own call's, and no setting of the slot is ever read twice. */
    method WorkAll(calls: seq<Native>) returns (replies: seq<Answer>)
      requires Valid() && forall call <- calls :: Sensible(call)
      modifies this
      ensures Valid() && |replies| == |calls| && forall i | 0 <= i < |calls| :: replies[i] == ReplyOf(calls[i])
      ensures forall i, j | 0 <= i < j < |slot.readings| :: slot.readings[i] != slot.readings[j]
    {
      replies := [];
      for i := 0 to |calls|
        invariant Valid() && |replies| == i && forall j | 0 <= j < i :: replies[j] == ReplyOf(calls[j])
      {
        var reply := Work(calls[i]);
        replies := replies + [reply];
      }
    }
  }
}
