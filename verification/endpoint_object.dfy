/**
 The endpoint as the object the library keeps: the two maps, the queue and the
 runtime, changed in place. The ghost field `m` is the step machine's state; each
 method says which steps of the machine its critical sections are.
 */
module EndpointObject {
  import opened Events
  import opened EventBus
  import opened EndpointMachine
  import opened EndpointTheorems
  import opened EndpointCalls

  /** What one turn of `session_loop` receives; text that is not UTF-8 or not complete is `None`. */
  datatype Input = Gram(text: Option<string>) | Uni(text: Option<string>) | Bi(stream: nat)

  /** What one turn of the loop says. */
  function Says(s: nat, input: Input): seq<Event> {
    match input
    case Gram(Some(text)) => [Datagram(s, text)]
    case Uni(Some(text)) => [StreamMessage(s, text)]
    case Bi(k) => [StreamOpened(s, k)]
    case _ => []
  }

  function Traffic(s: nat, inputs: seq<Input>): seq<Event> {
    if inputs == [] then [] else Traffic(s, inputs[..|inputs| - 1]) + Says(s, inputs[|inputs| - 1])
  }

  /** How many of the arrivals have something to tell. */
  function Loud(inputs: seq<Input>): nat {
    if inputs == [] then 0 else
      var last := inputs[|inputs| - 1];
      Loud(inputs[..|inputs| - 1]) + if last.Bi? || last.text.Some? then 1 else 0
  }

  /** Each arrival that has something to tell is told as what it is, at its place, and nothing else is told. */
  lemma {:induction false} TrafficTells(s: nat, inputs: seq<Input>)
    ensures |Traffic(s, inputs)| == Loud(inputs)
    ensures forall i: nat | i < |inputs| && (inputs[i].Bi? || inputs[i].text.Some?) ::
              && Loud(inputs[..i]) < |Traffic(s, inputs)|
              && Traffic(s, inputs)[Loud(inputs[..i])] ==
                 match inputs[i]
                 case Gram(text) => Datagram(s, text.value)
                 case Uni(text) => StreamMessage(s, text.value)
                 case Bi(k) => StreamOpened(s, k)
  {
    if inputs != [] {
      var n := |inputs| - 1;
      var init := inputs[..n];
      TrafficTells(s, init);
      LastTells(s, inputs);
      hide Traffic, Loud, Says;
      forall i: nat | i < |inputs| && (inputs[i].Bi? || inputs[i].text.Some?)
        ensures Loud(inputs[..i]) < |Traffic(s, inputs)|
        ensures Traffic(s, inputs)[Loud(inputs[..i])] ==
                match inputs[i]
                case Gram(text) => Datagram(s, text.value)
                case Uni(text) => StreamMessage(s, text.value)
                case Bi(k) => StreamOpened(s, k)
      {
        if i < n {
          assert init[..i] == inputs[..i] && init[i] == inputs[i];
        }
      }
    }
  }

  lemma LastTells(s: nat, inputs: seq<Input>)
    requires inputs != []
    ensures var n := |inputs| - 1;
            && Traffic(s, inputs) == Traffic(s, inputs[..n]) + Says(s, inputs[n])
            && Loud(inputs) == Loud(inputs[..n]) + |Says(s, inputs[n])|
            && (inputs[n].Gram? && inputs[n].text.Some? ==> Says(s, inputs[n]) == [Datagram(s, inputs[n].text.value)])
            && (inputs[n].Uni? && inputs[n].text.Some? ==>
                  Says(s, inputs[n]) == [StreamMessage(s, inputs[n].text.value)])
            && (inputs[n].Bi? ==> Says(s, inputs[n]) == [StreamOpened(s, inputs[n].stream)])
  {
  }

  function Opened(s: nat, inputs: seq<Input>): set<Key> {
    set input <- inputs | input.Bi? :: (s, input.stream)
  }

  /** QUIC never gives two streams of a connection the same id. */
  ghost predicate FreshIds(inputs: seq<Input>) {
    forall i, j | 0 <= i < j < |inputs| && inputs[i].Bi? && inputs[j].Bi? :: inputs[i].stream != inputs[j].stream
  }

  /** `m` is where the run `trace` has taken a fresh endpoint. */
  ghost predicate Tracks(m: State, start: State, trace: seq<Step>) {
    Inv(m) && Fresh(start) && CanRun(start, trace) && m == Run(start, trace)
  }

  lemma TrackTask(m: State, start: State, trace: seq<Step>, s: nat, move: TaskMove)
    requires Tracks(m, start, trace) && Enabled(m, OfTask(s, move))
    ensures Tracks(Apply(m, OfTask(s, move)), start, trace + [OfTask(s, move)])
    ensures TaskStepped(m, s, move, Apply(m, OfTask(s, move)))
  {
    hide Apply, Enabled, TaskStepped, Inv;
    TaskStep(m, s, move);
    OneMoreStep(start, trace, OfTask(s, move));
  }

  lemma TrackNumber(m: State, start: State, trace: seq<Step>)
    requires Tracks(m, start, trace) && m.role == Server
    ensures Tracks(m.(nextSession := m.nextSession + 1, tasks := m.tasks[m.nextSession := Numbered]),
                   start, trace + [Number])
    ensures m.nextSession !in m.tasks && m.nextSession !in m.sessions
    ensures forall key <- m.stages :: key.0 != m.nextSession
    ensures forall key <- m.streams :: key.0 != m.nextSession
  {
    StreamsAreStaged(m);
    hide Apply, Enabled, Inv;
    NumberIsFresh(m);
    NumberStep(m);
    OneMoreStep(start, trace, Number);
  }

  lemma StreamsAreStaged(m: State)
    requires Inv(m)
    ensures m.streams <= m.stages.Keys
  {
    forall key <- m.streams
      ensures key in m.stages
    {
      assert key in multiset(m.stages.Keys);
    }
  }

  lemma TrackDrop(m: State, start: State, trace: seq<Step>)
    requires Tracks(m, start, trace) && !m.dropped && forall c <- m.calls :: m.calls[c].progress.Answered?
    ensures Tracks(m.(sessions := {}, dropped := true), start, trace + [Drop])
  {
    hide Apply, Inv;
    DropStep(m);
    OneMoreStep(start, trace, Drop);
  }

  lemma TrackPoll(m: State, start: State, trace: seq<Step>)
    requires Tracks(m, start, trace) && m.bus.queue != [] && !m.dropped
    ensures Tracks(m.(bus := Take(m.bus)), start, trace + [Poll])
  {
    hide Apply, Enabled, Inv;
    PollStep(m);
    OneMoreStep(start, trace, Poll);
  }

  /** What a call that is not `open_stream` comes to when nothing runs in between. */
  function Outcome(m: State, op: Operation, well: bool): Status {
    if !Finds(m.sessions, m.streams, op) then UnknownHandle else if well then Ok else PeerGone
  }

  function AfterCall(m: State, c: nat, op: Operation, well: bool): State {
    var found := if op.StreamClose? then m.streams * {op.key} else {};
    m.(calls := m.calls[c := Call(op, Answered(Outcome(m, op, well)), Known(m.bus))],
       streams := m.streams - found, taken := m.taken + multiset(found))
  }

  lemma AnswerIsKept(m: State, c: nat, op: Operation, well: bool)
    ensures var after := AfterCall(m, c, op, well);
            c in after.calls && after.calls[c].progress == Answered(Outcome(m, op, well))
  {
  }

  function CallSteps(m: State, c: nat, op: Operation, well: bool): seq<Step> {
    [Begin(c, op), OfCall(c, Look)] + if Finds(m.sessions, m.streams, op) then [OfCall(c, Finish(well))] else []
  }

  lemma TrackStep(m: State, start: State, trace: seq<Step>, step: Step)
    requires Tracks(m, start, trace) && Enabled(m, step)
    ensures Tracks(Apply(m, step), start, trace + [step]) && Inv(Apply(m, step))
  {
    hide Apply, Enabled, Inv;
    StepKeepsInv(m, step);
    OneMoreStep(start, trace, step);
  }

  /** A call after its lookup. */
  function AfterLook(m: State, c: nat, op: Operation): State {
    var found := if op.StreamClose? then m.streams * {op.key} else {};
    var look := if Finds(m.sessions, m.streams, op) then Holding else Answered(UnknownHandle);
    m.(calls := m.calls[c := Call(op, look, Known(m.bus))], streams := m.streams - found,
       taken := m.taken + multiset(found))
  }

  lemma TrackLook(m: State, start: State, trace: seq<Step>, c: nat, op: Operation)
    requires Tracks(m, start, trace) && c !in m.calls && !m.dropped
    ensures Tracks(AfterLook(m, c, op), start, trace + [Begin(c, op)] + [OfCall(c, Look)])
    ensures Inv(AfterLook(m, c, op))
  {
    hide Apply, Enabled, Tracks, Inv, Known, Finds;
    CallBegins(m, c, op);
    var begun := Apply(m, Begin(c, op));
    TrackStep(m, start, trace, Begin(c, op));
    CallLooks(begun, c);
    TrackStep(begun, start, trace + [Begin(c, op)], OfCall(c, Look));
    assert AfterLook(m, c, op).calls == Apply(begun, OfCall(c, Look)).calls;
  }

  lemma TrackCall(m: State, start: State, trace: seq<Step>, c: nat, op: Operation, well: bool)
    requires Tracks(m, start, trace) && c !in m.calls && !m.dropped && !op.OpenStream?
    ensures Tracks(AfterCall(m, c, op, well), start, trace + CallSteps(m, c, op, well))
  {
    hide Apply, Enabled, Tracks, Inv, Known, Finds;
    TrackLook(m, start, trace, c, op);
    var looked := AfterLook(m, c, op);
    var looking := trace + [Begin(c, op)] + [OfCall(c, Look)];
    if Finds(m.sessions, m.streams, op) {
      CallFinishes(looked, c, well);
      TrackStep(looked, start, looking, OfCall(c, Finish(well)));
      assert trace + CallSteps(m, c, op, well) == looking + [OfCall(c, Finish(well))];
      assert AfterCall(m, c, op, well).calls ==
             looked.calls[c := looked.calls[c].(progress := Answered(if well then Ok else PeerGone))];
    } else {
      assert trace + CallSteps(m, c, op, well) == looking;
      assert AfterCall(m, c, op, well).calls == looked.calls;
    }
  }

  /** What `open_stream` comes to when nothing runs in between; `granted` is the id the connection gave, if any. */
  function AfterOpen(m: State, c: nat, s: nat, granted: Option<nat>): State {
    var status := if s !in m.sessions then UnknownHandle else if granted.None? then PeerGone else Ok;
    var done := m.(calls := m.calls[c := Call(Operation.OpenStream(s), Answered(status), Known(m.bus))]);
    if status != Ok then done else
      done.(streams := m.streams + {(s, granted.value)},
            stages := m.stages[(s, granted.value) := Stage(Local, Reading)])
  }

  lemma TrackOpen(m: State, start: State, trace: seq<Step>, c: nat, s: nat, granted: Option<nat>)
    returns (after: seq<Step>)
    requires Tracks(m, start, trace) && c !in m.calls && !m.dropped
    requires granted.Some? ==> (s, granted.value) !in m.stages
    ensures trace <= after && Tracks(AfterOpen(m, c, s, granted), start, after)
  {
    hide Apply, Enabled, Known, Tracks, Inv;
    var op := Operation.OpenStream(s);
    TrackLook(m, start, trace, c, op);
    var looked := AfterLook(m, c, op);
    assert m.taken + multiset{} == m.taken && m.streams - {} == m.streams;
    after := trace + [Begin(c, op)] + [OfCall(c, Look)];
    var mine := AfterOpen(m, c, s, granted);
    if s !in m.sessions {
      assert looked == mine;
    } else if granted.None? {
      CallFinishes(looked, c, false);
      TrackStep(looked, start, after, OfCall(c, Finish(false)));
      after := after + [OfCall(c, Finish(false))];
      assert mine.calls == looked.calls[c := looked.calls[c].(progress := Answered(PeerGone))];
    } else {
      TrackEnter(looked, start, after, c, granted.value);
      after := after + [OfCall(c, EnterLocal(granted.value))] + [OfCall(c, SpawnLocal)];
      assert mine.calls == looked.calls[c := looked.calls[c].(progress := Answered(Ok))];
    }
  }

  lemma TrackEnter(m: State, start: State, trace: seq<Step>, c: nat, k: nat)
    requires Tracks(m, start, trace) && Inv(m)
    requires c in m.calls && m.calls[c].op.OpenStream? && m.calls[c].progress == Holding
    requires m.calls[c].op.session in m.sessions && (m.calls[c].op.session, k) !in m.stages
    ensures var key := (m.calls[c].op.session, k);
            Tracks(m.(calls := m.calls[c := m.calls[c].(progress := Answered(Ok))], streams := m.streams + {key},
                      stages := m.stages[key := Stage(Local, Reading)]),
                   start, trace + [OfCall(c, EnterLocal(k))] + [OfCall(c, SpawnLocal)])
  {
    hide Apply, Enabled, Tracks, Inv;
    var key := (m.calls[c].op.session, k);
    StreamEnters(m, c, k);
    var entered := Apply(m, OfCall(c, EnterLocal(k)));
    TrackStep(m, start, trace, OfCall(c, EnterLocal(k)));
    StreamSpawns(entered, c, k);
    TrackStep(entered, start, trace + [OfCall(c, EnterLocal(k))], OfCall(c, SpawnLocal));
    assert m.stages[key := Stage(Local, Reading)] == entered.stages[key := Stage(Local, Reading)];
    assert m.calls[c := m.calls[c].(progress := Answered(Ok))] ==
           entered.calls[c := entered.calls[c].(progress := Answered(Ok))];
  }

  class Endpoint {
    var nextSession: nat
    var sessions: map<nat, nat>
    var streams: map<Key, nat>
    var queue: seq<Event>
    var running: bool
    ghost var m: State
    ghost var start: State
    ghost var trace: seq<Step>

    ghost predicate Valid()
      reads this
    {
      && Tracks(m, start, trace)
      && sessions.Keys == m.sessions
      && streams.Keys == m.streams
      && queue == m.bus.queue
      && running == !m.dropped
      && (m.role == Server ==> nextSession == m.nextSession)
    }

    constructor Start()
      ensures Valid() && m == StartedServer() && sessions == map[] && streams == map[] && queue == []
    {
      nextSession, sessions, streams, queue, running := 1, map[], map[], [], true;
      m, start, trace := StartedServer(), StartedServer(), [];
      new;
      FreshIsInv(m);
      assert CanRun(start, []) && Run(start, []) == start;
    }

    constructor Connect(session: nat, url: string, connection: nat)
      ensures Valid() && m == ConnectedClient(session, url) && sessions == map[session := connection]
      ensures queue == [SessionOpened(session, "", url)]
    {
      nextSession, sessions, streams, running := 0, map[session := connection], map[], true;
      queue := [SessionOpened(session, "", url)];
      m, start, trace := ConnectedClient(session, url), ConnectedClient(session, url), [];
      new;
      FreshIsInv(m);
      assert CanRun(start, []) && Run(start, []) == start;
      assert Offer([], SessionOpened(session, "", url)) == queue;
    }

    /** `try_send`: the event waits if there is a receiver and room, and is lost otherwise. */
    method Emit(event: Event)
      modifies this`queue
      ensures queue == if running then Offer(old(queue), event) else old(queue)
      ensures queue == if running && |old(queue)| < 1024 then old(queue) + [event] else old(queue)
    {
      if running && |queue| < EVENT_QUEUE_DEPTH {
        queue := queue + [event];
      }
    }

    /** Takes the oldest event, if one waits. */
    method NextEvent() returns (event: Option<Event>)
      requires Valid() && running
      modifies this`queue, this`m, this`trace
      ensures Valid() && trace == old(trace) + if event.Some? then [Poll] else []
      ensures event.None? <==> old(queue) == []
      ensures event.None? ==> queue == old(queue) && m == old(m)
      ensures event.Some? ==> old(queue) == [event.value] + queue
      ensures event.Some? ==> m.bus.delivered == old(m.bus.delivered) + [event.value]
    {
      hide Tracks;
      if queue == [] {
        return None;
      }
      TrackPoll(m, start, trace);
      event := Some(queue[0]);
      queue := queue[1..];
      m, trace := m.(bus := Take(m.bus)), trace + [Poll];
    }

    // --- calls; `well` is whether the network part went through, `c` names the call ---

    /** The three steps of a call, in the machine. */
    ghost method Follows(op: Operation, well: bool, c: nat)
      requires Tracks(m, start, trace) && c !in m.calls && !m.dropped && !op.OpenStream?
      modifies this`m, this`trace
      ensures Tracks(m, start, trace) && m == AfterCall(old(m), c, op, well)
      ensures trace == old(trace) + CallSteps(old(m), c, op, well)
      ensures m.bus == old(m.bus) && m.dropped == old(m.dropped) && m.sessions == old(m.sessions)
      ensures m.role == old(m.role) && m.nextSession == old(m.nextSession)
      ensures m.streams == if op.StreamClose? then old(m.streams) - {op.key} else old(m.streams)
    {
      hide Tracks, Known;
      TrackCall(m, start, trace, c, op, well);
      trace := trace + CallSteps(m, c, op, well);
      m := AfterCall(m, c, op, well);
    }

    /** Sends to a session. */
    method SendTo(s: nat, well: bool, ghost c: nat) returns (status: Status)
      requires Valid() && running && c !in m.calls
      modifies this`m, this`trace
      ensures Valid() && m == AfterCall(old(m), c, Send(s), well)
      ensures status == Outcome(old(m), Send(s), well)
      ensures status == UnknownHandle <==> s !in sessions
      ensures s in sessions ==> status == if well then Ok else PeerGone
      ensures c in m.calls && m.calls[c].progress == Answered(status)
    {
      hide Tracks, AfterCall;
      AnswerIsKept(m, c, Send(s), well);
      Follows(Send(s), well, c);
      if s !in sessions {
        return UnknownHandle;
      }
      return if well then Ok else PeerGone;
    }

    /** Writes into a stream and leaves it open. */
    method SendOn(key: Key, well: bool, ghost c: nat) returns (status: Status)
      requires Valid() && running && c !in m.calls
      modifies this`m, this`trace
      ensures Valid() && m == AfterCall(old(m), c, StreamSend(key), well)
      ensures status == Outcome(old(m), StreamSend(key), well)
      ensures status == UnknownHandle <==> key !in streams
      ensures key in streams ==> status == if well then Ok else PeerGone
      ensures c in m.calls && m.calls[c].progress == Answered(status)
    {
      hide Tracks, AfterCall;
      AnswerIsKept(m, c, StreamSend(key), well);
      Follows(StreamSend(key), well, c);
      if key !in streams {
        return UnknownHandle;
      }
      return if well then Ok else PeerGone;
    }

    /** Finishes a stream and forgets it, whether or not the finish goes through. */
    method CloseStream(key: Key, well: bool, ghost c: nat) returns (status: Status)
      requires Valid() && running && c !in m.calls
      modifies this`streams, this`m, this`trace
      ensures Valid() && m == AfterCall(old(m), c, StreamClose(key), well)
      ensures status == Outcome(old(m), StreamClose(key), well)
      ensures status == UnknownHandle <==> key !in old(streams)
      ensures key in old(streams) ==> status == if well then Ok else PeerGone
      ensures c in m.calls && m.calls[c].progress == Answered(status)
      ensures streams == old(streams) - {key}
    {
      hide Tracks, AfterCall;
      AnswerIsKept(m, c, StreamClose(key), well);
      Follows(StreamClose(key), well, c);
      var found := key in streams;
      streams := streams - {key};
      if !found {
        return UnknownHandle;
      }
      return if well then Ok else PeerGone;
    }

    /** Opens a stream on a session: it is in the map before the caller learns its id. */
    method OpenStream(s: nat, granted: Option<nat>, handle: nat, ghost c: nat) returns (status: Status)
      requires Valid() && running && c !in m.calls
      requires granted.Some? ==> (s, granted.value) !in m.stages
      modifies this`streams, this`m, this`trace
      ensures Valid() && old(trace) <= trace && m == AfterOpen(old(m), c, s, granted)
      ensures status == if s !in sessions then UnknownHandle else if granted.None? then PeerGone else Ok
      ensures streams == if status == Ok then old(streams)[(s, granted.value) := handle] else old(streams)
      ensures c in m.calls && m.calls[c].progress == Answered(status)
    {
      hide Tracks;
      ghost var after := TrackOpen(m, start, trace, c, s, granted);
      m, trace := AfterOpen(m, c, s, granted), after;
      if s !in sessions {
        return UnknownHandle;
      }
      if granted.None? {
        return PeerGone;
      }
      streams := streams[(s, granted.value) := handle];
      return Ok;
    }

    /** Closes every listed session, once. */
    method CloseSessions() returns (told: seq<nat>)
      modifies this`sessions
      ensures sessions == map[] && multiset(told) == multiset(old(sessions).Keys)
    {
      told := [];
      while sessions != map[]
        invariant multiset(told) + multiset(sessions.Keys) == multiset(old(sessions).Keys)
        decreases |sessions|
      {
        assert sessions.Keys != {};
        var s :| s in sessions;
        ghost var before := sessions.Keys;
        told := told + [s];
        sessions := sessions - {s};
        assert before == sessions.Keys + {s};
        Split(sessions.Keys, {s});
      }
      assert multiset(sessions.Keys) == multiset{};
    }

    /** The drop: every session still listed is told, and then the runtime goes. */
    method DropEndpoint() returns (told: seq<nat>)
      requires Valid() && running && forall c <- m.calls :: m.calls[c].progress.Answered?
      modifies this`sessions, this`running, this`m, this`trace
      ensures Valid() && !running && sessions == map[] && trace == old(trace) + [Drop]
      ensures multiset(told) == multiset(old(sessions).Keys)
    {
      hide Tracks;
      told := CloseSessions();
      running := false;
      TrackDrop(m, start, trace);
      m, trace := m.(sessions := {}, dropped := true), trace + [Drop];
    }

    // --- one step of a session's task, in the machine ---

    /** A step that leaves the streams alone. */
    ghost method Follow(s: nat, move: TaskMove)
      requires Tracks(m, start, trace) && s in m.tasks && TaskMay(m.role, m.tasks[s], move)
      requires !move.EnterStream? && !move.AnnounceStream? && !move.SpawnReader? && !move.Purge?
      modifies this`m, this`trace
      ensures Tracks(m, start, trace) && old(trace) <= trace
      ensures m.role == old(m.role) && m.dropped == old(m.dropped) && m.nextSession == old(m.nextSession)
      ensures m.tasks == old(m.tasks)[s := TaskNext(old(m.tasks[s]), move)]
      ensures m.stages == old(m.stages) && m.streams == old(m.streams)
      ensures m.sessions ==
              if move.List? then old(m.sessions) + {s}
              else if move.Unlist? then old(m.sessions) - {s}
              else old(m.sessions)
      ensures var said := TaskSays(old(m.role), s, old(m.tasks[s]), move);
              && m.bus.emitted == old(m.bus.emitted) + said
              && m.bus.queue ==
                 if said == [] || old(m.dropped) then old(m.bus.queue) else Offer(old(m.bus.queue), said[0])
    {
      hide Tracks, Apply, TaskMay, TaskSays, TaskNext;
      TrackTask(m, start, trace, s, move);
      m, trace := Apply(m, OfTask(s, move)), trace + [OfTask(s, move)];
    }

    /** The step that enters stream `k`, announces it, or hands it to its reader. */
    ghost method FollowStream(s: nat, k: nat, move: TaskMove)
      requires Tracks(m, start, trace) && s in m.tasks
      requires
        || (move == EnterStream(k) && m.tasks[s] == Serving && (s, k) !in m.stages)
        || (move == AnnounceStream && m.tasks[s] == Registering(k) && StageIs(m.stages, (s, k), Stage(Peer, Entered)))
        || (move == SpawnReader && m.tasks[s] == Registering(k) && StageIs(m.stages, (s, k), Stage(Peer, Announced)))
      modifies this`m, this`trace
      ensures Tracks(m, start, trace) && old(trace) <= trace
      ensures m.role == old(m.role) && m.dropped == old(m.dropped) && m.nextSession == old(m.nextSession)
      ensures m.tasks == old(m.tasks)[s := if move == SpawnReader then Serving else Registering(k)]
      ensures m.sessions == old(m.sessions)
      ensures m.stages == old(m.stages)[(s, k) := Stage(Peer, match move
                                                              case EnterStream(_) => Entered
                                                              case AnnounceStream => Announced
                                                              case _ => Reading)]
      ensures m.streams == if move.EnterStream? then old(m.streams) + {(s, k)} else old(m.streams)
      ensures m.bus.emitted == old(m.bus.emitted) + if move == AnnounceStream then [StreamOpened(s, k)] else []
      ensures m.bus.queue ==
              if move == AnnounceStream && !old(m.dropped) then Offer(old(m.bus.queue), StreamOpened(s, k))
              else old(m.bus.queue)
    {
      hide Tracks, Apply;
      TrackTask(m, start, trace, s, move);
      m, trace := Apply(m, OfTask(s, move)), trace + [OfTask(s, move)];
    }

    // --- the task `accept_loop` spawns for one session ---

    /** Hands out a session id. */
    method TakeNumber() returns (s: nat)
      requires Valid() && m.role == Server
      modifies this`nextSession, this`m, this`trace
      ensures Valid() && old(trace) <= trace
      ensures s == old(nextSession) && s !in old(sessions) && forall key <- streams :: key.0 != s
      ensures forall key <- m.stages :: key.0 != s
      ensures m == old(m).(nextSession := s + 1, tasks := old(m.tasks)[s := Numbered])
    {
      hide Tracks;
      TrackNumber(m, start, trace);
      s := nextSession;
      nextSession := nextSession + 1;
      m, trace := m.(nextSession := s + 1, tasks := m.tasks[s := Numbered]), trace + [Number];
    }

    /** Numbers a session, lists it, and only then announces it. */
    method OpenSession(authority: string, path: string, connection: nat) returns (s: nat)
      requires Valid() && m.role == Server
      modifies this`nextSession, this`sessions, this`queue, this`m, this`trace
      ensures Valid() && m.role == Server && old(trace) <= trace
      ensures s == old(nextSession) && s !in old(sessions) && forall key <- streams :: key.0 != s
      ensures s in m.tasks && m.tasks[s] == Serving
      ensures sessions == old(sessions)[s := connection]
      ensures m.stages == old(m.stages) && forall key <- m.stages :: key.0 != s
      ensures m.bus.emitted == old(m.bus.emitted) + [SessionOpened(s, authority, path)]
    {
      hide Tracks, Offer;
      s := TakeNumber();
      sessions := sessions[s := connection];
      Follow(s, TaskMove.List);
      assert Valid() && m.tasks[s] == Listed;
      TellOpen(s, authority, path);
    }

    /** The opening event of a listed session. */
    method TellOpen(s: nat, authority: string, path: string)
      requires Valid() && s in m.tasks && m.tasks[s] == Listed
      modifies this`queue, this`m, this`trace
      ensures Valid() && m.role == old(m.role) && old(trace) <= trace
      ensures s in m.tasks && m.tasks[s] == Serving && m.stages == old(m.stages)
      ensures m.bus.emitted == old(m.bus.emitted) + [SessionOpened(s, authority, path)]
    {
      hide Tracks, Offer;
      Emit(SessionOpened(s, authority, path));
      Follow(s, Announce(authority, path));
    }

    /** Takes in a stream the peer opened: it is in the map before anyone hears of it. */
    method AcceptStream(s: nat, k: nat, handle: nat)
      requires Valid() && s in m.tasks && m.tasks[s] == Serving && (s, k) !in m.stages
      modifies this`streams, this`queue, this`m, this`trace
      ensures Valid() && m.role == old(m.role) && old(trace) <= trace && s in m.tasks && m.tasks[s] == Serving
      ensures streams == old(streams)[(s, k) := handle]
      ensures m.stages.Keys == old(m.stages).Keys + {(s, k)}
      ensures m.bus.emitted == old(m.bus.emitted) + [StreamOpened(s, k)]
    {
      hide Tracks, Offer;
      streams := streams[(s, k) := handle];
      FollowStream(s, k, EnterStream(k));
      assert Valid() && StageIs(m.stages, (s, k), Stage(Peer, Entered));
      AnnounceAndRead(s, k);
    }

    /** Announces a stream that is in the map, and hands it to its reader. */
    method AnnounceAndRead(s: nat, k: nat)
      requires Valid() && s in m.tasks && m.tasks[s] == Registering(k)
      requires StageIs(m.stages, (s, k), Stage(Peer, Entered)) && (s, k) in streams
      modifies this`queue, this`m, this`trace
      ensures Valid() && m.role == old(m.role) && old(trace) <= trace && s in m.tasks && m.tasks[s] == Serving
      ensures m.stages.Keys == old(m.stages).Keys
      ensures m.bus.emitted == old(m.bus.emitted) + [StreamOpened(s, k)]
    {
      hide Tracks, Offer;
      Emit(StreamOpened(s, k));
      FollowStream(s, k, AnnounceStream);
      FollowStream(s, k, SpawnReader);
    }

    /** One turn of `session_loop`. */
    method Turn(s: nat, input: Input, handle: nat)
      requires Valid() && s in m.tasks && m.tasks[s] == Serving
      requires input.Bi? ==> (s, input.stream) !in m.stages
      modifies this`streams, this`queue, this`m, this`trace
      ensures Valid() && m.role == old(m.role) && old(trace) <= trace && s in m.tasks && m.tasks[s] == Serving
      ensures streams == if input.Bi? then old(streams)[(s, input.stream) := handle] else old(streams)
      ensures m.stages.Keys == old(m.stages).Keys + if input.Bi? then {(s, input.stream)} else {}
      ensures m.bus.emitted == old(m.bus.emitted) + Says(s, input)
      ensures input.Gram? && input.text.Some? ==> m.bus.emitted == old(m.bus.emitted) + [Datagram(s, input.text.value)]
      ensures input.Uni? && input.text.Some? ==>
                m.bus.emitted == old(m.bus.emitted) + [StreamMessage(s, input.text.value)]
      ensures input.Bi? ==> m.bus.emitted == old(m.bus.emitted) + [StreamOpened(s, input.stream)]
      ensures !input.Bi? && input.text.None? ==> m.bus.emitted == old(m.bus.emitted)
    {
      hide Tracks, Offer;
      match input {
        case Gram(Some(text)) =>
          Emit(Datagram(s, text));
          Follow(s, TellDatagram(text));
        case Uni(Some(text)) =>
          Emit(StreamMessage(s, text));
          Follow(s, TellMessage(text));
        case Bi(k) =>
          AcceptStream(s, k, handle);
        case _ =>
      }
    }

    /** Drops every stream of an ended session. */
    method Sweep(s: nat, reason: string)
      requires Valid() && m.role == Server && s in m.tasks && m.tasks[s] == Unlisted(reason)
      modifies this`streams, this`m, this`trace
      ensures Valid() && m.role == Server && old(trace) <= trace
      ensures m.tasks == old(m.tasks)[s := Purged(reason)]
      ensures streams == map key <- old(streams) | key.0 != s :: old(streams)[key]
      ensures m.bus.emitted == old(m.bus.emitted)
    {
      hide Tracks, Apply;
      TrackTask(m, start, trace, s, Purge);
      m, trace := Apply(m, OfTask(s, Purge)), trace + [OfTask(s, Purge)];
      streams := map key <- streams | key.0 != s :: streams[key];
    }

    /** The loop is over: the session leaves the map, and nothing is said yet. */
    method ForgetSession(s: nat, reason: string)
      requires Valid() && s in m.tasks && m.tasks[s] == Serving
      modifies this`sessions, this`m, this`trace
      ensures Valid() && m.role == old(m.role) && old(trace) <= trace
      ensures sessions == old(sessions) - {s} && s in m.tasks && m.tasks[s] == Unlisted(reason)
      ensures m.bus.emitted == old(m.bus.emitted)
    {
      hide Tracks, Offer;
      Follow(s, End(reason));
      sessions := sessions - {s};
      Follow(s, Unlist);
    }

    /** Forgets the session, then its streams, and only then says that it is closed. */
    method CloseSession(s: nat, reason: string)
      requires Valid() && m.role == Server && s in m.tasks && m.tasks[s] == Serving
      modifies this`sessions, this`streams, this`queue, this`m, this`trace
      ensures Valid() && m.role == Server && old(trace) <= trace
      ensures sessions == old(sessions) - {s}
      ensures streams == map key <- old(streams) | key.0 != s :: old(streams)[key]
      ensures m.bus.emitted == old(m.bus.emitted) + [SessionClosed(s, reason)]
    {
      hide Tracks, Offer;
      ForgetSession(s, reason);
      Sweep(s, reason);
      assert Valid() && m.tasks[s] == Purged(reason);
      hide Valid;
      TellClose(s, reason);
    }

    /** The close event: on a server only when the session's streams are gone. */
    method TellClose(s: nat, reason: string)
      requires Valid() && s in m.tasks
      requires m.tasks[s] == if m.role == Server then Purged(reason) else Unlisted(reason)
      modifies this`queue, this`m, this`trace
      ensures Valid() && m.role == old(m.role) && old(trace) <= trace
      ensures m.bus.emitted == old(m.bus.emitted) + [SessionClosed(s, reason)]
    {
      hide Tracks, Offer;
      Emit(SessionClosed(s, reason));
      Follow(s, TellClosed);
    }

    /** `session_loop`: one turn for everything that arrives. */
    method SessionLoop(s: nat, inputs: seq<Input>)
      requires Valid() && s in m.tasks && m.tasks[s] == Serving && FreshIds(inputs)
      requires (forall key <- m.stages :: key.0 != s) && forall key <- streams :: key.0 != s
      modifies this`streams, this`queue, this`m, this`trace
      ensures Valid() && m.role == old(m.role) && old(trace) <= trace && s in m.tasks && m.tasks[s] == Serving
      ensures forall key <- old(streams) :: key in streams && streams[key] == old(streams)[key]
      ensures streams.Keys == old(streams).Keys + Opened(s, inputs)
      ensures forall key: Key :: key in streams <==> key in old(streams) || (key.0 == s && Bi(key.1) in inputs)
      ensures m.bus.emitted == old(m.bus.emitted) + Traffic(s, inputs)
      ensures old(m.bus.emitted) <= m.bus.emitted
      ensures |m.bus.emitted| == |old(m.bus.emitted)| + Loud(inputs)
      ensures forall i: nat | i < |inputs| && (inputs[i].Bi? || inputs[i].text.Some?) ::
                && |old(m.bus.emitted)| + Loud(inputs[..i]) < |m.bus.emitted|
                && m.bus.emitted[|old(m.bus.emitted)| + Loud(inputs[..i])] ==
                   match inputs[i]
                   case Gram(text) => Datagram(s, text.value)
                   case Uni(text) => StreamMessage(s, text.value)
                   case Bi(k) => StreamOpened(s, k)
    {
      hide Tracks, Offer, Valid, Opened, Traffic;
      assert inputs[..0] == [] && Traffic(s, []) == [] && Opened(s, []) == {} by {
        TrafficStarts(s);
      }
      var i := 0;
      while i < |inputs|
        invariant 0 <= i <= |inputs|
        invariant Valid() && m.role == old(m.role) && old(trace) <= trace && s in m.tasks && m.tasks[s] == Serving
        invariant forall key <- old(streams) :: key in streams && streams[key] == old(streams)[key]
        invariant streams.Keys == old(streams).Keys + Opened(s, inputs[..i])
        invariant m.stages.Keys == old(m.stages).Keys + Opened(s, inputs[..i])
        invariant m.bus.emitted == old(m.bus.emitted) + Traffic(s, inputs[..i])
      {
        OpenedMore(s, inputs, i);
        Turn(s, inputs[i], i);
        assert m.bus.emitted == old(m.bus.emitted) + (Traffic(s, inputs[..i]) + Says(s, inputs[i]));
        i := i + 1;
      }
      assert inputs[..i] == inputs;
      OpenedAreBis(s, inputs);
      TrafficTells(s, inputs);
      hide Loud;
    }

    /** The whole task of one session, from its number to its close, left to itself. */
    method ServeSession(authority: string, path: string, connection: nat, inputs: seq<Input>, reason: string)
      returns (s: nat)
      requires Valid() && m.role == Server && FreshIds(inputs)
      modifies this`nextSession, this`sessions, this`streams, this`queue, this`m, this`trace
      ensures Valid() && m.role == Server && old(trace) <= trace
      ensures s == old(nextSession) && s !in old(sessions)
      ensures sessions == old(sessions) && streams == old(streams)
      ensures m.bus.emitted ==
              old(m.bus.emitted)
              + ([SessionOpened(s, authority, path)] + Traffic(s, inputs) + [SessionClosed(s, reason)])
    {
      hide Tracks, Offer, Valid;
      s := OpenSession(authority, path, connection);
      SessionLoop(s, inputs);
      CloseSession(s, reason);
    }

    /**
     The task `connect` spawns, left to itself: the same loop, and then the session is forgotten and its close
     told. Nothing sweeps: the streams the peer opened stay in the map.
     */
    method ServeClient(s: nat, inputs: seq<Input>, reason: string)
      requires Valid() && m.role == Role.Client && s in m.tasks && m.tasks[s] == Serving && FreshIds(inputs)
      requires (forall key <- m.stages :: key.0 != s) && forall key <- streams :: key.0 != s
      modifies this`sessions, this`streams, this`queue, this`m, this`trace
      ensures Valid() && old(trace) <= trace && sessions == old(sessions) - {s}
      ensures streams.Keys == old(streams).Keys + Opened(s, inputs)
      ensures m.bus.emitted == old(m.bus.emitted) + (Traffic(s, inputs) + [SessionClosed(s, reason)])
    {
      hide Tracks, Offer, Opened, Traffic, Valid;
      SessionLoop(s, inputs);
      ForgetSession(s, reason);
      TellClose(s, reason);
    }
  }

  lemma OpenedAreBis(s: nat, inputs: seq<Input>)
    ensures forall key: Key :: key in Opened(s, inputs) <==> key.0 == s && Bi(key.1) in inputs
  {
  }

  lemma TrafficStarts(s: nat)
    ensures Traffic(s, []) == [] && Opened(s, []) == {}
  {
  }

  lemma OpenedMore(s: nat, inputs: seq<Input>, i: nat)
    requires i < |inputs| && FreshIds(inputs)
    ensures Opened(s, inputs[..i + 1]) == Opened(s, inputs[..i]) + if inputs[i].Bi? then {(s, inputs[i].stream)} else {}
    ensures inputs[i].Bi? ==> (s, inputs[i].stream) !in Opened(s, inputs[..i])
    ensures Traffic(s, inputs[..i + 1]) == Traffic(s, inputs[..i]) + Says(s, inputs[i])
  {
    assert inputs[..i + 1] == inputs[..i] + [inputs[i]];
    assert inputs[..i + 1][..i] == inputs[..i];
  }
}
