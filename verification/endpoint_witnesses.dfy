/** Runs that reach the exceptions: a call, begun after the close of its session was read, that finds a stream. */
module EndpointWitnesses {
  import opened Events
  import opened EventBus
  import opened EndpointMachine
  import opened EndpointTheorems
  import opened EndpointCalls

  /** The poller takes whatever waits. */
  lemma {:induction false} PollAll(st: State) returns (next: State)
    requires Reachable(st) && !st.dropped
    ensures Reachable(next)
    ensures next == st.(bus := st.bus.(queue := [], delivered := st.bus.delivered + st.bus.queue))
    decreases |st.bus.queue|
  {
    hide Reachable, Inv, Apply;
    if st.bus.queue == [] {
      next := st;
      assert st.bus.delivered + [] == st.bus.delivered;
    } else {
      ReachableIsInv(st);
      PollStep(st);
      var polled := OneStepOn(st, Poll);
      next := PollAll(polled);
      var queue := st.bus.queue;
      assert st.bus.delivered + [queue[0]] + queue[1..] == st.bus.delivered + queue;
    }
  }

  /** Call `c` writes to a stream whose session's close its caller had read, and has hold of the stream. */
  ghost predicate HoldsAfterClose(st: State, role: Role, key: Key, c: nat) {
    && Reachable(st) && st.role == role && ReadClosed(st, key.0)
    && key in st.streams && (role == Server ==> key in st.late)
    && c in st.calls && st.calls[c].op == StreamSend(key) && st.calls[c].progress == Holding
    && key.0 in st.calls[c].told
  }

  lemma CloseIsKnown(b: Bus, s: nat, reason: string)
    requires SessionClosed(s, reason) in b.delivered
    ensures s in Known(b)
  {
  }

  /** Once the close is read, a write begun then looks the stream up and finds it. */
  lemma WriteFindsStream(st: State, key: Key, reason: string, c: nat) returns (after: State)
    requires Reachable(st) && !st.dropped && SessionClosed(key.0, reason) in st.bus.queue
    requires key in st.streams && (st.role == Server ==> key in st.late) && c !in st.calls
    ensures HoldsAfterClose(after, st.role, key, c)
  {
    hide Reachable, Apply, Known;
    var read := PollAll(st);
    assert SessionClosed(key.0, reason) in read.bus.delivered;
    CloseIsKnown(read.bus, key.0, reason);
    CallBegins(read, c, StreamSend(key));
    var begun := OneStepOn(read, Begin(c, StreamSend(key)));
    CallLooks(begun, c);
    after := OneStepOn(begun, OfCall(c, Look));
    assert begun.streams - {} == begun.streams;
  }

  /** On a client: the peer opens a stream, the session ends, its close is read, and a write finds the stream. */
  lemma ClientCallFindsStream(session: nat, url: string, k: nat)
    ensures exists st: State, c: nat :: HoldsAfterClose(st, Client, (session, k), c)
  {
    var start := ConnectedClient(session, url);
    FreshIsReachable(start);
    assert |start.bus.queue| == 1 && !start.dropped && start.calls == map[];
    hide Reachable, SaidClosed, HoldsAfterClose;
    var serving := PeerOpensStream(start, session, k);
    var ended := ClientTeardownLeavesStreams(serving, session, "gone");
    var after := WriteFindsStream(ended, (session, k), "gone", 0);
    assert HoldsAfterClose(after, Client, (session, k), 0);
  }

  /** A server that has numbered its first session. */
  lemma ServerNumbers() returns (st: State)
    ensures Reachable(st) && st == StartedServer().(nextSession := 2, tasks := map[1 := Numbered])
  {
    var start := StartedServer();
    FreshIsReachable(start);
    ReachableIsInv(start);
    NumberStep(start);
    hide Reachable, Apply, Inv;
    st := OneStepOn(start, Number);
  }

  /** A server with one session being served. */
  lemma ServerServes() returns (st: State)
    ensures Reachable(st) && st.role == Server && !st.dropped
    ensures 1 in st.tasks && st.tasks[1] == Serving && st.sessions == {1}
    ensures st.stages == map[] && st.calls == map[] && |st.bus.queue| <= 1
  {
    hide Reachable, Apply;
    var numbered := ServerNumbers();
    var listed := TaskStepOn(numbered, 1, TaskMove.List);
    assert listed.sessions == {1};
    st := TaskStepOn(listed, 1, Announce("", ""));
  }

  /** An `open_stream` that has its connection in hand. */
  lemma OpenIsUnderWay(st: State, s: nat, c: nat) returns (after: State)
    requires Reachable(st) && !st.dropped && s in st.sessions && c !in st.calls
    ensures Reachable(after)
    ensures after.calls == st.calls[c := Call(Operation.OpenStream(s), Holding, Known(st.bus))]
    ensures after.(calls := st.calls) == st
  {
    hide Reachable, Apply, Known;
    CallBegins(st, c, Operation.OpenStream(s));
    var begun := OneStepOn(st, Begin(c, Operation.OpenStream(s)));
    CallLooks(begun, c);
    after := OneStepOn(begun, OfCall(c, Look));
    assert begun.streams - {} == begun.streams && begun.taken + multiset{} == begun.taken;
  }

  /** A server forgets a session and its streams. */
  lemma ServerForgets(st: State, s: nat, reason: string) returns (after: State)
    requires Reachable(st) && st.role == Server && s in st.tasks && st.tasks[s] == Serving
    ensures Reachable(after) && after.role == Server && after.dropped == st.dropped
    ensures s in after.tasks && after.tasks[s] == Purged(reason)
    ensures after.calls == st.calls && after.stages == st.stages && after.bus.queue == st.bus.queue
  {
    hide Reachable, Apply, Entering, Purging;
    var ending := TaskStepOn(st, s, End(reason));
    var unlisted := TaskStepOn(ending, s, Unlist);
    after := TaskStepOn(unlisted, s, Purge);
  }

  /** The end of a server's session, call by call left as it was. */
  lemma ServerTeardown(st: State, s: nat, reason: string) returns (after: State)
    requires Reachable(st) && st.role == Server && !st.dropped && s in st.tasks && st.tasks[s] == Serving
    requires |st.bus.queue| < EVENT_QUEUE_DEPTH
    ensures Reachable(after) && after.role == Server && !after.dropped && SaidClosed(after, s)
    ensures after.calls == st.calls && after.stages == st.stages
    ensures SessionClosed(s, reason) in after.bus.queue
  {
    hide Reachable, Apply;
    var purged := ServerForgets(st, s, reason);
    after := TaskStepOn(purged, s, TellClosed);
    assert after.bus.emitted[|after.bus.emitted| - 1] == SessionClosed(s, reason);
  }

  /** On a server: an `open_stream` comes in after its session's close; a write begun after reading that finds it. */
  lemma ServerCallFindsLateStream(k: nat)
    ensures exists st: State, c: nat :: HoldsAfterClose(st, Server, (1, k), c)
    ensures exists st: State ::
              Reachable(st) && st.role == Server && SaidClosed(st, 1) && (1, k) in st.streams && (1, k) in st.late
  {
    var serving := ServerServes();
    hide Reachable, SaidClosed, HoldsAfterClose, Known;
    var opening := OpenIsUnderWay(serving, 1, 0);
    var closed := ServerTeardown(opening, 1, "gone");
    var late := LateOpenLeavesStream(closed, 0, k);
    assert Reachable(late) && SaidClosed(late, 1) && (1, k) in late.streams && (1, k) in late.late;
    var after := WriteFindsStream(late, (1, k), "gone", 1);
    assert HoldsAfterClose(after, Server, (1, k), 1);
  }

  // --- a full queue ---------------------------------------------------------------------

  lemma {:induction false} DatagramsArrive(st: State, s: nat, text: string, n: nat) returns (after: State)
    requires Reachable(st) && !st.dropped && s in st.tasks && st.tasks[s] == Serving
    requires |st.bus.queue| + n <= EVENT_QUEUE_DEPTH
    ensures Reachable(after) && !after.dropped && after.role == st.role
    ensures s in after.tasks && after.tasks[s] == Serving
    ensures after.bus.queue == st.bus.queue + seq(n, _ => Datagram(s, text))
    decreases n
  {
    hide Reachable, Apply, Entering, Purging, NextStages, NextSessions;
    if n == 0 {
      after := st;
    } else {
      var one := TaskStepOn(st, s, TellDatagram(text));
      assert one.bus.queue == st.bus.queue + [Datagram(s, text)];
      after := DatagramsArrive(one, s, text, n - 1);
      assert seq(n, _ => Datagram(s, text)) == [Datagram(s, text)] + seq(n - 1, _ => Datagram(s, text));
    }
  }

  /** `e` is lost where the queue the comments describe would have lost what waits longest. */
  ghost predicate LosesNewest(st: State, s: nat, move: TaskMove, e: Event) {
    && Reachable(st) && Enabled(st, OfTask(s, move)) && Said(st, OfTask(s, move)) == [e]
    && |st.bus.queue| == 1024 && e !in st.bus.queue
    && Apply(st, OfTask(s, move)).bus.queue == st.bus.queue
    && st.bus.queue[0] !in OfferDroppingOldest(st.bus.queue, e)
  }

  /** A client that reads nothing while 1023 datagrams arrive still holds its opening, and loses the next datagram. */
  lemma FullQueueKeepsTheOldest(session: nat, url: string, text: string, next: string)
    requires text != next
    ensures exists st: State ::
              && LosesNewest(st, session, TellDatagram(next), Datagram(session, next))
              && st.role == Client
              && st.bus.queue == [SessionOpened(session, "", url)] + seq(1023, _ => Datagram(session, text))
  {
    var start := ConnectedClient(session, url);
    FreshIsReachable(start);
    assert start.bus.queue == [SessionOpened(session, "", url)];
    var n: nat :| n == 1023;
    var full := DatagramsArrive(start, session, text, n);
    NewestIsLost(full, session, url, text, next, n);
  }

  lemma NewestIsLost(st: State, s: nat, url: string, text: string, next: string, n: nat)
    requires Reachable(st) && !st.dropped && s in st.tasks && st.tasks[s] == Serving && text != next
    requires n == 1023
    requires st.bus.queue == [SessionOpened(s, "", url)] + seq(n, _ => Datagram(s, text))
    ensures LosesNewest(st, s, TellDatagram(next), Datagram(s, next))
    ensures st.bus.queue[0] == SessionOpened(s, "", url)
  {
    hide Reachable;
    var dropped := OfferDroppingOldest(st.bus.queue, Datagram(s, next));
    assert forall i | 1 <= i <= n :: st.bus.queue[i] == Datagram(s, text);
    assert dropped == st.bus.queue[1..] + [Datagram(s, next)];
  }
}
