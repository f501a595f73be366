/** What holds in every reachable state of an endpoint, whatever the interleaving. */
module EndpointTheorems {
  import opened Events
  import opened EventBus
  import opened EndpointMachine

  ghost predicate Fresh(st: State) {
    st == StartedServer() || exists session: nat, url: string :: st == ConnectedClient(session, url)
  }

  ghost predicate Reachable(st: State) {
    exists start: State, steps: seq<Step> :: Fresh(start) && CanRun(start, steps) && st == Run(start, steps)
  }

  lemma FreshIsInv(st: State)
    requires Fresh(st)
    ensures Inv(st)
  {
    if st != StartedServer() {
      var session: nat, url: string :| st == ConnectedClient(session, url);
      hide Inv;
      ClientIsInv(session, url);
    } else {
      assert forall key: Key :: WordIs([], map[], key);
      assert forall s: nat :: BracketFits([], s, map[]);
    }
  }

  lemma ClientIsInv(session: nat, url: string)
    ensures Inv(ConnectedClient(session, url))
  {
    var st := ConnectedClient(session, url);
    var first := SessionOpened(session, "", url);
    EmitKeepsConsistent(EMPTY_BUS, first);
    assert [] + [first] == [first];
    FirstWords(first, session);
    FirstBrackets(first, session);
    hide Emit, Consistent, WordsKept, BracketsKept;
    assert multiset(st.stages.Keys) == multiset(st.streams);
  }

  lemma FirstWords(first: Event, session: nat)
    requires first.SessionOpened?
    ensures WordsKept([first], map[])
  {
    hide Only;
    forall key: Key
      ensures WordIs([first], map[], key)
    {
      OnlyOne(first, Exchange(key));
    }
  }

  lemma FirstBrackets(first: Event, session: nat)
    requires first.SessionOpened? && first.session == session
    ensures BracketsKept([first], map[session := Serving])
  {
    FirstIsOpen(first, session);
    hide Only, Open;
    forall s: nat
      ensures BracketFits(Only([first], Loop(s)), s, map[session := Serving])
    {
      OnlyOne(first, Loop(s));
    }
  }

  lemma OnlyOne(e: Event, topic: Topic)
    ensures Only([e], topic) == if About(e, topic) then [e] else []
  {
    assert [] + [e] == [e];
    OnlyMore([], [e], topic);
  }

  lemma FirstIsOpen(e: Event, session: nat)
    requires e.SessionOpened? && e.session == session
    ensures Open([e], session)
  {
  }

  lemma {:induction false} RunKeepsInv(st: State, steps: seq<Step>)
    requires Inv(st) && CanRun(st, steps)
    ensures Inv(Run(st, steps))
    decreases |steps|
  {
    if steps != [] {
      StepKeepsInv(st, steps[0]);
      RunKeepsInv(Apply(st, steps[0]), steps[1..]);
    }
  }

  lemma ReachableIsInv(st: State)
    requires Reachable(st)
    ensures Inv(st)
  {
    var start: State, steps: seq<Step> :| Fresh(start) && CanRun(start, steps) && st == Run(start, steps);
    FreshIsInv(start);
    RunKeepsInv(start, steps);
  }

  ghost predicate SaidClosed(st: State, session: nat) {
    exists e <- st.bus.emitted :: e.SessionClosed? && e.session == session
  }

  ghost predicate ReadClosed(st: State, session: nat) {
    exists e <- st.bus.delivered :: e.SessionClosed? && e.session == session
  }

  /** Once a session's close is announced, neither map knows it, but for streams `open_stream` brought in too late. */
  lemma CloseBarrier(st: State, s: nat)
    requires Reachable(st) && SaidClosed(st, s)
    ensures s !in st.sessions
    ensures st.role == Server ==> forall key <- st.streams :: key.0 == s ==> key in st.late
  {
    ReachableIsInv(st);
    var e :| e in st.bus.emitted && e.SessionClosed? && e.session == s;
    ClosedMeansFinished(st, e);
  }

  /** What the stream map still holds of a closed session, exactly. */
  lemma LeftBehind(st: State, s: nat, key: Key)
    requires Reachable(st) && SaidClosed(st, s) && key.0 == s
    ensures st.role == Server ==> (key in st.streams <==> key in st.late && key !in st.taken)
    ensures st.role == Client ==> (key in st.streams <==> key in st.stages && key !in st.taken)
  {
    ReachableIsInv(st);
    CloseBarrier(st, s);
    OneConsumer(st, key);
  }

  /** Every stream ever inserted is still there, or one close took it, or its session's end swept it. */
  lemma OneConsumer(st: State, key: Key)
    requires Reachable(st)
    ensures (if key in st.streams then 1 else 0) + st.taken[key] + st.purged[key] == if key in st.stages then 1 else 0
    ensures key in st.purged ==> st.role == Server && Swept(st.tasks, key.0)
    ensures st.role == Server && key in st.streams && key !in st.late ==> !Swept(st.tasks, key.0)
  {
    ReachableIsInv(st);
    assert multiset(st.stages.Keys)[key] == (multiset(st.streams) + st.taken + st.purged)[key];
  }

  lemma {:induction false} RunGoesOn(st: State, first: seq<Step>, second: seq<Step>)
    requires CanRun(st, first) && CanRun(Run(st, first), second)
    ensures CanRun(st, first + second) && Run(st, first + second) == Run(Run(st, first), second)
    decreases |first|
  {
    hide Apply, Enabled;
    if first == [] {
      assert first + second == second;
    } else {
      RunGoesOn(Apply(st, first[0]), first[1..], second);
      assert (first + second)[1..] == first[1..] + second;
    }
  }

  lemma ReachableGoesOn(st: State, steps: seq<Step>)
    requires Reachable(st) && CanRun(st, steps)
    ensures Reachable(Run(st, steps))
  {
    var start: State, before: seq<Step> :| Fresh(start) && CanRun(start, before) && st == Run(start, before);
    RunGoesOn(start, before, steps);
  }

  predicate Names(op: Operation, s: nat) {
    match op
    case Send(session) => session == s
    case OpenStream(session) => session == s
    case StreamSend(key) => key.0 == s
    case StreamClose(key) => key.0 == s
  }

  /** What a call can still get hold of when it names a session whose close is announced. */
  predicate StillHeld(st: State, op: Operation) {
    match op
    case Send(_) => false
    case OpenStream(_) => false
    case StreamSend(key) => key !in st.taken && if st.role == Server then key in st.late else key in st.stages
    case StreamClose(key) => key !in st.taken && if st.role == Server then key in st.late else key in st.stages
  }

  /** The lookup of such a call succeeds exactly then, and is refused otherwise. */
  lemma LookAfterClose(st: State, s: nat, c: nat)
    requires Reachable(st) && SaidClosed(st, s)
    requires c in st.calls && st.calls[c].progress == Begun && Names(st.calls[c].op, s)
    ensures Enabled(st, OfCall(c, Look)) && c in Apply(st, OfCall(c, Look)).calls
    ensures var after := Apply(st, OfCall(c, Look)).calls[c];
            && after.op == st.calls[c].op
            && after.progress == if StillHeld(st, after.op) then Holding else Answered(UnknownHandle)
  {
    CloseBarrier(st, s);
    var op := st.calls[c].op;
    if op.StreamSend? || op.StreamClose? {
      LeftBehind(st, s, op.key);
    }
    hide Reachable;
    FoundIsStillHeld(st, s, op);
  }

  lemma FoundIsStillHeld(st: State, s: nat, op: Operation)
    requires s !in st.sessions && Names(op, s)
    requires op.StreamSend? || op.StreamClose? ==>
               (op.key in st.streams <==>
                op.key !in st.taken && if st.role == Server then op.key in st.late else op.key in st.stages)
    ensures Finds(st.sessions, st.streams, op) <==> StillHeld(st, op)
  {
  }

  /** Once a call has looked, whether it is refused is settled. */
  lemma {:induction false} LookSettles(st: State, steps: seq<Step>, c: nat)
    requires CanRun(st, steps) && c in st.calls && st.calls[c].progress != Begun
    ensures c in Run(st, steps).calls
    ensures Run(st, steps).calls[c].progress != Begun
    ensures Run(st, steps).calls[c].progress == Answered(UnknownHandle) <==>
            st.calls[c].progress == Answered(UnknownHandle)
    decreases |steps|
  {
    if steps != [] {
      StepSettles(st, steps[0], c);
      hide Apply, Enabled;
      LookSettles(Apply(st, steps[0]), steps[1..], c);
    }
  }

  lemma StepSettles(st: State, step: Step, c: nat)
    requires Enabled(st, step) && c in st.calls && st.calls[c].progress != Begun
    ensures c in Apply(st, step).calls && Apply(st, step).calls[c].progress != Begun
    ensures Apply(st, step).calls[c].progress == Answered(UnknownHandle) <==>
            st.calls[c].progress == Answered(UnknownHandle)
  {
  }

  lemma StepLeavesCall(st: State, step: Step, c: nat)
    requires Enabled(st, step) && c in st.calls && st.calls[c].progress == Begun && step != OfCall(c, Look)
    ensures c in Apply(st, step).calls && Apply(st, step).calls[c] == st.calls[c]
  {
  }

  /** Whether call `c`, in the run to come, looks while what it names is still held. */
  predicate LooksWhileHeld(st: State, steps: seq<Step>, c: nat, op: Operation)
    requires CanRun(st, steps)
    decreases |steps|
  {
    && steps != []
    && if steps[0] == OfCall(c, Look) then StillHeld(st, op)
       else LooksWhileHeld(Apply(st, steps[0]), steps[1..], c, op)
  }

  lemma {:induction false} RunDecides(st: State, s: nat, c: nat, steps: seq<Step>)
    requires Reachable(st) && SaidClosed(st, s) && CanRun(st, steps)
    requires c in st.calls && st.calls[c].progress == Begun && Names(st.calls[c].op, s)
    ensures c in Run(st, steps).calls
    ensures Refused(Run(st, steps).calls[c]) <==> !LooksWhileHeld(st, steps, c, st.calls[c].op)
    decreases |steps|
  {
    hide Reachable, SaidClosed, Apply, Enabled, StillHeld, Names;
    if steps != [] {
      var next := Apply(st, steps[0]);
      if steps[0] == OfCall(c, Look) {
        LookAfterClose(st, s, c);
        LookSettles(next, steps[1..], c);
      } else {
        StepLeavesCall(st, steps[0], c);
        StepKeepsClosed(st, s, steps[0]);
        RunDecides(next, s, c, steps[1..]);
      }
    }
  }

  lemma StepKeepsClosed(st: State, s: nat, step: Step)
    requires Reachable(st) && SaidClosed(st, s) && Enabled(st, step)
    ensures Reachable(Apply(st, step)) && SaidClosed(Apply(st, step), s)
  {
    ReachableIsInv(st);
    StepKeepsBus(st, step);
    var next := Apply(st, step);
    var e :| e in st.bus.emitted && e.SessionClosed? && e.session == s;
    hide Apply, Enabled, Inv;
    assert e in next.bus.emitted;
    var same := OneStepOn(st, step);
  }

  lemma ReadMeansSaid(st: State, s: nat)
    requires Reachable(st) && ReadClosed(st, s)
    ensures SaidClosed(st, s)
  {
    ReachableIsInv(st);
    QueueRefinesLog(st.bus);
    var e :| e in st.bus.delivered && e.SessionClosed? && e.session == s;
    SubsequenceMembers(st.bus.delivered, st.bus.emitted, e);
  }

  /**
   A call that begins after the caller has read a session's close is refused in
   every run, unless it looks a stream up that is still held then: on a server
   one that `open_stream` brought in too late, on a client any, and in both only
   while no close has taken it.
   */
  lemma LaterCallsAreRefused(st: State, s: nat, c: nat, op: Operation, steps: seq<Step>)
    requires Reachable(st) && ReadClosed(st, s) && Names(op, s)
    requires Enabled(st, Begin(c, op)) && CanRun(Apply(st, Begin(c, op)), steps)
    ensures var begun := Apply(st, Begin(c, op));
            && c in Run(begun, steps).calls
            && (Refused(Run(begun, steps).calls[c]) <==> !LooksWhileHeld(begun, steps, c, op))
    ensures op.Send? || op.OpenStream? ==> Refused(Run(Apply(st, Begin(c, op)), steps).calls[c])
  {
    ReadMeansSaid(st, s);
    StepKeepsClosed(st, s, Begin(c, op));
    var begun := Apply(st, Begin(c, op));
    assert c in begun.calls && begun.calls[c].op == op && begun.calls[c].progress == Begun;
    hide Apply, Enabled, Reachable, ReadClosed, SaidClosed, Names;
    RunDecides(begun, s, c, steps);
    if op.Send? || op.OpenStream? {
      NeverHeld(begun, steps, c, op);
    }
  }

  lemma {:induction false} NeverHeld(st: State, steps: seq<Step>, c: nat, op: Operation)
    requires CanRun(st, steps) && (op.Send? || op.OpenStream?)
    ensures !LooksWhileHeld(st, steps, c, op)
    decreases |steps|
  {
    if steps != [] {
      hide Apply, Enabled;
      NeverHeld(Apply(st, steps[0]), steps[1..], c, op);
    }
  }

  lemma {:induction false} RoleIsFixed(st: State, steps: seq<Step>)
    requires CanRun(st, steps)
    ensures Run(st, steps).role == st.role
    decreases |steps|
  {
    if steps != [] {
      RoleIsFixed(Apply(st, steps[0]), steps[1..]);
    }
  }

  /** Without `open_stream` nothing is ever late, so the barrier has no exception. */
  lemma {:induction false} NothingIsLate(st: State, steps: seq<Step>)
    requires CanRun(st, steps) && st.late == {}
    requires forall step <- steps :: !(step.OfCall? && step.move.EnterLocal?)
    ensures Run(st, steps).late == {}
    decreases |steps|
  {
    if steps != [] {
      assert steps[0] in steps && forall step <- steps[1..] :: step in steps;
      NothingIsLate(Apply(st, steps[0]), steps[1..]);
    }
  }

  // --- the words of streams and sessions ----------------------------------------------

  ghost predicate SaidWord(word: seq<Event>, hello: seq<Event>, key: Key) {
    || word <= hello + [StreamClosed(key.0, key.1)]
    || exists text: string :: word <= hello + [StreamData(key.0, key.1, text), StreamClosed(key.0, key.1)]
  }

  function Hello(key: Key, origin: Origin): seq<Event> {
    if origin == Peer then [StreamOpened(key.0, key.1)] else []
  }

  lemma WordIsSaid(key: Key, stage: Stage)
    ensures SaidWord(Word(key, stage), Hello(key, stage.origin), key)
  {
    var word, hello := Word(key, stage), Hello(key, stage.origin);
    if stage.phase.Told? || (stage.phase.Ended? && stage.phase.said.Some?) {
      var text := if stage.phase.Told? then stage.phase.text else stage.phase.said.value;
      assert word <= hello + [StreamData(key.0, key.1, text), StreamClosed(key.0, key.1)];
    } else {
      assert word <= hello + [StreamClosed(key.0, key.1)];
    }
  }

  /**
   A stream says at most: opened (if the peer opened it), one whole message,
   closed; in that order. It is in the map's history before it says anything,
   and the caller reads a part of that word in the same order.
   */
  lemma StreamGrammar(st: State, key: Key)
    requires Reachable(st)
    ensures Only(st.bus.emitted, Exchange(key)) != [] ==> key in st.stages
    ensures key in st.stages ==>
              SaidWord(Only(st.bus.emitted, Exchange(key)), Hello(key, st.stages[key].origin), key)
    ensures Subsequence(Only(st.bus.delivered, Exchange(key)), Only(st.bus.emitted, Exchange(key)))
  {
    hide Word, SaidWord, Only;
    ReachableIsInv(st);
    assert WordIs(st.bus.emitted, st.stages, key);
    if key in st.stages {
      WordIsSaid(key, st.stages[key]);
    }
    QueueRefinesLog(st.bus);
    OnlyKeepsOrder(st.bus.delivered, st.bus.emitted, Exchange(key));
  }

  lemma {:induction false} OnlyKeepsOrder(a: seq<Event>, b: seq<Event>, topic: Topic)
    requires Subsequence(a, b)
    ensures Subsequence(Only(a, topic), Only(b, topic))
    decreases |b|
  {
    if a != [] {
      var a', b' := a[..|a| - 1], b[..|b| - 1];
      var e := b[|b| - 1];
      assert a == a' + [a[|a| - 1]] && b == b' + [e];
      if a[|a| - 1] == e && Subsequence(a', b') {
        OnlyKeepsOrder(a', b', topic);
        OnlyMore(a', [e], topic);
        SubsequenceGrows(Only(a', topic), Only(b', topic), e);
      } else {
        OnlyKeepsOrder(a, b', topic);
        SubsequenceGrows(Only(a, topic), Only(b', topic), e);
      }
      OnlyMore(b', [e], topic);
    }
  }

  /** Where the event at `i` stands among those of its topic. */
  function Rank(events: seq<Event>, topic: Topic, i: nat): nat
    requires i <= |events|
  {
    |Only(events[..i], topic)|
  }

  lemma {:induction false} RankIsPlace(events: seq<Event>, topic: Topic, i: nat)
    requires i < |events| && About(events[i], topic)
    ensures Rank(events, topic, i) < |Only(events, topic)|
    ensures Only(events, topic)[Rank(events, topic, i)] == events[i]
    decreases |events|
  {
    var n := |events| - 1;
    if i < n {
      RankIsPlace(events[..n], topic, i);
      assert events[..n][..i] == events[..i];
    }
  }

  lemma {:induction false} RankGrows(events: seq<Event>, topic: Topic, i: nat, j: nat)
    requires i < j <= |events| && About(events[i], topic)
    ensures Rank(events, topic, i) < Rank(events, topic, j)
  {
    RankIsPlace(events[..j], topic, i);
    assert events[..j][..i] == events[..i];
  }

  /** In a bracketed word the opening is first and only first, the close last and only last. */
  lemma BracketOrder(word: seq<Event>, s: nat, tasks: map<nat, Task>, i: nat)
    requires BracketFits(word, s, tasks) && i < |word|
    ensures word[0].SessionOpened? && word[0].session == s
    ensures word[i].SessionOpened? ==> i == 0
    ensures word[i].SessionClosed? ==> i == |word| - 1 && tasks[s] == Finished
  {
  }

  /** Everything a session's own task says stands after its one opening and before its one close. */
  lemma SessionBracket(st: State, s: nat, i: nat, j: nat)
    requires Reachable(st) && i < |st.bus.emitted| && j < |st.bus.emitted| && i != j
    requires forall k <- [i, j] ::
               var e := st.bus.emitted[k];
               !e.EndpointError? && !e.StreamData? && !e.StreamClosed? && e.session == s
    ensures st.bus.emitted[i].SessionOpened? ==> i < j
    ensures st.bus.emitted[i].SessionClosed? ==> j < i
    ensures exists e <- st.bus.emitted :: e.SessionOpened? && e.session == s
  {
    assert i in [i, j] && j in [i, j];
    assert About(st.bus.emitted[i], Loop(s)) && About(st.bus.emitted[j], Loop(s));
    hide BracketFits, Rank, Only, About;
    ReachableIsInv(st);
    var emitted := st.bus.emitted;
    var word := Only(emitted, Loop(s));
    assert BracketFits(word, s, st.tasks);
    RankIsPlace(emitted, Loop(s), i);
    RankIsPlace(emitted, Loop(s), j);
    BracketOrder(word, s, st.tasks, Rank(emitted, Loop(s), i));
    if i < j {
      RankGrows(emitted, Loop(s), i, j);
    } else {
      RankGrows(emitted, Loop(s), j, i);
    }
    OnlyFrom(emitted, Loop(s), word[0]);
  }

  lemma {:induction false} OnlyFrom(events: seq<Event>, topic: Topic, e: Event)
    requires e in Only(events, topic)
    ensures e in events
  {
    var n := |events| - 1;
    if e in Only(events[..n], topic) {
      OnlyFrom(events[..n], topic, e);
    }
  }

  /** In a stream's word nothing precedes the opening, nothing follows the close, and no message is told twice. */
  lemma WordOrder(key: Key, stage: Stage, i: nat, j: nat)
    requires i < j < |Word(key, stage)|
    ensures !Word(key, stage)[j].StreamOpened? && !Word(key, stage)[i].StreamClosed?
    ensures !(Word(key, stage)[i].StreamData? && Word(key, stage)[j].StreamData?)
    ensures Word(key, stage)[i].StreamOpened? ==> stage.origin == Peer
  {
  }

  /** Any two events about one stream stand in that order: opened, the one message, closed, each at most once. */
  lemma StreamOrder(st: State, key: Key, i: nat, j: nat)
    requires Reachable(st) && i < j < |st.bus.emitted|
    requires forall k <- [i, j] ::
               var e := st.bus.emitted[k];
               (e.StreamOpened? || e.StreamData? || e.StreamClosed?) && (e.session, e.stream) == key
    ensures !st.bus.emitted[j].StreamOpened? && !st.bus.emitted[i].StreamClosed?
    ensures !(st.bus.emitted[i].StreamData? && st.bus.emitted[j].StreamData?)
  {
    assert i in [i, j] && j in [i, j];
    assert About(st.bus.emitted[i], Exchange(key)) && About(st.bus.emitted[j], Exchange(key));
    hide Word, Rank, Only, About;
    ReachableIsInv(st);
    assert WordIs(st.bus.emitted, st.stages, key);
    RankIsPlace(st.bus.emitted, Exchange(key), i);
    RankIsPlace(st.bus.emitted, Exchange(key), j);
    RankGrows(st.bus.emitted, Exchange(key), i, j);
    WordOrder(key, st.stages[key], Rank(st.bus.emitted, Exchange(key), i), Rank(st.bus.emitted, Exchange(key), j));
  }

  // --- what a client reads first --------------------------------------------------------

  lemma {:induction false} HistoryGrows(st: State, steps: seq<Step>)
    requires CanRun(st, steps) && |st.bus.emitted| == |st.bus.depths|
    ensures st.bus.emitted <= Run(st, steps).bus.emitted && st.bus.depths <= Run(st, steps).bus.depths
    decreases |steps|
  {
    if steps != [] {
      HistoryGrows(Apply(st, steps[0]), steps[1..]);
    }
  }

  lemma {:induction false} KeptFirst(events: seq<Event>, depths: seq<Option<nat>>)
    requires |events| == |depths| && events != [] && HadRoom(depths[0])
    ensures Kept(events, depths) != [] && Kept(events, depths)[0] == events[0]
  {
    if |events| > 1 {
      var n := |events| - 1;
      KeptFirst(events[..n], depths[..n]);
    }
  }

  /** If the first event found room, it is the first to be read. */
  lemma FirstIsReadFirst(b: Bus)
    requires Consistent(b) && b.emitted != [] && HadRoom(b.depths[0])
    ensures b.delivered != [] ==> b.delivered[0] == b.emitted[0]
  {
    KeptFirst(b.emitted, b.depths);
    hide Kept;
    assert b.delivered != [] ==> (b.delivered + b.queue)[0] == b.delivered[0];
  }

  /** A client first reads that its session opened, under the id `connect` returned. */
  lemma ClientHearsOpenedFirst(session: nat, url: string, steps: seq<Step>)
    requires CanRun(ConnectedClient(session, url), steps)
    ensures var delivered := Run(ConnectedClient(session, url), steps).bus.delivered;
            delivered != [] ==> delivered[0] == SessionOpened(session, "", url)
  {
    var start := ConnectedClient(session, url);
    ClientIsInv(session, url);
    var bus := start.bus;
    assert bus.emitted == [SessionOpened(session, "", url)] && bus.depths == [Some(0)];
    assert HadRoom(bus.depths[0]);
    hide Apply, Enabled, Kept, ConnectedClient, Run, CanRun, HadRoom;
    RunKeepsInv(start, steps);
    HistoryGrows(start, steps);
    InvIsConsistent(Run(start, steps));
    hide Inv, Consistent;
    FirstIsReadFirst(Run(start, steps).bus);
  }

  lemma InvIsConsistent(st: State)
    requires Inv(st)
    ensures Consistent(st.bus)
  {
  }

  /** And so it stays: no later step of anybody brings a closed session back. */
  lemma ClosedForEver(st: State, s: nat, steps: seq<Step>)
    requires Reachable(st) && SaidClosed(st, s) && CanRun(st, steps)
    ensures s !in Run(st, steps).sessions
    ensures st.role == Server ==> forall key <- Run(st, steps).streams :: key.0 == s ==> key in Run(st, steps).late
  {
    var after := Run(st, steps);
    ReachableGoesOn(st, steps);
    RoleIsFixed(st, steps);
    ReachableIsInv(st);
    HistoryGrows(st, steps);
    assert SaidClosed(after, s) by {
      var e :| e in st.bus.emitted && e.SessionClosed? && e.session == s;
      assert e in after.bus.emitted;
    }
    CloseBarrier(after, s);
  }

  /** In every run the bounded queue is a faithful, bounded part of the log. */
  lemma EveryRunRefinesLog(st: State)
    requires Reachable(st)
    ensures |st.bus.queue| <= 1024
    ensures Subsequence(st.bus.delivered + st.bus.queue, st.bus.emitted)
    ensures |st.bus.depths| == |st.bus.emitted|
    ensures multiset(st.bus.emitted) ==
            multiset(st.bus.delivered) + multiset(st.bus.queue) + multiset(Discarded(st.bus.emitted, st.bus.depths))
    ensures AllHadRoom(st.bus.depths) ==> st.bus.delivered + st.bus.queue == st.bus.emitted
    ensures !st.dropped ==> forall d <- st.bus.depths :: d.Some?
  {
    ReachableIsInv(st);
    QueueRefinesLog(st.bus);
  }

  /** Until the drop, whatever is said joins the queue while fewer than 1024 events wait, and is lost when 1024 do. */
  lemma RoomDecides(st: State, step: Step)
    requires Reachable(st) && !st.dropped && Enabled(st, step) && Said(st, step) != []
    ensures Apply(st, step).bus.emitted == st.bus.emitted + [Said(st, step)[0]]
    ensures |st.bus.queue| <= 1024
    ensures |st.bus.queue| < 1024 ==> Apply(st, step).bus.queue == st.bus.queue + [Said(st, step)[0]]
    ensures |st.bus.queue| == 1024 ==> Apply(st, step).bus.queue == st.bus.queue
    ensures Apply(st, step).bus.delivered == st.bus.delivered
  {
    ReachableIsInv(st);
    hide Reachable, Said;
    QueueRefinesLog(st.bus);
  }

  // --- a client keeps the streams of a session that is over ------------------------------

  lemma OneMoreStep(start: State, steps: seq<Step>, step: Step)
    requires CanRun(start, steps) && Enabled(Run(start, steps), step)
    ensures CanRun(start, steps + [step]) && Run(start, steps + [step]) == Apply(Run(start, steps), step)
  {
    hide Apply, Enabled;
    var last := Apply(Run(start, steps), step);
    assert CanRun(last, []) && [step][1..] == [];
    assert CanRun(Run(start, steps), [step]) && Run(Run(start, steps), [step]) == last;
    RunGoesOn(start, steps, [step]);
  }

  lemma OneStepOn(st: State, step: Step) returns (next: State)
    requires Reachable(st) && Enabled(st, step)
    ensures next == Apply(st, step) && Reachable(next)
  {
    hide Apply, Enabled;
    next := Apply(st, step);
    var start: State, steps: seq<Step> :| Fresh(start) && CanRun(start, steps) && st == Run(start, steps);
    OneMoreStep(start, steps, step);
  }

  /** The tables and the queue after one step of a session's task. */
  ghost predicate TaskStepped(st: State, s: nat, move: TaskMove, next: State)
    requires Enabled(st, OfTask(s, move))
  {
    && next.role == st.role && next.dropped == st.dropped && next.nextSession == st.nextSession
    && next.tasks == st.tasks[s := TaskNext(st.tasks[s], move)]
    && next.stages == NextStages(st, OfTask(s, move))
    && next.sessions == NextSessions(st, OfTask(s, move))
    && next.streams == st.streams + Entering(st, OfTask(s, move)) - Purging(st, OfTask(s, move))
    && var said := TaskSays(st.role, s, st.tasks[s], move);
    && next.bus.emitted == st.bus.emitted + said
    && next.bus.queue == (if said == [] || st.dropped then st.bus.queue else Offer(st.bus.queue, said[0]))
    && next.calls == st.calls && next.late == st.late
  }

  lemma TaskSpeaks(st: State, s: nat, move: TaskMove)
    requires Enabled(st, OfTask(s, move))
    ensures var said := TaskSays(st.role, s, st.tasks[s], move);
            && NextBus(st, OfTask(s, move)).emitted == st.bus.emitted + said
            && NextBus(st, OfTask(s, move)).queue ==
               if said == [] || st.dropped then st.bus.queue else Offer(st.bus.queue, said[0])
  {
    var said := TaskSays(st.role, s, st.tasks[s], move);
    assert said != [] ==> [said[0]] == said;
  }

  lemma TaskStep(st: State, s: nat, move: TaskMove)
    requires Inv(st) && Enabled(st, OfTask(s, move))
    ensures Inv(Apply(st, OfTask(s, move))) && TaskStepped(st, s, move, Apply(st, OfTask(s, move)))
  {
    hide Inv, TaskNext, TaskSays, TaskMay, NextBus, NextStages, Entering, Purging, NextSessions;
    StepKeepsInv(st, OfTask(s, move));
    TaskSpeaks(st, s, move);
  }

  lemma NumberIsFresh(st: State)
    requires Inv(st)
    ensures st.nextSession !in st.tasks && st.nextSession !in st.sessions
    ensures forall key <- st.stages :: key.0 != st.nextSession
  {
  }

  lemma NumberStep(st: State)
    requires Inv(st) && st.role == Server
    ensures Enabled(st, Number) && Inv(Apply(st, Number))
    ensures Apply(st, Number) == st.(nextSession := st.nextSession + 1, tasks := st.tasks[st.nextSession := Numbered])
  {
    hide Inv;
    StepKeepsInv(st, Number);
    ApplyQuietly(st, Number);
  }

  lemma PollStep(st: State)
    requires Inv(st) && st.bus.queue != [] && !st.dropped
    ensures Enabled(st, Poll) && Inv(Apply(st, Poll)) && Apply(st, Poll) == st.(bus := Take(st.bus))
  {
    hide Inv;
    StepKeepsInv(st, Poll);
    ApplyQuietly(st, Poll);
  }

  lemma DropStep(st: State)
    requires Inv(st) && Enabled(st, Drop)
    ensures Inv(Apply(st, Drop)) && Apply(st, Drop) == st.(sessions := {}, dropped := true)
  {
    hide Inv;
    StepKeepsInv(st, Drop);
    ApplyQuietly(st, Drop);
  }

  /** Numbering, polling and dropping leave the streams, their history and the calls alone. */
  lemma ApplyQuietly(st: State, step: Step)
    requires Enabled(st, step) && (step.Number? || step.Poll? || step.Drop?)
    ensures Apply(st, step) ==
            st.(nextSession := if step.Number? then st.nextSession + 1 else st.nextSession,
                sessions := NextSessions(st, step), tasks := NextTasks(st, step),
                dropped := st.dropped || step.Drop?, bus := NextBus(st, step))
  {
    hide NextTasks, NextBus, NextSessions;
    var next := Apply(st, step);
    assert next.streams == st.streams && next.taken == st.taken && next.purged == st.purged;
  }

  lemma TaskStepOn(st: State, s: nat, move: TaskMove) returns (next: State)
    requires Reachable(st) && Enabled(st, OfTask(s, move))
    ensures Reachable(next) && TaskStepped(st, s, move, next)
  {
    next := OneStepOn(st, OfTask(s, move));
    ReachableIsInv(st);
    TaskStep(st, s, move);
  }

  /** On a client nothing sweeps: the end of a session leaves every one of its streams in the map. */
  lemma ClientTeardownLeavesStreams(st: State, s: nat, reason: string) returns (after: State)
    requires Reachable(st) && st.role == Client && s in st.tasks && st.tasks[s] == Serving
    ensures Reachable(after) && after.role == Client && SaidClosed(after, s) && after.streams == st.streams
    ensures after.dropped == st.dropped && after.calls == st.calls
    ensures !st.dropped && |st.bus.queue| < EVENT_QUEUE_DEPTH ==> SessionClosed(s, reason) in after.bus.queue
  {
    hide Reachable;
    var ending := TaskStepOn(st, s, End(reason));
    var unlisted := TaskStepOn(ending, s, Unlist);
    after := TaskStepOn(unlisted, s, TellClosed);
    assert after.bus.emitted[|after.bus.emitted| - 1] == SessionClosed(s, reason);
  }

  lemma FreshIsReachable(start: State)
    requires Fresh(start)
    ensures Reachable(start)
  {
    assert CanRun(start, []) && Run(start, []) == start;
  }

  /** A serving session takes in a stream its peer opens. */
  lemma PeerOpensStream(st: State, s: nat, k: nat) returns (serving: State)
    requires Reachable(st) && s in st.tasks && st.tasks[s] == Serving && (s, k) !in st.stages
    ensures Reachable(serving) && serving.role == st.role && (s, k) in serving.streams
    ensures s in serving.tasks && serving.tasks[s] == Serving
    ensures serving.dropped == st.dropped && serving.calls == st.calls
    ensures |serving.bus.queue| <= |st.bus.queue| + 1
  {
    hide Reachable, Apply;
    var entered := TaskStepOn(st, s, EnterStream(k));
    assert (s, k) in entered.streams && entered.bus.queue == st.bus.queue;
    var announced := TaskStepOn(entered, s, AnnounceStream);
    assert (s, k) in announced.streams && |announced.bus.queue| <= |st.bus.queue| + 1;
    serving := TaskStepOn(announced, s, SpawnReader);
  }

  /** So the stream map can outlive its session. */
  lemma ClientLeavesStreams(session: nat, url: string)
    ensures exists st: State ::
              Reachable(st) && st.role == Client && SaidClosed(st, session) && (session, 0) in st.streams
  {
    var start := ConnectedClient(session, url);
    FreshIsReachable(start);
    hide Reachable, SaidClosed;
    var serving := PeerOpensStream(start, session, 0);
    var after := ClientTeardownLeavesStreams(serving, session, "gone");
    assert (session, 0) in after.streams;
  }

  /** On a server only an `open_stream` that had its connection in hand before the sweep leaves one behind. */
  lemma LateOpenLeavesStream(st: State, c: nat, k: nat) returns (after: State)
    requires Reachable(st) && st.role == Server && Enabled(st, OfCall(c, EnterLocal(k)))
    requires SaidClosed(st, st.calls[c].op.session)
    ensures Reachable(after) && SaidClosed(after, st.calls[c].op.session)
    ensures (st.calls[c].op.session, k) in after.streams && (st.calls[c].op.session, k) in after.late
    ensures after.role == Server && after.bus == st.bus && after.dropped == st.dropped
    ensures after.calls.Keys == st.calls.Keys
  {
    ReachableIsInv(st);
    var e :| e in st.bus.emitted && e.SessionClosed? && e.session == st.calls[c].op.session;
    ClosedMeansFinished(st, e);
    hide Inv, Reachable;
    after := OneStepOn(st, OfCall(c, EnterLocal(k)));
    assert after.bus == st.bus;
  }
}
