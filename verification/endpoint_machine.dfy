/**
 One endpoint as a step machine.

 Every critical section of rust/src/transport.rs is one atomic step: the task
 that serves a session, the detached reader of each bidirectional stream, the
 calls that arrive from outside, the poller and the drop. A run is any
 interleaving of them. `role` says which task serves the sessions: the one
 `accept_loop` spawns on a server, or the one `connect` spawns on a client.
 */
module EndpointMachine {
  import opened Events
  import opened EventBus

  datatype Role = Server | Client

  /** Where the task of one session stands. */
  datatype Task =
    | Numbered
    | Listed
    | Serving
    | Registering(stream: nat)
    | Ending(reason: string)
    | Unlisted(reason: string)
    | Purged(reason: string)
    | Finished

  datatype Origin = Peer | Local

  /** Where one bidirectional stream stands, from its insertion to its last event. */
  datatype Phase = Entered | Announced | Reading | Told(text: string) | Ended(said: Option<string>)

  datatype Stage = Stage(origin: Origin, phase: Phase)

  datatype Operation =
    | Send(session: nat)
    | StreamSend(key: Key)
    | StreamClose(key: Key)
    | OpenStream(session: nat)

  datatype Progress = Begun | Holding | Inserted(stream: nat) | Answered(status: Status)

  /** A call in flight; `told` are the sessions whose close event had been read when it began. */
  datatype Call = Call(op: Operation, progress: Progress, told: set<nat>)

  /**
   `sessions` and `streams` are the keys of the two shared maps. Everything from
   `taken` on is history: streams handed to a `stream_close`, streams swept away
   with their session, and streams `open_stream` inserted after that sweep.
   */
  datatype State = State(
    role: Role,
    nextSession: nat,
    sessions: set<nat>,
    tasks: map<nat, Task>,
    streams: set<Key>,
    stages: map<Key, Stage>,
    calls: map<nat, Call>,
    dropped: bool,
    bus: Bus,
    taken: multiset<Key>,
    purged: multiset<Key>,
    late: set<Key>
  )

  function StartedServer(): State {
    State(Server, 1, {}, map[], {}, map[], map[], false, EMPTY_BUS, multiset{}, multiset{}, {})
  }

  /** What `connect` leaves before anyone else can see the endpoint. */
  function ConnectedClient(session: nat, url: string): State {
    State(Client, session + 1, {session}, map[session := Serving], {}, map[], map[], false,
          Emit(EMPTY_BUS, SessionOpened(session, "", url)), multiset{}, multiset{}, {})
  }

  /** One step of a session's task: rust/src/transport.rs:633-665 and 683-730, or 448-454 on a client. */
  datatype TaskMove =
    | List
    | Announce(authority: string, path: string)
    | TellDatagram(utf8: string)
    | TellMessage(utf8: string)
    | EnterStream(stream: nat)
    | AnnounceStream
    | SpawnReader
    | End(reason: string)
    | Unlist
    | Purge
    | TellClosed

  /** One step of a detached reader: rust/src/transport.rs:748-761. */
  datatype ReaderMove = ReadWhole(utf8: string) | ReadEnd

  /** One step of a call: its lookup, then its answer; `open_stream` inserts and spawns in between. */
  datatype CallMove = Look | Finish(well: bool) | EnterLocal(stream: nat) | SpawnLocal

  datatype Step =
    | Number
    | Begin(call: nat, op: Operation)
    | OfTask(session: nat, task: TaskMove)
    | OfReader(key: Key, reader: ReaderMove)
    | OfCall(call: nat, move: CallMove)
    | Poll
    | Drop

  // --- the task of one session ------------------------------------------------------

  predicate TaskMay(role: Role, at: Task, move: TaskMove) {
    match move
    case List => at == Numbered
    case Announce(_, _) => at == Listed
    case AnnounceStream => at.Registering?
    case SpawnReader => at.Registering?
    case Unlist => at.Ending?
    case Purge => role == Server && at.Unlisted?
    case TellClosed => if role == Server then at.Purged? else at.Unlisted?
    case _ => at == Serving
  }

  function TaskNext(at: Task, move: TaskMove): Task {
    match move
    case List => Listed
    case EnterStream(k) => Registering(k)
    case AnnounceStream => at
    case End(reason) => Ending(reason)
    case Unlist => if at.Ending? then Unlisted(at.reason) else at
    case Purge => if at.Unlisted? then Purged(at.reason) else at
    case TellClosed => Finished
    case _ => Serving
  }

  function TaskSays(role: Role, s: nat, at: Task, move: TaskMove): seq<Event>
    requires TaskMay(role, at, move)
  {
    match move
    case Announce(authority, path) => [SessionOpened(s, authority, path)]
    case TellDatagram(utf8) => [Datagram(s, utf8)]
    case TellMessage(utf8) => [StreamMessage(s, utf8)]
    case AnnounceStream => [StreamOpened(s, at.stream)]
    case TellClosed => [SessionClosed(s, at.reason)]
    case _ => []
  }

  // --- the reader of one stream -----------------------------------------------------

  predicate ReaderMay(at: Stage, move: ReaderMove) {
    at.phase == Reading || (move.ReadEnd? && at.phase.Told?)
  }

  function ReaderNext(at: Stage, move: ReaderMove): Stage {
    match move
    case ReadWhole(utf8) => at.(phase := Told(utf8))
    case ReadEnd => at.(phase := Ended(if at.phase.Told? then Some(at.phase.text) else None))
  }

  function ReaderSays(key: Key, move: ReaderMove): seq<Event> {
    match move
    case ReadWhole(utf8) => [StreamData(key.0, key.1, utf8)]
    case ReadEnd => [StreamClosed(key.0, key.1)]
  }

  // --- one call ---------------------------------------------------------------------

  /** The lookup under the outer lock: does the call find what it names? */
  predicate Finds(sessions: set<nat>, streams: set<Key>, op: Operation) {
    match op
    case Send(s) => s in sessions
    case OpenStream(s) => s in sessions
    case StreamSend(key) => key in streams
    case StreamClose(key) => key in streams
  }

  predicate CallMay(at: Call, move: CallMove) {
    match move
    case Look => at.progress == Begun
    case Finish(well) => at.progress == Holding && (at.op.OpenStream? ==> !well)
    case EnterLocal(_) => at.progress == Holding && at.op.OpenStream?
    case SpawnLocal => at.progress.Inserted? && at.op.OpenStream?
  }

  function CallNext(at: Call, move: CallMove, found: bool): Progress {
    match move
    case Look => if found then Holding else Answered(UnknownHandle)
    case Finish(well) => Answered(if well then Ok else PeerGone)
    case EnterLocal(k) => Inserted(k)
    case SpawnLocal => Answered(Ok)
  }

  // --- the whole endpoint -------------------------------------------------------------

  predicate StageIs(stages: map<Key, Stage>, key: Key, stage: Stage) {
    key in stages && stages[key] == stage
  }

  /** Whether a step may happen now. Stream ids never repeat on a connection (RFC 9000, section 2.1). */
  predicate Enabled(st: State, step: Step) {
    match step
    case Number => st.role == Server
    case OfTask(s, move) =>
      && s in st.tasks && TaskMay(st.role, st.tasks[s], move)
      && (move.EnterStream? ==> (s, move.stream) !in st.stages)
      && (move.AnnounceStream? ==> StageIs(st.stages, (s, st.tasks[s].stream), Stage(Peer, Entered)))
      && (move.SpawnReader? ==> StageIs(st.stages, (s, st.tasks[s].stream), Stage(Peer, Announced)))
    case OfReader(key, move) => key in st.stages && ReaderMay(st.stages[key], move)
    case Begin(c, _) => c !in st.calls && !st.dropped
    case OfCall(c, move) =>
      && c in st.calls && CallMay(st.calls[c], move)
      && (move.EnterLocal? ==> (st.calls[c].op.session, move.stream) !in st.stages)
      && (move.SpawnLocal? ==>
            StageIs(st.stages, (st.calls[c].op.session, st.calls[c].progress.stream), Stage(Local, Entered)))
    case Poll => st.bus.queue != [] && !st.dropped
    case Drop => !st.dropped && forall c <- st.calls :: st.calls[c].progress.Answered?
  }

  function StreamsOf(streams: set<Key>, session: nat): set<Key> {
    set key <- streams | key.0 == session
  }

  /** The sessions a caller knows to be over. */
  function Known(b: Bus): set<nat> {
    set e <- b.delivered | e.SessionClosed? :: e.session
  }

  /** Whether the sweep of a session's streams is behind its task. */
  predicate Swept(tasks: map<nat, Task>, session: nat) {
    session in tasks && (tasks[session].Purged? || tasks[session] == Finished)
  }

  // --- what a step does, table by table ---

  /** The event a step offers to the queue, if any. */
  function Said(st: State, step: Step): seq<Event>
    requires Enabled(st, step)
  {
    match step
    case OfTask(s, move) => TaskSays(st.role, s, st.tasks[s], move)
    case OfReader(key, move) => ReaderSays(key, move)
    case _ => []
  }

  /** The drop takes the receiver with it: from then on every event is lost. */
  function NextBus(st: State, step: Step): Bus
    requires Enabled(st, step)
  {
    if step.Poll? then Take(st.bus)
    else if Said(st, step) == [] then st.bus
    else if st.dropped then Lose(st.bus, Said(st, step)[0])
    else Emit(st.bus, Said(st, step)[0])
  }

  function NextTasks(st: State, step: Step): map<nat, Task>
    requires Enabled(st, step)
  {
    match step
    case Number => st.tasks[st.nextSession := Numbered]
    case OfTask(s, move) => st.tasks[s := TaskNext(st.tasks[s], move)]
    case _ => st.tasks
  }

  function NextSessions(st: State, step: Step): set<nat>
    requires Enabled(st, step)
  {
    if step.Drop? then {}
    else if step.OfTask? && step.task.List? then st.sessions + {step.session}
    else if step.OfTask? && step.task.Unlist? then st.sessions - {step.session}
    else st.sessions
  }

  /** The stream a step inserts. */
  function Entering(st: State, step: Step): set<Key>
    requires Enabled(st, step)
  {
    if step.OfTask? && step.task.EnterStream? then {(step.session, step.task.stream)}
    else if step.OfCall? && step.move.EnterLocal? then {(st.calls[step.call].op.session, step.move.stream)}
    else {}
  }

  /** The stream a `stream_close` takes out. */
  function Taking(st: State, step: Step): set<Key>
    requires Enabled(st, step)
  {
    if step.OfCall? && step.move.Look? && st.calls[step.call].op.StreamClose? then
      st.streams * {st.calls[step.call].op.key}
    else
      {}
  }

  /** The streams a session's teardown sweeps away. */
  function Purging(st: State, step: Step): set<Key>
    requires Enabled(st, step)
  {
    if step.OfTask? && step.task.Purge? then StreamsOf(st.streams, step.session) else {}
  }

  function NextStages(st: State, step: Step): map<Key, Stage>
    requires Enabled(st, step)
  {
    match step
    case OfTask(s, move) =>
      if move.EnterStream? then st.stages[(s, move.stream) := Stage(Peer, Entered)]
      else if move.AnnounceStream? then st.stages[(s, st.tasks[s].stream) := Stage(Peer, Announced)]
      else if move.SpawnReader? then st.stages[(s, st.tasks[s].stream) := Stage(Peer, Reading)]
      else st.stages
    case OfReader(key, move) => st.stages[key := ReaderNext(st.stages[key], move)]
    case OfCall(c, move) =>
      var call := st.calls[c];
      if move.EnterLocal? then st.stages[(call.op.session, move.stream) := Stage(Local, Entered)]
      else if move.SpawnLocal? then st.stages[(call.op.session, call.progress.stream) := Stage(Local, Reading)]
      else st.stages
    case _ => st.stages
  }

  function NextCalls(st: State, step: Step): map<nat, Call>
    requires Enabled(st, step)
  {
    match step
    case Begin(c, op) => st.calls[c := Call(op, Begun, Known(st.bus))]
    case OfCall(c, move) =>
      var call := st.calls[c];
      st.calls[c := call.(progress := CallNext(call, move, Finds(st.sessions, st.streams, call.op)))]
    case _ => st.calls
  }

  function NextLate(st: State, step: Step): set<Key>
    requires Enabled(st, step)
  {
    if step.OfCall? then
      st.late + set key <- Entering(st, step) | Swept(st.tasks, key.0)
    else
      st.late
  }

  function Apply(st: State, step: Step): State
    requires Enabled(st, step)
  {
    State(
      st.role,
      if step.Number? then st.nextSession + 1 else st.nextSession,
      NextSessions(st, step),
      NextTasks(st, step),
      st.streams + Entering(st, step) - Taking(st, step) - Purging(st, step),
      NextStages(st, step),
      NextCalls(st, step),
      st.dropped || step.Drop?,
      NextBus(st, step),
      st.taken + multiset(Taking(st, step)),
      st.purged + multiset(Purging(st, step)),
      NextLate(st, step))
  }

  predicate CanRun(st: State, steps: seq<Step>)
    decreases |steps|
  {
    steps != [] ==> Enabled(st, steps[0]) && CanRun(Apply(st, steps[0]), steps[1..])
  }

  function Run(st: State, steps: seq<Step>): State
    requires CanRun(st, steps)
    decreases |steps|
  {
    if steps == [] then st else Run(Apply(st, steps[0]), steps[1..])
  }

  /** What one stream, or one session's own task, has to say. */
  datatype Topic = Exchange(key: Key) | Loop(session: nat)

  predicate About(e: Event, topic: Topic) {
    match topic
    case Exchange(key) => (e.StreamOpened? || e.StreamData? || e.StreamClosed?) && (e.session, e.stream) == key
    case Loop(s) =>
      && (e.SessionOpened? || e.SessionClosed? || e.Datagram? || e.StreamMessage? || e.StreamOpened?)
      && e.session == s
  }

  function Only(events: seq<Event>, topic: Topic): seq<Event> {
    if events == [] then [] else
      var n := |events| - 1;
      Only(events[..n], topic) + if About(events[n], topic) then [events[n]] else []
  }

  lemma OnlyMore(events: seq<Event>, said: seq<Event>, topic: Topic)
    requires |said| <= 1
    ensures Only(events + said, topic) ==
            if said != [] && About(said[0], topic) then Only(events, topic) + [said[0]] else Only(events, topic)
  {
    if said == [] {
      assert events + said == events;
    } else {
      assert (events + said)[..|events|] == events;
    }
  }

  // --- what every reachable state satisfies -----------------------------------

  /** The word a stream has said so far. */
  function Word(key: Key, stage: Stage): seq<Event> {
    var hello := if stage.origin == Peer then [StreamOpened(key.0, key.1)] else [];
    match stage.phase
    case Entered => []
    case Announced => hello
    case Reading => hello
    case Told(text) => hello + [StreamData(key.0, key.1, text)]
    case Ended(Some(text)) => hello + [StreamData(key.0, key.1, text), StreamClosed(key.0, key.1)]
    case Ended(None) => hello + [StreamClosed(key.0, key.1)]
  }

  ghost predicate WordIs(emitted: seq<Event>, stages: map<Key, Stage>, key: Key) {
    Only(emitted, Exchange(key)) == if key in stages then Word(key, stages[key]) else []
  }

  ghost predicate WordsKept(emitted: seq<Event>, stages: map<Key, Stage>) {
    forall key: Key :: WordIs(emitted, stages, key)
  }

  predicate Inner(e: Event, session: nat) {
    (e.Datagram? || e.StreamMessage? || e.StreamOpened?) && e.session == session
  }

  /** `SessionOpened`, then only the session's own traffic. */
  predicate Open(word: seq<Event>, session: nat) {
    && word != [] && word[0].SessionOpened? && word[0].session == session
    && forall i | 1 <= i < |word| :: Inner(word[i], session)
  }

  /** The same, and `SessionClosed` behind it. */
  predicate Bracketed(word: seq<Event>, session: nat) {
    && |word| >= 2
    && Open(word[..|word| - 1], session)
    && word[|word| - 1].SessionClosed? && word[|word| - 1].session == session
  }

  predicate BracketFits(word: seq<Event>, session: nat, tasks: map<nat, Task>) {
    if session !in tasks || tasks[session] == Numbered || tasks[session] == Listed then word == []
    else if tasks[session] == Finished then Bracketed(word, session)
    else Open(word, session)
  }

  ghost predicate BracketsKept(emitted: seq<Event>, tasks: map<nat, Task>) {
    forall s: nat :: BracketFits(Only(emitted, Loop(s)), s, tasks)
  }

  predicate IsListed(task: Task) {
    task == Listed || task == Serving || task.Registering? || task.Ending?
  }

  /** Only known sessions are listed or own streams, and none past its teardown is listed. */
  ghost predicate TasksKept(role: Role, next: nat, sessions: set<nat>, tasks: map<nat, Task>, stages: map<Key, Stage>) {
    && (forall s <- tasks :: s < next && (tasks[s].Purged? ==> role == Server))
    && (forall s <- sessions :: s in tasks && IsListed(tasks[s]))
    && (forall key <- stages :: key.0 in tasks)
  }

  /** Every stream ever inserted is in the map, or was taken once, or was swept once. */
  ghost predicate Conserved(st: State) {
    multiset(st.stages.Keys) == multiset(st.streams) + st.taken + st.purged
  }

  /** Only a server sweeps, and what its map holds for a swept session came late. */
  ghost predicate SweepsKept(st: State) {
    && (forall key <- st.purged :: st.role == Server && Swept(st.tasks, key.0))
    && (forall key <- st.late :: Swept(st.tasks, key.0) && key in st.stages && key !in st.purged)
    && (st.role == Server ==> forall key <- st.streams :: Swept(st.tasks, key.0) ==> key in st.late)
  }

  predicate Refused(call: Call) {
    call.progress == Begun || call.progress == Answered(UnknownHandle)
  }

  /** A call that opens a stream names a session that has a task. */
  ghost predicate CallsKept(st: State) {
    forall c <- st.calls ::
      st.calls[c].op.OpenStream? && !Refused(st.calls[c]) ==> st.calls[c].op.session in st.tasks
  }

  /** An event finds no receiver only once the endpoint is dropped. */
  ghost predicate ReceiverKept(st: State) {
    forall i | 0 <= i < |st.bus.depths| :: st.bus.depths[i].None? ==> st.dropped
  }

  ghost predicate Inv(st: State) {
    && Consistent(st.bus)
    && ReceiverKept(st)
    && TasksKept(st.role, st.nextSession, st.sessions, st.tasks, st.stages)
    && Conserved(st)
    && SweepsKept(st)
    && BracketsKept(st.bus.emitted, st.tasks)
    && WordsKept(st.bus.emitted, st.stages)
    && CallsKept(st)
  }

  // --- every step keeps them ----------------------------------------------------

  lemma StepKeepsBus(st: State, step: Step)
    requires Consistent(st.bus) && Enabled(st, step)
    ensures Consistent(NextBus(st, step)) && NextBus(st, step).emitted == st.bus.emitted + Said(st, step)
  {
    if step.Poll? {
      TakeKeepsConsistent(st.bus);
    } else if Said(st, step) != [] {
      EmitKeepsConsistent(st.bus, Said(st, step)[0]);
      LoseKeepsConsistent(st.bus, Said(st, step)[0]);
      assert [Said(st, step)[0]] == Said(st, step);
    }
  }

  lemma StepKeepsReceiver(st: State, step: Step)
    requires ReceiverKept(st) && Enabled(st, step)
    ensures ReceiverKept(Apply(st, step))
  {
    hide Said, Enabled;
  }

  lemma StepKeepsTasks(st: State, step: Step)
    requires TasksKept(st.role, st.nextSession, st.sessions, st.tasks, st.stages)
    requires CallsKept(st) && Enabled(st, step)
    ensures var next := Apply(st, step).nextSession;
            TasksKept(st.role, next, NextSessions(st, step), NextTasks(st, step), NextStages(st, step))
  {
  }

  /** A step that says nothing about a stream, and does not move it, leaves its word. */
  lemma SilentKeepsWord(emitted: seq<Event>, said: seq<Event>,
                        before: map<Key, Stage>, after: map<Key, Stage>, key: Key)
    requires WordIs(emitted, before, key) && |said| <= 1 && (said == [] || !About(said[0], Exchange(key)))
    requires (if key in after then Word(key, after[key]) else []) ==
             if key in before then Word(key, before[key]) else []
    ensures WordIs(emitted + said, after, key)
  {
    hide Only, Word, About;
    OnlyMore(emitted, said, Exchange(key));
  }

  /** A step that says the next thing about a stream takes its word one event further. */
  lemma SpokenKeepsWord(emitted: seq<Event>, e: Event, before: map<Key, Stage>, after: map<Key, Stage>, key: Key)
    requires WordIs(emitted, before, key) && About(e, Exchange(key)) && key in before && key in after
    requires Word(key, after[key]) == Word(key, before[key]) + [e]
    ensures WordIs(emitted + [e], after, key)
  {
    hide Only, Word, About;
    OnlyMore(emitted, [e], Exchange(key));
  }

  lemma AnnouncingKeepsWord(st: State, s: nat, key: Key)
    requires Enabled(st, OfTask(s, AnnounceStream)) && WordIs(st.bus.emitted, st.stages, key)
    ensures WordIs(st.bus.emitted + Said(st, OfTask(s, AnnounceStream)), NextStages(st, OfTask(s, AnnounceStream)), key)
  {
    var step := OfTask(s, AnnounceStream);
    var e := StreamOpened(s, st.tasks[s].stream);
    assert Said(st, step) == [e];
    hide WordIs, Only;
    if key == (s, st.tasks[s].stream) {
      SpokenKeepsWord(st.bus.emitted, e, st.stages, NextStages(st, step), key);
    } else {
      SilentKeepsWord(st.bus.emitted, [e], st.stages, NextStages(st, step), key);
    }
  }

  lemma TaskKeepsWord(st: State, step: Step, key: Key)
    requires Enabled(st, step) && step.OfTask? && WordIs(st.bus.emitted, st.stages, key)
    ensures WordIs(st.bus.emitted + Said(st, step), NextStages(st, step), key)
  {
    hide WordIs, Only;
    if step.task.AnnounceStream? {
      AnnouncingKeepsWord(st, step.session, key);
    } else {
      SilentKeepsWord(st.bus.emitted, Said(st, step), st.stages, NextStages(st, step), key);
    }
  }

  lemma ReaderKeepsWord(st: State, of: Key, move: ReaderMove, key: Key)
    requires Enabled(st, OfReader(of, move)) && WordIs(st.bus.emitted, st.stages, key)
    ensures WordIs(st.bus.emitted + Said(st, OfReader(of, move)), NextStages(st, OfReader(of, move)), key)
  {
    var step := OfReader(of, move);
    var e := ReaderSays(of, move)[0];
    assert Said(st, step) == [e];
    hide WordIs, Only;
    if of == key {
      SpokenKeepsWord(st.bus.emitted, e, st.stages, NextStages(st, step), key);
    } else {
      SilentKeepsWord(st.bus.emitted, [e], st.stages, NextStages(st, step), key);
    }
  }

  /** A call, a poll, a number, a drop: nobody says anything. */
  lemma QuietKeepsWord(st: State, step: Step, key: Key)
    requires Enabled(st, step) && !step.OfTask? && !step.OfReader? && WordIs(st.bus.emitted, st.stages, key)
    ensures WordIs(st.bus.emitted + Said(st, step), NextStages(st, step), key)
  {
    hide WordIs, Only;
    SilentKeepsWord(st.bus.emitted, [], st.stages, NextStages(st, step), key);
  }

  lemma BracketGrows(word: seq<Event>, said: seq<Event>, role: Role, s: nat, at: Task, move: TaskMove)
    requires TaskMay(role, at, move) && said == TaskSays(role, s, at, move)
    requires BracketFits(word, s, map[s := at])
    ensures said == [] ==> BracketFits(word, s, map[s := TaskNext(at, move)])
    ensures said != [] ==> About(said[0], Loop(s)) && BracketFits(word + [said[0]], s, map[s := TaskNext(at, move)])
  {
    if said != [] {
      assert (word + [said[0]])[..|word|] == word;
    }
  }

  lemma StepKeepsBracket(st: State, step: Step, s: nat)
    requires BracketFits(Only(st.bus.emitted, Loop(s)), s, st.tasks)
    requires st.nextSession !in st.tasks && Enabled(st, step)
    ensures BracketFits(Only(st.bus.emitted + Said(st, step), Loop(s)), s, NextTasks(st, step))
  {
    var word := Only(st.bus.emitted, Loop(s));
    OnlyMore(st.bus.emitted, Said(st, step), Loop(s));
    if step.OfTask? && step.session == s {
      BracketGrows(word, Said(st, step), st.role, s, st.tasks[s], step.task);
    } else {
      assert Said(st, step) == [] || !About(Said(st, step)[0], Loop(s));
    }
  }

  lemma Balanced(all: set<Key>, present: set<Key>, taken: multiset<Key>, purged: multiset<Key>,
                 entering: set<Key>, taking: set<Key>, purging: set<Key>)
    requires multiset(all) == multiset(present) + taken + purged
    requires entering !! all && taking <= present && purging <= present && taking !! purging
    ensures multiset(all + entering) ==
            multiset(present + entering - taking - purging) + (taken + multiset(taking)) + (purged + multiset(purging))
  {
    forall key <- present
      ensures key in all
    {
      assert key in multiset(all);
    }
    var rest := present + entering - taking - purging;
    Split(all, entering);
    Split(present, entering);
    Split(rest, taking + purging);
    Split(taking, purging);
    assert rest + (taking + purging) == present + entering;
  }

  lemma StepKeepsConserved(st: State, step: Step)
    requires Conserved(st) && Enabled(st, step)
    ensures Conserved(Apply(st, step))
  {
    assert NextStages(st, step).Keys == st.stages.Keys + Entering(st, step);
    Balanced(st.stages.Keys, st.streams, st.taken, st.purged,
             Entering(st, step), Taking(st, step), Purging(st, step));
  }

  /** A swept session stays swept, and only its own sweep makes it so on a server. */
  lemma SweptKept(st: State, step: Step, s: nat)
    requires Enabled(st, step) && st.nextSession !in st.tasks
    ensures Swept(st.tasks, s) ==> Swept(NextTasks(st, step), s)
    ensures st.role == Server && Swept(NextTasks(st, step), s) && !Swept(st.tasks, s) ==> step == OfTask(s, Purge)
  {
  }

  lemma StepKeepsSweeps(st: State, step: Step)
    requires Conserved(st) && SweepsKept(st) && Enabled(st, step) && st.nextSession !in st.tasks
    ensures SweepsKept(Apply(st, step))
  {
    var st' := Apply(st, step);
    forall key <- st'.late
      ensures Swept(st'.tasks, key.0) && key in st'.stages && key !in st'.purged
    {
      LateStaysLate(st, step, key);
    }
    forall key <- st'.purged
      ensures st.role == Server && Swept(st'.tasks, key.0)
    {
      SweptKept(st, step, key.0);
    }
    forall key <- st'.streams | st.role == Server && Swept(st'.tasks, key.0)
      ensures key in st'.late
    {
      SweptKept(st, step, key.0);
    }
  }

  lemma LateStaysLate(st: State, step: Step, key: Key)
    requires Conserved(st) && SweepsKept(st) && Enabled(st, step) && st.nextSession !in st.tasks
    requires key in NextLate(st, step)
    ensures Swept(NextTasks(st, step), key.0) && key in NextStages(st, step) && key !in Apply(st, step).purged
  {
    SweptKept(st, step, key.0);
    assert key !in st.stages ==> key !in multiset(st.stages.Keys);
  }

  lemma Split<T>(a: set<T>, b: set<T>)
    requires a !! b
    ensures multiset(a + b) == multiset(a) + multiset(b)
  {
  }

  lemma {:induction false} OnlyMember(events: seq<Event>, topic: Topic, e: Event)
    requires e in events && About(e, topic)
    ensures e in Only(events, topic)
  {
    var n := |events| - 1;
    if e != events[n] {
      assert events == events[..n] + [events[n]];
      OnlyMember(events[..n], topic, e);
    }
  }

  /** `SessionClosed` is the last thing a session's task does. */
  lemma ClosedMeansFinished(st: State, e: Event)
    requires BracketsKept(st.bus.emitted, st.tasks)
    requires e in st.bus.emitted && e.SessionClosed?
    ensures e.session in st.tasks && st.tasks[e.session] == Finished
  {
    var word := Only(st.bus.emitted, Loop(e.session));
    OnlyMember(st.bus.emitted, Loop(e.session), e);
    assert BracketFits(word, e.session, st.tasks);
  }

  lemma StepKeepsCalls(st: State, step: Step)
    requires CallsKept(st) && Enabled(st, step)
    requires TasksKept(st.role, st.nextSession, st.sessions, st.tasks, st.stages)
    ensures CallsKept(Apply(st, step))
  {
  }

  lemma StepKeepsInv(st: State, step: Step)
    requires Inv(st) && Enabled(st, step)
    ensures Inv(Apply(st, step))
  {
    StepKeepsBus(st, step);
    StepKeepsReceiver(st, step);
    StepKeepsTasks(st, step);
    StepKeepsConserved(st, step);
    StepKeepsSweeps(st, step);
    StepKeepsCalls(st, step);
    forall key: Key
      ensures WordIs(st.bus.emitted + Said(st, step), NextStages(st, step), key)
    {
      assert WordIs(st.bus.emitted, st.stages, key);
      match step
      case OfTask(_, _) => TaskKeepsWord(st, step, key);
      case OfReader(of, move) => ReaderKeepsWord(st, of, move, key);
      case _ => QuietKeepsWord(st, step, key);
    }
    forall s: nat
      ensures BracketFits(Only(st.bus.emitted + Said(st, step), Loop(s)), s, NextTasks(st, step))
    {
      StepKeepsBracket(st, step, s);
    }
  }
}
