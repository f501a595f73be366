/**
 The handle an application holds, `QuicServer` or `QuicClient`, with the worker
 behind it: a stop flag, the command channel, and two queues between isolates.

 The flag is tested and the envelope sent within one turn of the isolate, so they
 are one step. The worker takes envelopes in order and answers each before the
 next; isolate ports keep order.
 */
module Facade {
  import opened Events
  import opened CommandChannel

  datatype Teardown = Running | Cancelled | Settled

  /** `native` and `answers` are the history of the worker: what it called and what it replied. */
  datatype State = State(
    stopped: bool,
    ch: Channel,
    inbox: seq<Envelope>,
    replies: seq<(nat, Answer)>,
    native: seq<Command>,
    answers: seq<Answer>,
    teardown: Teardown
  )

  const SPAWNED := State(false, OPENED, [], [], [], [], Running)

  /** `Ask` is any call but stop; `Dispose` is what a completed stop goes on to do. */
  datatype Step =
    | Ask(command: Command)
    | Stop
    | Work(answer: Answer)
    | HearReply
    | Dispose
    | DisposeRest

  predicate Enabled(st: State, step: Step) {
    match step
    case Ask(command) => command != StopCommand
    case Stop => true
    case Work(_) => st.inbox != [] && st.teardown == Running
    case HearReply => st.replies != [] && st.teardown == Running
    case Dispose =>
      && st.stopped && st.teardown == Running && st.ch.nextId > 0
      && Result(st.ch.completions, st.ch.nextId - 1).Some?
    case DisposeRest => st.teardown == Cancelled
  }

  /** A stopped handle refuses; otherwise the command goes out. */
  function Post(st: State, command: Command): State {
    if st.stopped then st
    else
      var ch := Send(st.ch, command);
      st.(stopped := command == StopCommand, ch := ch, inbox := st.inbox + [Envelope(st.ch.nextId, command)])
  }

  function Apply(st: State, step: Step): State
    requires Enabled(st, step)
  {
    match step
    case Ask(command) => Post(st, command)
    case Stop => Post(st, StopCommand)
    case Work(answer) =>
      st.(inbox := st.inbox[1..], replies := st.replies + [(st.inbox[0].id, answer)],
          native := st.native + [st.inbox[0].command], answers := st.answers + [answer])
    case HearReply => st.(ch := Hear(st.ch, st.replies[0].0, st.replies[0].1), replies := st.replies[1..])
    case Dispose => st.(ch := Cancel(st.ch), teardown := Cancelled)
    case DisposeRest => st.(ch := Settle(st.ch), teardown := Settled)
  }

  predicate CanRun(st: State, steps: seq<Step>)
    decreases |steps|
  {
    steps != [] ==> Enabled(st, steps[0]) && CanRun(Apply(st, steps[0]), steps[1..])
  }

  function Run(st: State, steps: seq<Step>): State
    requires CanRun(st, steps)
    decreases |steps|
  {
    if steps == [] then st else Run(Apply(st, steps[0]), steps[1..])
  }

  // --- the invariant ------------------------------------------------------------------------

  /** Calls go out numbered in program order, and a stop is the last of them. */
  ghost predicate SentKept(st: State) {
    && |st.ch.sent| == st.ch.nextId
    && (forall i: nat | i < |st.ch.sent| :: st.ch.sent[i].id == i)
    && (forall i: nat | i < |st.ch.sent| ::
          st.ch.sent[i].command == StopCommand ==> st.stopped && i == |st.ch.sent| - 1)
    && (st.stopped ==> st.ch.sent != [] && st.ch.sent[|st.ch.sent| - 1].command == StopCommand)
  }

  /** The worker has done a prefix of them, and each answer is in flight or delivered, in order. */
  ghost predicate WorkKept(st: State) {
    && |st.native| == |st.answers| <= |st.ch.sent|
    && (forall i: nat | i < |st.native| :: st.native[i] == st.ch.sent[i].command)
    && st.inbox == st.ch.sent[|st.native|..]
    && |st.ch.completions| + |st.replies| == |st.answers|
    && (forall i: nat | i < |st.ch.completions| :: st.ch.completions[i] == (i, st.answers[i]))
    && (forall i: nat | i < |st.replies| ::
          st.replies[i] == (|st.ch.completions| + i, st.answers[|st.ch.completions| + i]))
  }

  ghost predicate PendingKept(st: State) {
    && (forall id: nat :: id in st.ch.pending <==> |st.ch.completions| <= id < st.ch.nextId)
    && (st.teardown == Running ==> st.ch.listening)
    && (st.teardown != Running ==> st.stopped && |st.ch.completions| == st.ch.nextId)
  }

  ghost predicate Inv(st: State) {
    SentKept(st) && WorkKept(st) && PendingKept(st)
  }

  lemma {:induction false} ResultAt(completions: seq<(nat, Answer)>, answers: seq<Answer>, id: nat)
    requires |completions| <= |answers|
    requires forall i: nat | i < |completions| :: completions[i] == (i, answers[i])
    ensures Result(completions, id) == if id < |completions| then Some(answers[id]) else None
  {
    if completions != [] {
      ResultAt(completions[..|completions| - 1], answers, id);
    }
  }

  lemma StepKeepsSent(st: State, step: Step)
    requires SentKept(st) && Enabled(st, step)
    ensures SentKept(Apply(st, step))
  {
  }

  lemma NobodyIsOrphaned(ch: Channel)
    requires ch.pending == {}
    ensures Settle(ch) == ch
  {
    NoneOfNone(ch.nextId);
  }

  lemma {:induction false} NoneOfNone(below: nat)
    ensures SmallestFirst({}, below) == []
  {
    if below > 0 {
      NoneOfNone(below - 1);
    }
  }

  lemma WorkerKeepsWork(st: State, answer: Answer)
    requires Inv(st) && Enabled(st, Work(answer))
    ensures WorkKept(Apply(st, Work(answer))) && PendingKept(Apply(st, Work(answer)))
  {
    assert st.inbox[0] == st.ch.sent[|st.native|];
  }

  lemma ListenerKeepsWork(st: State)
    requires Inv(st) && Enabled(st, HearReply)
    ensures WorkKept(Apply(st, HearReply)) && PendingKept(Apply(st, HearReply))
  {
    assert st.replies[0] == (|st.ch.completions|, st.answers[|st.ch.completions|]);
    assert st.replies[0].0 in st.ch.pending;
    assert Apply(st, HearReply).ch.completions == st.ch.completions + [st.replies[0]];
  }

  lemma PostKeepsWork(st: State, command: Command)
    requires Inv(st)
    ensures WorkKept(Post(st, command)) && PendingKept(Post(st, command))
  {
  }

  lemma StepKeepsWork(st: State, step: Step)
    requires Inv(st) && Enabled(st, step)
    ensures WorkKept(Apply(st, step)) && PendingKept(Apply(st, step))
  {
    match step
    case Ask(command) => PostKeepsWork(st, command);
    case Stop => PostKeepsWork(st, StopCommand);
    case Work(answer) => WorkerKeepsWork(st, answer);
    case HearReply => ListenerKeepsWork(st);
    case Dispose => ResultAt(st.ch.completions, st.answers, st.ch.nextId - 1);
    case DisposeRest => NobodyIsOrphaned(st.ch);
  }

  lemma {:induction false} RunKeepsInv(st: State, steps: seq<Step>)
    requires Inv(st) && CanRun(st, steps)
    ensures Inv(Run(st, steps))
    decreases |steps|
  {
    hide SentKept, WorkKept, PendingKept, Apply, Enabled;
    if steps != [] {
      StepKeepsSent(st, steps[0]);
      StepKeepsWork(st, steps[0]);
      RunKeepsInv(Apply(st, steps[0]), steps[1..]);
    }
  }

  ghost predicate Reachable(st: State) {
    exists steps: seq<Step> :: CanRun(SPAWNED, steps) && st == Run(SPAWNED, steps)
  }

  lemma ReachableIsInv(st: State)
    requires Reachable(st)
    ensures Inv(st)
  {
    var steps: seq<Step> :| CanRun(SPAWNED, steps) && st == Run(SPAWNED, steps);
    RunKeepsInv(SPAWNED, steps);
  }

  // --- what every run promises ------------------------------------------------------------------

  /** The native calls happen in program order, and nothing is ever sent behind the stop. */
  lemma NativeCallsInProgramOrder(st: State)
    requires Reachable(st)
    ensures |st.native| <= |st.ch.sent| && forall i: nat | i < |st.native| :: st.native[i] == st.ch.sent[i].command
    ensures forall i: nat | i < |st.ch.sent| :: st.ch.sent[i].command == StopCommand ==> i == |st.ch.sent| - 1
    ensures st.stopped <==> exists i: nat :: i < |st.ch.sent| && st.ch.sent[i].command == StopCommand
  {
    ReachableIsInv(st);
    if st.stopped {
      assert st.ch.sent[|st.ch.sent| - 1].command == StopCommand;
    }
  }

  /** What an application asks for, up to its first stop. */
  function AskedUntilStop(steps: seq<Step>): seq<Command> {
    if steps == [] then []
    else match steps[0]
         case Ask(command) => [command] + AskedUntilStop(steps[1..])
         case Stop => [StopCommand]
         case _ => AskedUntilStop(steps[1..])
  }

  function CommandsOf(sent: seq<Envelope>): seq<Command> {
    seq(|sent|, i requires 0 <= i < |sent| => sent[i].command)
  }

  /** What goes out is what was asked for, in order, each once, up to and with the first stop; then nothing. */
  lemma {:induction false} SentIsAsked(st: State, steps: seq<Step>)
    requires CanRun(st, steps)
    ensures CommandsOf(Run(st, steps).ch.sent) ==
            CommandsOf(st.ch.sent) + if st.stopped then [] else AskedUntilStop(steps)
    decreases |steps|
  {
    if steps != [] {
      var next := Apply(st, steps[0]);
      StepSends(st, steps[0]);
      hide Apply, Enabled, CommandsOf;
      SentIsAsked(next, steps[1..]);
      var was, rest := CommandsOf(st.ch.sent), AskedUntilStop(steps[1..]);
      if !st.stopped && steps[0].Ask? {
        assert was + [steps[0].command] + rest == was + ([steps[0].command] + rest);
      } else if !st.stopped && steps[0].Stop? {
        assert was + [StopCommand] + [] == was + [StopCommand];
      }
    }
  }

  lemma StepSends(st: State, step: Step)
    requires Enabled(st, step)
    ensures var next := Apply(st, step);
            && next.stopped == (st.stopped || step.Stop?)
            && CommandsOf(next.ch.sent) ==
               CommandsOf(st.ch.sent)
               + if st.stopped then [] else if step.Ask? then [step.command]
                 else if step.Stop? then [StopCommand] else []
  {
    hide Result;
  }

  /** When the stop's future is complete, every call ever made has its own native answer, and disposing finds nobody. */
  lemma StopSettlesEverything(st: State, id: nat)
    requires Reachable(st) && st.stopped && id < st.ch.nextId
    requires Result(st.ch.completions, st.ch.nextId - 1).Some?
    ensures |st.answers| == st.ch.nextId && Result(st.ch.completions, id) == Some(st.answers[id])
    ensures |st.native| == |st.ch.sent| == st.ch.nextId && st.native[id] == st.ch.sent[id].command
    ensures st.ch.pending == {} && Settle(Cancel(st.ch)).completions == st.ch.completions
  {
    ReachableIsInv(st);
    ResultAt(st.ch.completions, st.answers, st.ch.nextId - 1);
    ResultAt(st.ch.completions, st.answers, id);
    NobodyIsOrphaned(Cancel(st.ch));
  }

  /** Nothing runs after the stop's native call. */
  lemma StopIsTheLastNativeCall(st: State, i: nat)
    requires Reachable(st) && i < |st.native| && st.native[i] == StopCommand
    ensures i == |st.native| - 1 && i == st.ch.nextId - 1
  {
    ReachableIsInv(st);
  }

  /** How much is under way between the isolates. */
  function UnderWay(st: State): nat {
    2 * |st.inbox| + |st.replies|
  }

  /** While a call waits, the worker or the listener can move, and every such move brings the end nearer. */
  lemma WaitingCallsAreServed(st: State)
    requires Reachable(st) && st.teardown == Running && st.ch.pending != {}
    ensures st.inbox != [] || st.replies != []
    ensures forall answer: Answer ::
              Enabled(st, Work(answer)) ==> UnderWay(Apply(st, Work(answer))) < UnderWay(st)
    ensures Enabled(st, HearReply) ==> UnderWay(Apply(st, HearReply)) < UnderWay(st)
  {
    ReachableIsInv(st);
    var id: nat :| id in st.ch.pending;
  }

  /** Only the worker and the listener move. */
  predicate Serving(steps: seq<Step>) {
    forall step <- steps :: step.Work? || step.HearReply?
  }

  /**
   Once a stop is out, whatever order worker and listener move in and whatever
   each call is answered: they make at most as many moves as the measure says,
   while fewer are made one of them can still move, and then the stop is complete.
   */
  lemma {:induction false} StopCompletes(st: State, steps: seq<Step>)
    requires Inv(st) && st.stopped && st.teardown == Running
    requires CanRun(st, steps) && Serving(steps)
    ensures var after := Run(st, steps);
            && |steps| + UnderWay(after) == UnderWay(st)
            && (|steps| < UnderWay(st) ==> after.inbox != [] || after.replies != [])
            && (forall answer: Answer :: after.inbox != [] ==> Enabled(after, Work(answer)))
            && (after.replies != [] ==> Enabled(after, HearReply))
            && (|steps| == UnderWay(st) ==>
                  after.ch.nextId == st.ch.nextId && Result(after.ch.completions, st.ch.nextId - 1).Some?)
    decreases |steps|
  {
    hide Inv, Apply;
    if steps == [] {
      if UnderWay(st) == 0 {
        StopIsComplete(st);
      }
    } else {
      assert steps[0] in steps && forall step <- steps[1..] :: step in steps;
      StepServes(st, steps[0]);
      hide Enabled, UnderWay;
      StopCompletes(Apply(st, steps[0]), steps[1..]);
    }
  }

  lemma StopIsComplete(st: State)
    requires Inv(st) && st.stopped && UnderWay(st) == 0
    ensures Result(st.ch.completions, st.ch.nextId - 1).Some?
  {
    ResultAt(st.ch.completions, st.answers, st.ch.nextId - 1);
  }

  lemma StepServes(st: State, step: Step)
    requires Inv(st) && st.stopped && st.teardown == Running
    requires Enabled(st, step) && (step.Work? || step.HearReply?)
    ensures Inv(Apply(st, step)) && Apply(st, step).stopped && Apply(st, step).teardown == Running
    ensures Apply(st, step).ch.nextId == st.ch.nextId && UnderWay(Apply(st, step)) == UnderWay(st) - 1
  {
    StepKeepsSent(st, step);
    StepKeepsWork(st, step);
    hide Inv;
  }
}
