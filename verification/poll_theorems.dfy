/**
 The poller together with what it polls: a registry other callers start, use and
 stop endpoints in, and the endpoint itself, both going on between the polls.
 */
module PollTheorems {
  import opened Events
  import opened EventBus
  import opened PollLoop
  import EventCodec
  import Machine = EndpointMachine
  import Theorems = EndpointTheorems
  import Registry

  // --- the registry -----------------------------------------------------------------------

  ghost predicate Later(a: Registry.State, b: Registry.State) {
    exists steps: seq<Registry.Step> :: Registry.CanRun(a, steps) && b == Registry.Run(a, steps)
  }

  /** `regs[k]` is the registry when poll `k` looks `h` up, one run of it, `h` started before. */
  ghost predicate LookupsOf(turns: seq<Turn>, h: nat, regs: seq<Registry.State>) {
    && |regs| == |turns|
    && (regs != [] ==> Registry.Reachable(regs[0]) && h in regs[0].started)
    && (forall k | 0 <= k < |regs| - 1 :: Later(regs[k], regs[k + 1]))
    && (forall k | 0 <= k < |turns| :: turns[k].Gone? <==> h !in regs[k].registry)
  }

  lemma {:induction false} StartedStays(st: Registry.State, steps: seq<Registry.Step>, h: nat)
    requires Registry.CanRun(st, steps) && h in st.started
    ensures h in Registry.Run(st, steps).started
    decreases |steps|
  {
    if steps != [] {
      StartedStays(Registry.Apply(st, steps[0]), steps[1..], h);
    }
  }

  lemma {:induction false} LookupsGoOn(turns: seq<Turn>, h: nat, regs: seq<Registry.State>, k: nat)
    requires LookupsOf(turns, h, regs) && k < |regs|
    ensures Registry.Reachable(regs[k]) && h in regs[k].started
    ensures forall j | 0 <= j <= k && h in regs[j].stopped :: h in regs[k].stopped
  {
    hide Registry.Reachable, Registry.Run, Registry.CanRun;
    if k > 0 {
      LookupsGoOn(turns, h, regs, k - 1);
      assert Later(regs[k - 1], regs[k - 1 + 1]);
      var steps: seq<Registry.Step> :|
        Registry.CanRun(regs[k - 1], steps) && regs[k] == Registry.Run(regs[k - 1], steps);
      Registry.RunStaysReachable(regs[k - 1], steps);
      StartedStays(regs[k - 1], steps, h);
      if h in regs[k - 1].stopped {
        Registry.StoppedStays(regs[k - 1], steps, h);
      }
    }
  }

  /** A poll finds the endpoint gone exactly when a stop has taken its handle out. */
  lemma GoneMeansStopped(turns: seq<Turn>, h: nat, regs: seq<Registry.State>, k: nat)
    requires LookupsOf(turns, h, regs) && k < |turns|
    ensures turns[k].Gone? <==> h in regs[k].stopped
  {
    LookupsGoOn(turns, h, regs, k);
    Registry.ReachableIsInv(regs[k]);
    assert Registry.HistoryKept(regs[k]);
    assert h in Registry.Elements(regs[k].started);
  }

  /**
   The loop leaves only when a stop has taken the handle out of the registry, at
   the first poll that begins after it: one more than those begun before.
   */
  lemma LeavesWithTheStop(turns: seq<Turn>, h: nat, regs: seq<Registry.State>, polls: nat, left: bool)
    requires LookupsOf(turns, h, regs) && Ends(turns, polls, left)
    ensures left ==> h in regs[polls - 1].stopped && forall j | 0 <= j < polls - 1 :: h !in regs[j].stopped
    ensures forall k: nat | k < |regs| && h in regs[k].stopped :: left && polls <= k + 1
  {
    hide LookupsOf, Registry.Reachable;
    assert |regs| == |turns| by {
      SameLength(turns, h, regs);
    }
    forall k: nat | k < |turns|
      ensures turns[k].Gone? <==> h in regs[k].stopped
    {
      GoneMeansStopped(turns, h, regs, k);
    }
  }

  lemma SameLength(turns: seq<Turn>, h: nat, regs: seq<Registry.State>)
    requires LookupsOf(turns, h, regs)
    ensures |regs| == |turns|
  {
  }

  // --- the endpoint -------------------------------------------------------------------------

  predicate NoPoll(steps: seq<Machine.Step>) {
    forall step <- steps :: !step.Poll?
  }

  /** Others move the endpoint from `a` to `b`; there is one poller, and it waits. */
  ghost predicate Meanwhile(a: Machine.State, b: Machine.State) {
    exists steps: seq<Machine.Step> :: Machine.CanRun(a, steps) && NoPoll(steps) && b == Machine.Run(a, steps)
  }

  /**
   What a poll finds at `at`, its wait over: an event is the poll step of the
   machine, no event means that none waits. `next` is the endpoint at the end of
   the next wait.
   */
  ghost predicate Finds(turn: Turn, at: Machine.State, next: Machine.State) {
    match turn
    case Next(event) =>
      Machine.Enabled(at, Machine.Poll) && event == at.bus.queue[0] && Meanwhile(Machine.Apply(at, Machine.Poll), next)
    case Quiet => at.bus.queue == [] && Meanwhile(at, next)
    case Gone => Meanwhile(at, next)
  }

  ghost predicate EventsOf(turns: seq<Turn>, ends: seq<Machine.State>) {
    && |ends| == |turns| + 1
    && Theorems.Reachable(ends[0])
    && forall k | 0 <= k < |turns| :: Finds(turns[k], ends[k], ends[k + 1])
  }

  lemma {:induction false} NobodyReads(st: Machine.State, steps: seq<Machine.Step>)
    requires Machine.CanRun(st, steps) && NoPoll(steps)
    ensures Machine.Run(st, steps).bus.delivered == st.bus.delivered
    decreases |steps|
  {
    if steps != [] {
      assert steps[0] in steps && forall step <- steps[1..] :: step in steps;
      StepReadsNothing(st, steps[0]);
      hide Machine.Apply, Machine.Enabled;
      NobodyReads(Machine.Apply(st, steps[0]), steps[1..]);
    }
  }

  lemma StepReadsNothing(st: Machine.State, step: Machine.Step)
    requires Machine.Enabled(st, step) && !step.Poll?
    ensures Machine.Apply(st, step).bus.delivered == st.bus.delivered
  {
    hide Machine.Said, Machine.Enabled;
  }

  lemma MeanwhileReadsNothing(a: Machine.State, b: Machine.State)
    requires Theorems.Reachable(a) && Meanwhile(a, b)
    ensures Theorems.Reachable(b) && b.bus.delivered == a.bus.delivered
  {
    hide Theorems.Reachable, Machine.CanRun, Machine.Run, NoPoll;
    var steps: seq<Machine.Step> :| Machine.CanRun(a, steps) && NoPoll(steps) && b == Machine.Run(a, steps);
    NobodyReads(a, steps);
    Theorems.ReachableGoesOn(a, steps);
  }

  /** One poll takes from the endpoint what it hands out. */
  lemma PollTakes(turn: Turn, at: Machine.State, next: Machine.State)
    requires Theorems.Reachable(at) && Finds(turn, at, next)
    ensures Theorems.Reachable(next)
    ensures next.bus.delivered == at.bus.delivered + if turn.Next? then [turn.event] else []
  {
    hide Theorems.Reachable, Meanwhile, Machine.Apply;
    if turn.Next? {
      Theorems.ReachableIsInv(at);
      Theorems.PollStep(at);
      var polled := Theorems.OneStepOn(at, Machine.Poll);
      MeanwhileReadsNothing(polled, next);
    } else {
      MeanwhileReadsNothing(at, next);
      assert at.bus.delivered + [] == at.bus.delivered;
    }
  }

  ghost predicate GoneForEver(turns: seq<Turn>) {
    forall j, k | 0 <= j < k < |turns| && turns[j].Gone? :: turns[k].Gone?
  }

  /** What the loop takes out over all its turns is what the endpoint has delivered meanwhile. */
  lemma {:induction false} DequeuedIsDelivered(turns: seq<Turn>, ends: seq<Machine.State>)
    requires EventsOf(turns, ends) && GoneForEver(turns)
    ensures Theorems.Reachable(ends[|turns|])
    ensures ends[|turns|].bus.delivered == ends[0].bus.delivered + Dequeued(turns)
    decreases |turns|
  {
    hide Theorems.Reachable, Finds;
    if turns == [] {
      assert ends[0].bus.delivered + [] == ends[0].bus.delivered;
    } else {
      FirstTurn(turns, ends);
      FirstDequeued(turns);
      hide EventsOf, Dequeued, GoneForEver;
      DequeuedIsDelivered(turns[1..], ends[1..]);
      var first := if turns[0].Next? then [turns[0].event] else [];
      assert ends[|turns|] == ends[1..][|turns[1..]|];
      var was := ends[0].bus.delivered;
      assert was + first + Dequeued(turns[1..]) == was + (first + Dequeued(turns[1..]));
    }
  }

  lemma FirstTurn(turns: seq<Turn>, ends: seq<Machine.State>)
    requires EventsOf(turns, ends) && turns != []
    ensures |ends| == |turns| + 1 && EventsOf(turns[1..], ends[1..])
    ensures ends[1].bus.delivered == ends[0].bus.delivered + if turns[0].Next? then [turns[0].event] else []
  {
    hide Theorems.Reachable, Finds;
    assert Finds(turns[0], ends[0], ends[0 + 1]);
    PollTakes(turns[0], ends[0], ends[1]);
    var rest := turns[1..];
    assert forall k | 0 <= k < |rest| :: rest[k] == turns[k + 1] && ends[1..][k] == ends[k + 1];
  }

  lemma FirstDequeued(turns: seq<Turn>)
    requires GoneForEver(turns) && turns != []
    ensures GoneForEver(turns[1..])
    ensures Dequeued(turns) == (if turns[0].Next? then [turns[0].event] else []) + Dequeued(turns[1..])
  {
    if turns[0].Gone? && |turns| > 1 {
      assert turns[1].Gone?;
    }
    forall j, k | 0 <= j < k < |turns[1..]| && turns[1..][j].Gone?
      ensures turns[1..][k].Gone?
    {
      assert turns[j + 1].Gone?;
    }
  }

  lemma GoneStays(turns: seq<Turn>, h: nat, regs: seq<Registry.State>)
    requires LookupsOf(turns, h, regs)
    ensures GoneForEver(turns)
  {
    hide LookupsOf, Registry.Reachable;
    SameLength(turns, h, regs);
    forall j: nat, k: nat | j < k < |turns| && turns[j].Gone?
      ensures turns[k].Gone?
    {
      GoneMeansStopped(turns, h, regs, j);
      LookupsGoOn(turns, h, regs, k);
      GoneMeansStopped(turns, h, regs, k);
    }
  }

  /**
   From the endpoint to Dart: a poller that polls from the start sends on exactly
   what the endpoint delivered, in order; that is a part of everything it emitted,
   and each text reads as its event.
   */
  lemma CallerHearsTheEndpoint(turns: seq<Turn>, h: nat, regs: seq<Registry.State>, ends: seq<Machine.State>)
    requires LookupsOf(turns, h, regs) && EventsOf(turns, ends) && ends[0].bus.delivered == []
    ensures Dequeued(turns) == ends[|turns|].bus.delivered
    ensures Subsequence(Dequeued(turns), ends[|turns|].bus.emitted)
    ensures (forall e <- Dequeued(turns) :: EventCodec.IdsFit(e)) ==>
              && |Forwarded(Dequeued(turns))| == |ends[|turns|].bus.delivered|
              && forall i | 0 <= i < |ends[|turns|].bus.delivered| ::
                   EventCodec.FromJson(Forwarded(Dequeued(turns))[i]) ==
                   EventCodec.Same(ends[|turns|].bus.delivered[i])
  {
    GoneStays(turns, h, regs);
    hide LookupsOf, Theorems.Reachable, GoneForEver, EventCodec.IdsFit, EventCodec.FromJson, EventCodec.Same;
    DequeuedIsDelivered(turns, ends);
    var last := ends[|turns|];
    assert [] + Dequeued(turns) == Dequeued(turns);
    hide EventsOf, Dequeued;
    Theorems.ReachableIsInv(last);
    Theorems.InvIsConsistent(last);
    QueueRefinesLog(last.bus);
    if forall e <- Dequeued(turns) :: EventCodec.IdsFit(e) {
      CallerReadsWhatWasDequeued(Dequeued(turns));
    }
  }
}
