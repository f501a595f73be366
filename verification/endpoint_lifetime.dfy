/**
 One endpoint and the registry that holds it, moving together.

 A call of the endpoint is made by a caller the registry handed a reference to,
 and that caller gives the reference back only when its call has returned. The
 drop body runs in the very step that gives the last reference back. Why the
 drop never meets a call in flight, and no call a dropped endpoint, is proved
 here; the endpoint's own machine takes both for granted.
 */
module EndpointLifetime {
  import opened Events
  import Machine = EndpointMachine
  import Theorems = EndpointTheorems
  import Registry

  /** `handle` names the endpoint; a call goes by the number of its caller. */
  datatype State = State(handle: nat, reg: Registry.State, end: Machine.State)

  /** `InRegistry` is a step of the registry by anybody; the others happen inside the endpoint. */
  datatype Step =
    | InRegistry(move: Registry.Step)
    | CallBegins(caller: nat, op: Machine.Operation)
    | PollBy(caller: nat)
    | InEndpoint(inner: Machine.Step)

  /** Whether a caller holds a reference to the endpoint that it looked up. */
  predicate Holds(st: State, c: nat) {
    c in st.reg.callers && st.reg.callers[c] == Registry.Using(st.handle)
  }

  predicate Returned(st: State, c: nat) {
    c in st.end.calls ==> st.end.calls[c].progress.Answered?
  }

  /** The guards are what the callers do; nothing is asked about the endpoint having been dropped or not. */
  predicate Enabled(st: State, step: Step) {
    match step
    case InRegistry(r) => Registry.Enabled(st.reg, r) && (r.LetGo? ==> Returned(st, r.caller))
    case CallBegins(c, _) => Holds(st, c) && c !in st.end.calls
    case PollBy(c) => Holds(st, c) && st.end.bus.queue != []
    case InEndpoint(m) => Machine.Enabled(st.end, m) && !m.Begin? && !m.Drop? && !m.Poll?
  }

  /** Whether a step of the registry gives the endpoint's last reference back. */
  predicate LastGoes(st: State, r: Registry.Step)
    requires Registry.Enabled(st.reg, r)
  {
    r.LetGo? && st.reg.callers[r.caller].handle == st.handle && st.reg.strong[st.handle] == 1
  }

  /** The step of the endpoint in a joint step, if it takes one. */
  function EndStep(st: State, step: Step): Option<Machine.Step>
    requires Enabled(st, step)
  {
    match step
    case InRegistry(r) => if LastGoes(st, r) then Some(Machine.Drop) else None
    case CallBegins(c, op) => Some(Machine.Begin(c, op))
    case PollBy(_) => Some(Machine.Poll)
    case InEndpoint(m) => Some(m)
  }

  /** A step of the endpoint that its machine does not allow would change nothing; that there is none is a theorem. */
  function Apply(st: State, step: Step): State
    requires Enabled(st, step)
  {
    var end := match EndStep(st, step)
               case None => st.end
               case Some(m) => if Machine.Enabled(st.end, m) then Machine.Apply(st.end, m) else st.end;
    st.(reg := if step.InRegistry? then Registry.Apply(st.reg, step.move) else st.reg, end := end)
  }

  predicate CanRun(st: State, steps: seq<Step>)
    decreases |steps|
  {
    steps != [] ==> Enabled(st, steps[0]) && CanRun(Apply(st, steps[0]), steps[1..])
  }

  function Run(st: State, steps: seq<Step>): State
    requires CanRun(st, steps)
    decreases |steps|
  {
    if steps == [] then st else Run(Apply(st, steps[0]), steps[1..])
  }

  /** Just registered: nobody has looked it up yet, though its tasks may have been at work. */
  ghost predicate Registered(st: State) {
    && Registry.Reachable(st.reg) && st.handle in st.reg.registry && Registry.Holders(st.reg.callers, st.handle) == {}
    && Theorems.Reachable(st.end) && st.end.calls == map[] && !st.end.dropped
  }

  /** So stands every server that was just started. */
  lemma StartedIsRegistered(reg: Registry.State, c: nat)
    requires Registry.Reachable(reg) && Registry.Enabled(reg, Registry.Register(c))
    ensures Registered(State(reg.callers[c].handle, Registry.Apply(reg, Registry.Register(c)), Machine.StartedServer()))
  {
    Registry.ReachableGoesOn(reg, Registry.Register(c));
    Theorems.FreshIsReachable(Machine.StartedServer());
    Registry.ReachableIsInv(reg);
    Registry.RegisteredIsCounted(reg, c);
    hide Registry.Reachable, Theorems.Reachable, Registry.Inv, Registry.Counted;
    NobodyHolds(reg, c);
  }

  lemma NobodyHolds(reg: Registry.State, c: nat)
    requires Registry.Inv(reg) && Registry.Enabled(reg, Registry.Register(c))
    ensures Registry.Holders(Registry.Apply(reg, Registry.Register(c)).callers, reg.callers[c].handle) == {}
  {
    assert reg.strong.Keys == Registry.Elements(reg.started);
    assert reg.callers[c].handle !in reg.strong;
  }

  ghost predicate Inv(st: State) {
    && Registry.Reachable(st.reg) && Theorems.Reachable(st.end)
    && st.handle in st.reg.started && st.handle in st.reg.drops
    && (st.end.dropped <==> st.reg.drops[st.handle] == 1)
    && forall c <- st.end.calls | !Returned(st, c) :: Holds(st, c)
  }

  lemma RegisteredIsInv(st: State)
    requires Registered(st)
    ensures Inv(st)
  {
    Registry.StartedIsKept(st.reg, st.handle);
    Registry.DropsOnceWhenLastReferenceGoes(st.reg, st.handle);
    hide Registry.Reachable, Theorems.Reachable;
  }

  /** Whoever holds a reference finds the endpoint alive. */
  lemma HoldersFindItAlive(st: State, c: nat)
    requires Inv(st) && Holds(st, c)
    ensures !st.end.dropped
  {
    Registry.CallersFindRuntime(st.reg, c);
    hide Registry.Reachable, Theorems.Reachable;
  }

  /** When the last reference goes, its holder is the only one, and every call has returned. */
  lemma LastFindsNobody(st: State, r: Registry.Step)
    requires Inv(st) && Enabled(st, InRegistry(r)) && LastGoes(st, r)
    ensures Machine.Enabled(st.end, Machine.Drop)
  {
    LastHolds(st, r.caller);
    hide Registry.Reachable, Theorems.Reachable, Registry.Holders;
    var holders := Registry.Holders(st.reg.callers, st.handle);
    forall c <- st.end.calls
      ensures Returned(st, c)
    {
      if !Returned(st, c) {
        HolderIsCounted(st, c);
        TwoMembers(holders, c, r.caller);
      }
    }
  }

  lemma HolderIsCounted(st: State, c: nat)
    requires Holds(st, c)
    ensures c in Registry.Holders(st.reg.callers, st.handle)
  {
  }

  /** Who gives the last reference back is the one holder left, and the drop body has not run. */
  lemma LastHolds(st: State, c: nat)
    requires Inv(st) && Registry.Enabled(st.reg, Registry.LetGo(c)) && LastGoes(st, Registry.LetGo(c))
    ensures c in Registry.Holders(st.reg.callers, st.handle) && |Registry.Holders(st.reg.callers, st.handle)| <= 1
    ensures !st.end.dropped
  {
    Registry.ReachableIsInv(st.reg);
    Registry.CallersFindRuntime(st.reg, c);
    assert Registry.Counted(st.reg, st.handle);
    hide Registry.Reachable, Theorems.Reachable;
  }

  lemma TwoMembers(s: set<nat>, a: nat, b: nat)
    requires a in s && b in s && a != b
    ensures |s| >= 2
  {
    assert {a, b} <= s;
    assert s == {a, b} + (s - {a, b});
  }

  /** Every joint step is a step of both machines: what the endpoint's part asks for is always met. */
  lemma EndStepIsEnabled(st: State, step: Step)
    requires Inv(st) && Enabled(st, step) && EndStep(st, step).Some?
    ensures Machine.Enabled(st.end, EndStep(st, step).value)
  {
    match step
    case InRegistry(r) => LastFindsNobody(st, r);
    case CallBegins(c, _) => HoldersFindItAlive(st, c);
    case PollBy(c) => HoldersFindItAlive(st, c);
    case InEndpoint(_) =>
  }

  lemma PartsStayReachable(st: State, step: Step)
    requires Inv(st) && Enabled(st, step)
    ensures Registry.Reachable(Apply(st, step).reg) && Theorems.Reachable(Apply(st, step).end)
  {
    hide Registry.Reachable, Theorems.Reachable, Machine.Enabled, Machine.Apply;
    if step.InRegistry? {
      Registry.ReachableGoesOn(st.reg, step.move);
    }
    if EndStep(st, step).Some? {
      EndStepIsEnabled(st, step);
      var next := Theorems.OneStepOn(st.end, EndStep(st, step).value);
    }
  }

  lemma EndDrops(st: State, step: Step)
    requires Inv(st) && Enabled(st, step)
    ensures Apply(st, step).end.dropped <==> st.end.dropped || (step.InRegistry? && LastGoes(st, step.move))
  {
    hide Inv, Machine.Enabled, Machine.Apply, Registry.Apply;
    if EndStep(st, step).Some? {
      EndStepIsEnabled(st, step);
      OnlyDropDrops(st.end, EndStep(st, step).value);
    }
  }

  /** The drop bodies the registry counts are the drops of the endpoint. */
  lemma DropsAgree(st: State, step: Step)
    requires Inv(st) && Enabled(st, step)
    ensures var next := Apply(st, step);
            && next.handle in next.reg.started && next.handle in next.reg.drops
            && (next.end.dropped <==> next.reg.drops[next.handle] == 1)
  {
    EndDrops(st, step);
    Registry.ReachableIsInv(st.reg);
    assert Registry.Counted(st.reg, st.handle);
    hide Registry.Reachable, Registry.Inv, Registry.Counted, Theorems.Reachable, EndStep;
    if step.InRegistry? {
      RegistryDrops(st, step.move);
      hide Registry.Apply, Registry.Enabled, LastGoes;
    }
  }

  lemma OnlyDropDrops(end: Machine.State, m: Machine.Step)
    requires Machine.Enabled(end, m)
    ensures Machine.Apply(end, m).dropped <==> end.dropped || m.Drop?
  {
  }

  lemma RegistryDrops(st: State, r: Registry.Step)
    requires Registry.Inv(st.reg) && Registry.Enabled(st.reg, r)
    requires st.handle in st.reg.started && Registry.Counted(st.reg, st.handle)
    ensures st.handle in Registry.Apply(st.reg, r).started && st.handle in Registry.Apply(st.reg, r).drops
    ensures Registry.Apply(st.reg, r).drops[st.handle] == if LastGoes(st, r) then 1 else st.reg.drops[st.handle]
  {
  }

  /** Who has not returned still holds its reference. */
  lemma CallsStillHold(st: State, step: Step)
    requires Inv(st) && Enabled(st, step)
    ensures forall c <- Apply(st, step).end.calls | !Returned(Apply(st, step), c) :: Holds(Apply(st, step), c)
  {
    hide Registry.Reachable, Theorems.Reachable;
    var next := Apply(st, step);
    forall c <- next.end.calls | !Returned(next, c)
      ensures Holds(next, c)
    {
      CallsChange(st, step, c);
      if step.InRegistry? {
        ReferenceStays(st, step.move, c);
      }
    }
  }

  /** A call that is open after a step was open before it, or its holder has just begun it. */
  lemma CallsChange(st: State, step: Step, c: nat)
    requires Enabled(st, step) && c in Apply(st, step).end.calls && !Returned(Apply(st, step), c)
    ensures (c in st.end.calls && !Returned(st, c)) || (step.CallBegins? && step.caller == c)
  {
  }

  /** The registry takes a reference back from nobody whose call is open. */
  lemma ReferenceStays(st: State, r: Registry.Step, c: nat)
    requires Enabled(st, InRegistry(r)) && Holds(st, c) && !Returned(st, c)
    ensures c in Registry.Apply(st.reg, r).callers && Registry.Apply(st.reg, r).callers[c] == Registry.Using(st.handle)
  {
  }

  lemma StepKeepsInv(st: State, step: Step)
    requires Inv(st) && Enabled(st, step)
    ensures Inv(Apply(st, step))
  {
    PartsStayReachable(st, step);
    DropsAgree(st, step);
    CallsStillHold(st, step);
    hide Registry.Reachable, Theorems.Reachable, Enabled, Apply;
  }

  lemma {:induction false} RunKeepsInv(st: State, steps: seq<Step>)
    requires Inv(st) && CanRun(st, steps)
    ensures Inv(Run(st, steps))
    decreases |steps|
  {
    hide Inv, Enabled, Apply;
    if steps != [] {
      StepKeepsInv(st, steps[0]);
      RunKeepsInv(Apply(st, steps[0]), steps[1..]);
    }
  }

  ghost predicate Reachable(st: State) {
    exists start: State, steps: seq<Step> :: Registered(start) && CanRun(start, steps) && st == Run(start, steps)
  }

  lemma ReachableIsInv(st: State)
    requires Reachable(st)
    ensures Inv(st)
  {
    hide Inv, Registered;
    var start: State, steps: seq<Step> :| Registered(start) && CanRun(start, steps) && st == Run(start, steps);
    RegisteredIsInv(start);
    RunKeepsInv(start, steps);
  }

  /**
   In every reachable state of the two together, each is in a state it reaches by
   itself, so everything proved of either holds; and the endpoint is dropped
   exactly when it is out of the registry and nobody holds it, with every call
   of it returned.
   */
  lemma DroppedWhenNobodyHoldsIt(st: State)
    requires Reachable(st)
    ensures Registry.Reachable(st.reg) && Theorems.Reachable(st.end)
    ensures st.end.dropped <==>
            st.handle !in st.reg.registry && Registry.Holders(st.reg.callers, st.handle) == {}
    ensures st.end.dropped ==> forall c <- st.end.calls :: Returned(st, c)
  {
    ReachableIsInv(st);
    Registry.DropsOnceWhenLastReferenceGoes(st.reg, st.handle);
    hide Registry.Reachable, Theorems.Reachable;
    forall c <- st.end.calls | st.end.dropped
      ensures Returned(st, c)
    {
      if !Returned(st, c) {
        HoldersFindItAlive(st, c);
      }
    }
  }

  /** A call or a poll by a holder finds the endpoint alive, and the drop finds every call returned. */
  lemma NobodyMeetsTheDrop(st: State, step: Step)
    requires Reachable(st) && Enabled(st, step) && EndStep(st, step).Some?
    ensures Machine.Enabled(st.end, EndStep(st, step).value)
  {
    ReachableIsInv(st);
    EndStepIsEnabled(st, step);
  }
}
