/**
 The process-wide registry: handles, reference counts, and who frees an endpoint.

 An endpoint is named by its handle. The registry owns one reference; every call
 that looked the handle up owns another until it returns; a stop owns the
 registry's until it lets go. Steps of different callers interleave freely.
 */
module Registry {
  import opened Events
  import opened Sequences

  const WIDTH: nat := 0x1_0000_0000_0000_0000

  /** The i-th value of the shared 64-bit counter, which starts at one and wraps. */
  function IdAt(i: nat): nat {
    (1 + i) % WIDTH
  }

  /** The counter names things apart exactly until it has wrapped. */
  lemma IdsDistinct(n: nat)
    ensures (forall i: nat, j: nat | i < j < n :: IdAt(i) != IdAt(j)) <==> n <= 0x1_0000_0000_0000_0000
  {
    if n <= WIDTH {
      forall i: nat, j: nat | i < j < n
        ensures IdAt(i) != IdAt(j)
      {
        assert j == WIDTH - 1 ==> IdAt(j) == 0;
      }
    } else {
      assert IdAt(0) == IdAt(WIDTH) && 0 < WIDTH < n;
    }
  }

  /** The counter counts from one, and zero is the last value it reaches before it repeats. */
  lemma IdsCount(i: nat)
    ensures i < 0xFFFF_FFFF_FFFF_FFFF ==> IdAt(i) == i + 1
    ensures IdAt(i) == 0 <==> (i + 1) % 0x1_0000_0000_0000_0000 == 0
  {
  }

  /** Numbered but not yet registered; inside a call; or stopping, with the registry's reference in hand. */
  datatype Caller = Starting(handle: nat) | Using(handle: nat) | Stopping(handle: nat)

  /**
   `given` is every id the counter handed out, `started` every handle ever
   registered, `stopped` every handle a stop answered `ok` for, and `drops` how
   often each endpoint's drop body has run.
   */
  datatype State = State(
    given: seq<nat>,
    registry: set<nat>,
    strong: map<nat, nat>,
    drops: map<nat, nat>,
    callers: map<nat, Caller>,
    started: seq<nat>,
    stopped: seq<nat>
  )

  const EMPTY := State([], {}, map[], map[], map[], [], [])

  /** `NumberSession` is the id `connect` gives its session, from the same counter. */
  datatype Step =
    | NumberSession
    | Number(caller: nat)
    | Register(caller: nat)
    | Lookup(caller: nat, handle: nat)
    | Remove(caller: nat, handle: nat)
    | LetGo(caller: nat)

  predicate Enabled(st: State, step: Step) {
    match step
    case NumberSession => |st.given| < WIDTH
    case Number(c) => |st.given| < WIDTH && c !in st.callers
    case Register(c) => c in st.callers && st.callers[c].Starting?
    case Lookup(c, _) => c !in st.callers
    case Remove(c, _) => c !in st.callers
    case LetGo(c) =>
      && c in st.callers && !st.callers[c].Starting?
      && st.callers[c].handle in st.strong && st.strong[st.callers[c].handle] > 0
      && st.callers[c].handle in st.drops
  }

  /** Giving a reference back; the last one runs the drop body. */
  function Release(st: State, h: nat): State
    requires h in st.strong && st.strong[h] > 0 && h in st.drops
  {
    st.(strong := st.strong[h := st.strong[h] - 1],
        drops := if st.strong[h] == 1 then st.drops[h := st.drops[h] + 1] else st.drops)
  }

  function Apply(st: State, step: Step): State
    requires Enabled(st, step)
  {
    match step
    case NumberSession => st.(given := st.given + [IdAt(|st.given|)])
    case Number(c) =>
      var id := IdAt(|st.given|);
      st.(given := st.given + [id], callers := st.callers[c := Starting(id)])
    case Register(c) =>
      var h := st.callers[c].handle;
      st.(registry := st.registry + {h}, strong := st.strong[h := 1], drops := st.drops[h := 0],
          callers := st.callers - {c}, started := st.started + [h])
    case Lookup(c, h) =>
      if h in st.registry && h in st.strong then
        st.(strong := st.strong[h := st.strong[h] + 1], callers := st.callers[c := Using(h)])
      else st
    case Remove(c, h) =>
      if h in st.registry then
        st.(registry := st.registry - {h}, callers := st.callers[c := Stopping(h)], stopped := st.stopped + [h])
      else st
    case LetGo(c) => Release(st.(callers := st.callers - {c}), st.callers[c].handle)
  }

  predicate CanRun(st: State, steps: seq<Step>)
    decreases |steps|
  {
    steps != [] ==> Enabled(st, steps[0]) && CanRun(Apply(st, steps[0]), steps[1..])
  }

  function Run(st: State, steps: seq<Step>): State
    requires CanRun(st, steps)
    decreases |steps|
  {
    if steps == [] then st else Run(Apply(st, steps[0]), steps[1..])
  }

  // --- the invariant ----------------------------------------------------------------

  function Elements(s: seq<nat>): set<nat> {
    set x <- s
  }

  /** The callers that hold a reference to an endpoint. */
  function Holders(callers: map<nat, Caller>, h: nat): set<nat> {
    set c <- callers | !callers[c].Starting? && callers[c].handle == h
  }

  ghost predicate IdsKept(st: State) {
    && |st.given| <= WIDTH
    && (forall i: nat | i < |st.given| :: st.given[i] == IdAt(i))
    && (forall c <- st.callers | st.callers[c].Starting? ::
          st.callers[c].handle in st.given && st.callers[c].handle !in st.started)
    && (forall c, d | c in st.callers && d in st.callers && c != d
          && st.callers[c].Starting? && st.callers[d].Starting? ::
          st.callers[c].handle != st.callers[d].handle)
    && (forall h <- st.started :: h in st.given)
  }

  ghost predicate HistoryKept(st: State) {
    && NoRepeat(st.started) && NoRepeat(st.stopped)
    && Elements(st.stopped) <= Elements(st.started)
    && st.registry == Elements(st.started) - Elements(st.stopped)
  }

  ghost predicate KeysKept(st: State) {
    && st.strong.Keys == Elements(st.started) && st.drops.Keys == Elements(st.started)
    && (forall c <- st.callers | !st.callers[c].Starting? :: st.callers[c].handle in st.strong)
  }

  ghost predicate CountsKept(st: State) {
    forall h <- st.strong :: Counted(st, h)
  }

  /** One reference for each holder and one for the registry; the drop body runs when there are none. */
  ghost predicate Counted(st: State, h: nat) {
    && h in st.strong && h in st.drops
    && st.strong[h] == |Holders(st.callers, h)| + (if h in st.registry then 1 else 0)
    && st.drops[h] == if st.strong[h] == 0 then 1 else 0
  }

  ghost predicate Inv(st: State) {
    IdsKept(st) && HistoryKept(st) && KeysKept(st) && CountsKept(st)
  }

  lemma NextIdIsNew(st: State)
    requires IdsKept(st) && |st.given| < WIDTH
    ensures IdAt(|st.given|) !in st.given
  {
    IdsDistinct(|st.given| + 1);
  }

  lemma StepKeepsIds(st: State, step: Step)
    requires IdsKept(st) && Enabled(st, step)
    ensures IdsKept(Apply(st, step))
  {
    if step.Number? || step.NumberSession? {
      NextIdIsNew(st);
    }
  }

  lemma StepKeepsHistory(st: State, step: Step)
    requires IdsKept(st) && HistoryKept(st) && Enabled(st, step)
    ensures HistoryKept(Apply(st, step))
  {
    hide IdAt;
    var st' := Apply(st, step);
    if step.Register? {
      assert Elements(st'.started) == Elements(st.started) + {st.callers[step.caller].handle};
    } else if step.Remove? && step.handle in st.registry {
      assert Elements(st'.stopped) == Elements(st.stopped) + {step.handle};
    }
  }

  lemma HoldersChange(callers: map<nat, Caller>, c: nat, who: Caller, h: nat)
    ensures c !in callers ==>
              Holders(callers[c := who], h) ==
                if !who.Starting? && who.handle == h then Holders(callers, h) + {c} else Holders(callers, h)
    ensures c !in callers ==> c !in Holders(callers, h)
    ensures Holders(callers - {c}, h) == Holders(callers, h) - {c}
    ensures c in callers ==> (c in Holders(callers, h) <==> !callers[c].Starting? && callers[c].handle == h)
  {
  }

  lemma StepKeepsCounted(st: State, step: Step, h: nat)
    requires Enabled(st, step) && Counted(st, h)
    requires step.Register? ==> st.callers[step.caller].handle != h
    ensures Counted(Apply(st, step), h)
  {
    hide IdAt, Holders;
    var st' := Apply(st, step);
    if !step.NumberSession? {
      var who := if step.caller in st'.callers then st'.callers[step.caller] else Starting(0);
      HoldersChange(st.callers, step.caller, who, h);
    }
  }

  lemma RegisteredIsCounted(st: State, c: nat)
    requires IdsKept(st) && KeysKept(st) && Enabled(st, Register(c))
    ensures Counted(Apply(st, Register(c)), st.callers[c].handle)
  {
    var h := st.callers[c].handle;
    HoldersChange(st.callers, c, Starting(0), h);
    assert Holders(st.callers, h) == {};
  }

  lemma StepKeepsKeys(st: State, step: Step)
    requires HistoryKept(st) && KeysKept(st) && Enabled(st, step)
    ensures KeysKept(Apply(st, step))
  {
    hide IdAt, NoRepeat;
    var st' := Apply(st, step);
    if step.Register? {
      assert Elements(st'.started) == Elements(st.started) + {st.callers[step.caller].handle};
    }
  }

  lemma StepKeepsCounts(st: State, step: Step)
    requires IdsKept(st) && KeysKept(st) && CountsKept(st) && Enabled(st, step)
    ensures CountsKept(Apply(st, step))
  {
    var st' := Apply(st, step);
    assert st'.strong.Keys == st.strong.Keys + if step.Register? then {st.callers[step.caller].handle} else {};
    hide IdAt, Counted, IdsKept, KeysKept, Apply;
    forall h <- st'.strong
      ensures Counted(st', h)
    {
      if step.Register? && st.callers[step.caller].handle == h {
        RegisteredIsCounted(st, step.caller);
      } else {
        StepKeepsCounted(st, step, h);
      }
    }
  }

  lemma {:induction false} RunKeepsInv(st: State, steps: seq<Step>)
    requires Inv(st) && CanRun(st, steps)
    ensures Inv(Run(st, steps))
    decreases |steps|
  {
    hide IdsKept, HistoryKept, KeysKept, CountsKept, Enabled, Apply;
    if steps != [] {
      StepKeepsIds(st, steps[0]);
      StepKeepsHistory(st, steps[0]);
      StepKeepsKeys(st, steps[0]);
      StepKeepsCounts(st, steps[0]);
      RunKeepsInv(Apply(st, steps[0]), steps[1..]);
    }
  }

  ghost predicate Reachable(st: State) {
    exists steps: seq<Step> :: CanRun(EMPTY, steps) && st == Run(EMPTY, steps)
  }

  lemma ReachableIsInv(st: State)
    requires Reachable(st)
    ensures Inv(st)
  {
    var steps: seq<Step> :| CanRun(EMPTY, steps) && st == Run(EMPTY, steps);
    RunKeepsInv(EMPTY, steps);
  }

  // --- what every run promises ----------------------------------------------------------

  /** Each endpoint's drop body has run once if nobody holds it any more, and not at all before. */
  lemma DropsOnceWhenLastReferenceGoes(st: State, h: nat)
    requires Reachable(st) && h in st.started
    ensures h in st.drops && st.drops[h] <= 1
    ensures st.drops[h] == 1 <==> h !in st.registry && Holders(st.callers, h) == {}
  {
    ReachableIsInv(st);
    assert h in Elements(st.started) && Counted(st, h);
  }

  /** Whoever is inside a call finds the runtime still there, so `notRunning` never comes from inside one. */
  lemma CallersFindRuntime(st: State, c: nat)
    requires Reachable(st) && c in st.callers && !st.callers[c].Starting?
    ensures st.callers[c].handle in st.drops && st.drops[st.callers[c].handle] == 0
    ensures Enabled(st, LetGo(c))
  {
    ReachableIsInv(st);
    var h := st.callers[c].handle;
    assert Counted(st, h) && c in Holders(st.callers, h);
    DropsOnceWhenLastReferenceGoes(st, h);
  }

  lemma SizeOfElements(s: seq<nat>)
    requires NoRepeat(s)
    ensures |Elements(s)| == |s|
  {
    if s != [] {
      var n := |s| - 1;
      SizeOfElements(s[..n]);
      assert Elements(s) == Elements(s[..n]) + {s[n]};
    }
  }

  /** No id is given twice, whether it names an endpoint or a client's session. */
  lemma IdsNeverRepeat(st: State)
    requires Reachable(st)
    ensures NoRepeat(st.given) && Elements(st.started) <= Elements(st.given)
  {
    ReachableIsInv(st);
    IdsDistinct(|st.given|);
  }

  /** Nothing is registered or stopped twice, and what lives is what was started and not stopped. */
  lemma BooksBalance(st: State)
    requires Reachable(st)
    ensures NoRepeat(st.started) && NoRepeat(st.stopped)
    ensures |st.registry| == |st.started| - |st.stopped|
  {
    assert HistoryKept(st) by {
      ReachableIsInv(st);
    }
    SizeOfElements(st.started);
    SizeOfElements(st.stopped);
    assert Elements(st.started) == st.registry + Elements(st.stopped);
  }

  lemma {:induction false} StoppedStays(st: State, steps: seq<Step>, h: nat)
    requires CanRun(st, steps) && h in st.stopped
    ensures h in Run(st, steps).stopped
    decreases |steps|
  {
    if steps != [] {
      StoppedStays(Apply(st, steps[0]), steps[1..], h);
    }
  }

  lemma {:induction false} OneStepMore(st: State, steps: seq<Step>, step: Step)
    requires CanRun(st, steps) && Enabled(Run(st, steps), step)
    ensures CanRun(st, steps + [step]) && Run(st, steps + [step]) == Apply(Run(st, steps), step)
    decreases |steps|
  {
    hide Apply, Enabled;
    if steps == [] {
      var next := Apply(st, step);
      assert [] + [step] == [step] && [step][1..] == [] && CanRun(next, []) && Run(next, []) == next;
    } else {
      OneStepMore(Apply(st, steps[0]), steps[1..], step);
      assert (steps + [step])[1..] == steps[1..] + [step];
    }
  }

  lemma ReachableGoesOn(st: State, step: Step)
    requires Reachable(st) && Enabled(st, step)
    ensures Reachable(Apply(st, step))
  {
    hide Apply, Enabled;
    var steps: seq<Step> :| CanRun(EMPTY, steps) && st == Run(EMPTY, steps);
    OneStepMore(EMPTY, steps, step);
  }

  lemma {:induction false} RunStaysReachable(st: State, steps: seq<Step>)
    requires Reachable(st) && CanRun(st, steps)
    ensures Reachable(Run(st, steps))
    decreases |steps|
  {
    hide Apply, Enabled, Reachable;
    if steps != [] {
      ReachableGoesOn(st, steps[0]);
      RunStaysReachable(Apply(st, steps[0]), steps[1..]);
    }
  }

  /** After its one `ok` stop a handle names nothing, for ever: looking it up and stopping it change nothing. */
  lemma StoppedForEver(st: State, steps: seq<Step>, h: nat, c: nat)
    requires Reachable(st) && h in st.stopped && CanRun(st, steps) && c !in Run(st, steps).callers
    ensures h !in Run(st, steps).registry
    ensures Apply(Run(st, steps), Lookup(c, h)) == Run(st, steps)
    ensures Apply(Run(st, steps), Remove(c, h)) == Run(st, steps)
  {
    RunStaysReachable(st, steps);
    ReachableIsInv(Run(st, steps));
    StoppedStays(st, steps, h);
    assert h in Elements(Run(st, steps).stopped);
  }

  // --- the registry as it is kept -------------------------------------------------------

  /** The process-wide tables; `running` says whether an endpoint's runtime is still there. */
  class Library {
    var next: nat
    var registry: set<nat>
    var strong: map<nat, nat>
    var running: map<nat, bool>
    ghost var st: State

    ghost predicate Valid()
      reads this
    {
      && Reachable(st)
      && next == IdAt(|st.given|)
      && registry == st.registry
      && strong == st.strong
      && running.Keys == st.drops.Keys
      && (forall h <- running :: running[h] <==> st.drops[h] == 0)
    }

    constructor ()
      ensures Valid() && st == EMPTY && next == 1 && registry == {}
    {
      next, registry, strong, running := 1, {}, map[], map[];
      st := EMPTY;
      new;
      assert CanRun(EMPTY, []) && Run(EMPTY, []) == EMPTY;
    }

    /** `fetch_add`: the current value goes out, the next one is stored, modulo the width. */
    method NextHandle(ghost c: nat) returns (id: nat)
      requires Valid() && Enabled(st, Number(c))
      modifies this`next, this`st
      ensures Valid() && st == Apply(old(st), Number(c)) && id == st.callers[c].handle && id !in old(st.given)
      ensures id == old(next) && next == (old(next) + 1) % 0x1_0000_0000_0000_0000
    {
      hide Reachable;
      assert IdAt(|st.given|) !in st.given by {
        ReachableIsInv(st);
        NextIdIsNew(st);
      }
      id := next;
      ReachableGoesOn(st, Number(c));
      next := (next + 1) % WIDTH;
      st := Apply(st, Number(c));
    }

    /** Puts a new endpoint in, with the registry's reference. */
    method Insert(ghost c: nat, h: nat)
      requires Valid() && Enabled(st, Register(c)) && st.callers[c].handle == h
      modifies this`registry, this`strong, this`running, this`st
      ensures Valid() && st == Apply(old(st), Register(c)) && running == old(running)[h := true]
      ensures registry == old(registry) + {h} && strong == old(strong)[h := 1]
    {
      hide Reachable;
      ReachableGoesOn(st, Register(c));
      registry, strong, running := registry + {h}, strong[h := 1], running[h := true];
      st := Apply(st, Register(c));
    }

    /** Clones the reference a handle names, or answers that it names nothing. */
    method Lookup(ghost c: nat, h: nat) returns (found: bool)
      requires Valid() && c !in st.callers
      modifies this`strong, this`st
      ensures Valid() && st == Apply(old(st), Step.Lookup(c, h)) && (found <==> h in registry)
      ensures found ==> h in running && running[h]
      ensures found ==> h in old(strong) && strong == old(strong)[h := old(strong)[h] + 1]
      ensures !found ==> strong == old(strong) && st == old(st)
    {
      assert h in registry ==> Counted(st, h) by {
        ReachableIsInv(st);
        assert h in registry ==> h in Elements(st.started);
      }
      hide Reachable;
      ReachableGoesOn(st, Step.Lookup(c, h));
      found := h in registry;
      if found {
        strong := strong[h := strong[h] + 1];
      }
      st := Apply(st, Step.Lookup(c, h));
    }

    /** Gives a reference back; the last one runs the drop body, which takes the runtime. */
    method LetGo(ghost c: nat, h: nat)
      requires Valid() && c in st.callers && !st.callers[c].Starting? && st.callers[c].handle == h
      modifies this`strong, this`running, this`st
      ensures Valid() && Enabled(old(st), Step.LetGo(c)) && st == Apply(old(st), Step.LetGo(c))
      ensures running == if old(strong)[h] == 1 then old(running)[h := false] else old(running)
      ensures h in old(strong) && strong == old(strong)[h := old(strong)[h] - 1]
    {
      CallersFindRuntime(st, c);
      hide Reachable;
      ReachableGoesOn(st, Step.LetGo(c));
      if strong[h] == 1 {
        running := running[h := false];
      }
      strong := strong[h := strong[h] - 1];
      st := Apply(st, Step.LetGo(c));
    }

    /** `remove`: out of the registry, then let go; with nobody else inside, the runtime is gone on return. */
    method Stop(ghost c: nat, h: nat) returns (status: Status)
      requires Valid() && c !in st.callers
      modifies this`registry, this`strong, this`running, this`st
      ensures Valid() && st.callers == old(st.callers)
      ensures status == (if h in old(registry) then Ok else NotRunning) && registry == old(registry) - {h}
      ensures status == Ok ==> st.stopped == old(st.stopped) + [h]
      ensures status == NotRunning ==> st == old(st)
      ensures status == Ok && Holders(st.callers, h) == {} ==> h in running && !running[h]
    {
      if h !in registry {
        return NotRunning;
      }
      ReachableGoesOn(st, Step.Remove(c, h));
      registry := registry - {h};
      st := Apply(st, Step.Remove(c, h));
      LetGo(c, h);
      assert st.callers == old(st.callers);
      assert h in st.started by {
        StartedIsKept(old(st), h);
      }
      DropsOnceWhenLastReferenceGoes(st, h);
      status := Ok;
    }
  }

  lemma StartedIsKept(st: State, h: nat)
    requires Reachable(st) && h in st.registry
    ensures h in st.started
  {
    ReachableIsInv(st);
    assert h in Elements(st.started);
  }
}
