/**
 The writers of one bidirectional stream: any number of `stream_send` and
 `stream_close` calls, the per-stream lock, and a network that takes a write in
 pieces and may break at any point.

 `order` is the history of who got the lock, first to last. QUIC is an ordered
 byte stream per direction (RFC 9000, section 2.2); once it is broken, or
 finished, it takes no more bytes.
 */
module StreamWrites {
  import opened Events
  import opened Sequences
  import opened Utf8

  /** Waiting for the lock, holding it with `written` bytes gone out, done, or failed after `written` bytes. */
  datatype Progress = Waiting | Held(written: nat) | Done | Failed(written: nat)

  datatype Writer =
    | Write(text: string, at: Progress)
    | Close(at: Progress)

  datatype State = State(
    listed: bool,
    writers: map<nat, Writer>,
    lock: Option<nat>,
    order: seq<nat>,
    wire: seq<byte>,
    finished: bool,
    broken: bool
  )

  const ENTERED := State(true, map[], None, [], [], false, false)

  /** `FinishUnanswered` is a finish whose end went out and whose call still failed. */
  datatype Step =
    | Clone(caller: nat, text: string)
    | TakeOut(caller: nat)
    | Sweep
    | Acquire(caller: nat)
    | Chunk(caller: nat, size: nat)
    | Wrote(caller: nat)
    | WriteFails(caller: nat)
    | Finish(caller: nat)
    | FinishFails(caller: nat)
    | FinishUnanswered(caller: nat)
    | Break

  function Payload(w: Writer): seq<byte> {
    if w.Write? then Encode(w.text) else []
  }

  predicate Holds(st: State, c: nat) {
    st.lock == Some(c) && c in st.writers && st.writers[c].at.Held?
  }

  predicate Dead(st: State) {
    st.broken || st.finished
  }

  predicate Enabled(st: State, step: Step) {
    match step
    case Clone(c, _) => st.listed && c !in st.writers
    case TakeOut(c) => st.listed && c !in st.writers
    case Sweep => st.listed
    case Acquire(c) => st.lock == None && c in st.writers && st.writers[c].at == Waiting
    case Chunk(c, n) =>
      && Holds(st, c) && st.writers[c].Write? && !Dead(st)
      && 0 < n <= |Payload(st.writers[c])| - st.writers[c].at.written
    case Wrote(c) => Holds(st, c) && st.writers[c].Write? && st.writers[c].at.written == |Payload(st.writers[c])|
    case WriteFails(c) =>
      Holds(st, c) && st.writers[c].Write? && Dead(st) && st.writers[c].at.written < |Payload(st.writers[c])|
    case Finish(c) => Holds(st, c) && st.writers[c].Close? && !Dead(st)
    case FinishFails(c) => Holds(st, c) && st.writers[c].Close? && Dead(st)
    case FinishUnanswered(c) => Holds(st, c) && st.writers[c].Close? && !Dead(st)
    case Break => true
  }

  function Now(st: State, c: nat, at: Progress): map<nat, Writer>
    requires c in st.writers
  {
    st.writers[c := st.writers[c].(at := at)]
  }

  function Apply(st: State, step: Step): State
    requires Enabled(st, step)
  {
    match step
    case Clone(c, text) => st.(writers := st.writers[c := Write(text, Waiting)])
    case TakeOut(c) => st.(listed := false, writers := st.writers[c := Close(Waiting)])
    case Sweep => st.(listed := false)
    case Acquire(c) => st.(lock := Some(c), order := st.order + [c], writers := Now(st, c, Held(0)))
    case Chunk(c, n) =>
      var w := st.writers[c].at.written;
      st.(wire := st.wire + Payload(st.writers[c])[w..w + n], writers := Now(st, c, Held(w + n)))
    case Wrote(c) => st.(lock := None, writers := Now(st, c, Done))
    case WriteFails(c) => st.(lock := None, writers := Now(st, c, Failed(st.writers[c].at.written)))
    case Finish(c) => st.(lock := None, writers := Now(st, c, Done), finished := true)
    case FinishFails(c) => st.(lock := None, writers := Now(st, c, Failed(0)))
    case FinishUnanswered(c) => st.(lock := None, writers := Now(st, c, Failed(0)), finished := true)
    case Break => st.(broken := true)
  }

  predicate CanRun(st: State, steps: seq<Step>)
    decreases |steps|
  {
    steps != [] ==> Enabled(st, steps[0]) && CanRun(Apply(st, steps[0]), steps[1..])
  }

  function Run(st: State, steps: seq<Step>): State
    requires CanRun(st, steps)
    decreases |steps|
  {
    if steps == [] then st else Run(Apply(st, steps[0]), steps[1..])
  }

  // --- what is on the wire -------------------------------------------------------------

  /** What one writer has put on the wire so far. */
  function Part(w: Writer): seq<byte> {
    match w.at
    case Waiting => []
    case Held(n) => if n <= |Payload(w)| then Payload(w)[..n] else []
    case Done => Payload(w)
    case Failed(n) => if n <= |Payload(w)| then Payload(w)[..n] else []
  }

  /** The parts of all writers, in lock order. */
  function Parts(writers: map<nat, Writer>, order: seq<nat>): seq<byte> {
    if order == [] then [] else
      var c := order[|order| - 1];
      Parts(writers, order[..|order| - 1]) + if c in writers then Part(writers[c]) else []
  }

  /** The texts of the sends that were answered `ok`, in lock order. */
  function Delivered(writers: map<nat, Writer>, order: seq<nat>): string {
    if order == [] then [] else
      var c := order[|order| - 1];
      Delivered(writers, order[..|order| - 1]) +
      if c in writers && writers[c].Write? && writers[c].at == Done then writers[c].text else []
  }

  ghost predicate OrderKept(st: State) {
    && NoRepeat(st.order)
    && (forall c <- st.order :: c in st.writers && st.writers[c].at != Waiting)
    && (forall c <- st.writers | st.writers[c].at != Waiting :: c in st.order)
    && (forall c <- st.writers | st.writers[c].at.Held? :: st.lock == Some(c))
    && (st.lock.Some? ==>
          st.order != [] && st.order[|st.order| - 1] == st.lock.value && Holds(st, st.lock.value))
  }

  ghost predicate WireKept(st: State) {
    && st.wire == Parts(st.writers, st.order)
    && (forall c <- st.writers :: PartFits(st.writers[c]))
  }

  predicate PartFits(w: Writer) {
    && (w.at.Held? || w.at.Failed? ==> w.at.written <= |Payload(w)|)
    && (w.Write? && w.at.Failed? ==> w.at.written < |Payload(w)|)
  }

  ghost predicate EndKept(st: State) {
    && (forall c <- st.writers | st.writers[c].at.Failed? :: Dead(st))
    && (st.finished ==> forall c <- st.writers | st.writers[c].at.Held? || st.writers[c].at.Failed? ::
          st.writers[c].at.written == 0)
    && (forall c, d | c in st.writers && d in st.writers && st.writers[c].Close? && st.writers[d].Close? :: c == d)
    && (forall c <- st.writers | st.writers[c].Close? :: !st.listed)
    && (forall c <- st.writers | st.writers[c] == Close(Done) :: st.finished)
  }

  /** If the writer at `i` has failed, the one at `j` has added nothing. */
  predicate QuietAt(st: State, i: nat, j: nat) {
    (&& i < j < |st.order| && st.order[i] in st.writers && st.order[j] in st.writers
     && st.writers[st.order[i]].at.Failed?) ==>
      Part(st.writers[st.order[j]]) == []
  }

  /** Behind a failed write nobody adds a byte. */
  ghost predicate TailKept(st: State) {
    forall i: nat, j: nat :: QuietAt(st, i, j)
  }

  ghost predicate Inv(st: State) {
    OrderKept(st) && WireKept(st) && EndKept(st) && TailKept(st)
  }

  lemma {:induction false} PartsUnchanged(a: map<nat, Writer>, b: map<nat, Writer>, order: seq<nat>)
    requires forall c <- order :: c in a && c in b && Part(a[c]) == Part(b[c])
    ensures Parts(a, order) == Parts(b, order)
  {
    if order != [] {
      PartsUnchanged(a, b, order[..|order| - 1]);
    }
  }

  lemma StepKeepsOrder(st: State, step: Step)
    requires OrderKept(st) && Enabled(st, step)
    ensures OrderKept(Apply(st, step))
  {
    hide Encode, Payload;
    match step
    case Sweep =>
    case Break =>
    case Acquire(c) => LockPassesOn(st, c);
    case Clone(c, _) => hide NoRepeat;
    case TakeOut(c) => hide NoRepeat;
    case _ =>
      var st' := Apply(st, step);
      assert Holds(st, step.caller) && st'.order == st.order;
      hide OrderKept, Enabled, Apply;
      HolderKeepsOrder(st, st', step.caller);
  }

  /** Whoever holds the lock may go on holding it, or end and give it back. */
  lemma HolderKeepsOrder(st: State, st': State, c: nat)
    requires OrderKept(st) && Holds(st, c) && st'.order == st.order
    requires st'.writers.Keys == st.writers.Keys && forall d <- st.writers | d != c :: st'.writers[d] == st.writers[d]
    requires
      || (st'.lock == st.lock && st'.writers[c].at.Held?)
      || (st'.lock == None && (st'.writers[c].at.Done? || st'.writers[c].at.Failed?))
    ensures OrderKept(st')
  {
    hide NoRepeat;
  }

  lemma LockPassesOn(st: State, c: nat)
    requires OrderKept(st) && Enabled(st, Acquire(c))
    ensures OrderKept(Apply(st, Acquire(c)))
  {
    hide Payload;
    var st' := Apply(st, Acquire(c));
    assert c !in st.order && st'.order == st.order + [c];
    assert NoRepeat(st'.order);
  }

  lemma StepKeepsEnd(st: State, step: Step)
    requires OrderKept(st) && EndKept(st) && Enabled(st, step)
    ensures EndKept(Apply(st, step))
  {
    hide Encode, Payload, NoRepeat;
  }

  /** The one writer a step moves, if any. */
  function Mover(step: Step): Option<nat> {
    match step
    case Sweep => None
    case Break => None
    case Clone(c, _) => Some(c)
    case TakeOut(c) => Some(c)
    case Acquire(c) => Some(c)
    case Chunk(c, _) => Some(c)
    case Wrote(c) => Some(c)
    case WriteFails(c) => Some(c)
    case Finish(c) => Some(c)
    case FinishFails(c) => Some(c)
    case FinishUnanswered(c) => Some(c)
  }

  /** Only a chunk adds bytes, and it adds them to the part of the writer that holds the lock. */
  lemma StepMovesOnePart(st: State, step: Step)
    requires WireKept(st) && Enabled(st, step)
    ensures var st' := Apply(st, step);
            && (forall c <- st.writers ::
                  c in st'.writers && (Mover(step) == Some(c) || st'.writers[c] == st.writers[c]))
            && (forall c <- st.writers | !step.Chunk? :: Part(st'.writers[c]) == Part(st.writers[c]))
            && (step.Chunk? ==>
                  var w := st.writers[step.caller];
                  && st'.wire == st.wire + Payload(w)[w.at.written..w.at.written + step.size]
                  && Part(st'.writers[step.caller]) ==
                     Part(w) + Payload(w)[w.at.written..w.at.written + step.size])
            && (!step.Chunk? ==> st'.wire == st.wire)
            && (forall c <- st'.writers :: PartFits(st'.writers[c]))
  {
    hide Encode;
    PartsStillFit(st, step);
    if step.Chunk? {
      var w := st.writers[step.caller];
      ChunkMovesPart(w, step.size);
      hide PartFits, Part, Payload;
    } else {
      hide PartFits;
    }
  }

  lemma ChunkMovesPart(w: Writer, n: nat)
    requires w.at.Held? && w.at.written + n <= |Payload(w)|
    ensures Part(w.(at := Held(w.at.written + n))) == Part(w) + Payload(w)[w.at.written..w.at.written + n]
  {
    hide Encode;
  }

  lemma PartsStillFit(st: State, step: Step)
    requires WireKept(st) && Enabled(st, step)
    ensures forall c <- Apply(st, step).writers :: PartFits(Apply(st, step).writers[c])
  {
    hide Encode, Part, Parts;
  }

  /** The last writer's part is the last piece of the wire. */
  lemma PartsEnd(a: map<nat, Writer>, b: map<nat, Writer>, order: seq<nat>, more: seq<byte>)
    requires order != [] && NoRepeat(order)
    requires forall c <- order :: c in a && c in b && (c != order[|order| - 1] ==> a[c] == b[c])
    requires Part(b[order[|order| - 1]]) == Part(a[order[|order| - 1]]) + more
    ensures Parts(b, order) == Parts(a, order) + more
  {
    hide Part;
    var n := |order| - 1;
    forall c <- order[..n]
      ensures c in a && c in b && a[c] == b[c]
    {
      assert c in order && c != order[n];
    }
    PartsUnchanged(a, b, order[..n]);
    Utf8.Associative(Parts(a, order[..n]), Part(a[order[n]]), more);
  }

  lemma ChunkKeepsWire(st: State, step: Step)
    requires OrderKept(st) && WireKept(st) && Enabled(st, step) && step.Chunk?
    ensures WireKept(Apply(st, step))
  {
    hide Encode, Part, PartFits, Payload, Parts;
    StepMovesOnePart(st, step);
    var st' := Apply(st, step);
    var w := st.writers[step.caller];
    var more := Payload(w)[w.at.written..w.at.written + step.size];
    assert st'.order == st.order && st.order[|st.order| - 1] == step.caller;
    hide Apply, Enabled;
    PartsEnd(st.writers, st'.writers, st.order, more);
  }

  lemma StepKeepsWire(st: State, step: Step)
    requires OrderKept(st) && WireKept(st) && Enabled(st, step)
    ensures WireKept(Apply(st, step))
  {
    if step.Chunk? {
      ChunkKeepsWire(st, step);
    } else {
      StepMovesOnePart(st, step);
      var st' := Apply(st, step);
      hide Encode, Part, PartFits, Payload, NoRepeat;
      PartsUnchanged(st.writers, st'.writers, st.order);
      if step.Acquire? {
        WaitingHasNoPart(st.writers[step.caller]);
        hide Enabled, Apply;
        NextInLine(st'.writers, st.order, step.caller);
      } else {
        hide Enabled;
        assert st'.order == st.order;
      }
    }
  }

  lemma NextInLine(writers: map<nat, Writer>, order: seq<nat>, c: nat)
    requires c in writers && Part(writers[c]) == []
    ensures Parts(writers, order + [c]) == Parts(writers, order)
  {
    hide Part;
    assert (order + [c])[..|order|] == order;
    assert Parts(writers, order) + [] == Parts(writers, order);
  }

  lemma WaitingHasNoPart(w: Writer)
    requires w.at == Waiting
    ensures Part(w) == []
  {
  }

  lemma StepKeepsTail(st: State, step: Step)
    requires Inv(st) && Enabled(st, step)
    ensures TailKept(Apply(st, step))
  {
    hide Enabled, Apply, QuietAt;
    forall i: nat, j: nat
      ensures QuietAt(Apply(st, step), i, j)
    {
      if step.Chunk? {
        ChunkMeansNoFailure(st, step, i, j);
      } else {
        StepKeepsQuiet(st, step, i, j);
      }
    }
  }

  /** Who can still write knows of no failure. */
  lemma ChunkMeansNoFailure(st: State, step: Step, i: nat, j: nat)
    requires EndKept(st) && Enabled(st, step) && step.Chunk?
    ensures QuietAt(Apply(st, step), i, j)
  {
    hide Part, Payload;
  }

  /** A writer that fails had the lock last; whoever comes later has added nothing yet. */
  lemma StepKeepsQuiet(st: State, step: Step, i: nat, j: nat)
    requires OrderKept(st) && WireKept(st) && QuietAt(st, i, j) && Enabled(st, step) && !step.Chunk?
    ensures QuietAt(Apply(st, step), i, j)
  {
    StepMovesOnePart(st, step);
    hide Part, PartFits, Payload, Parts;
    var st' := Apply(st, step);
    if i < j < |st'.order| {
      if j == |st.order| {
        WaitingHasNoPart(st.writers[step.caller]);
      } else {
        var c := st.order[i];
        assert c in st.order && st.order[j] in st.order;
        hide Apply;
        if st'.writers[c].at.Failed? && !st.writers[c].at.Failed? {
          assert false;
        }
      }
    }
  }

  lemma {:induction false} RunKeepsInv(st: State, steps: seq<Step>)
    requires Inv(st) && CanRun(st, steps)
    ensures Inv(Run(st, steps))
    decreases |steps|
  {
    hide OrderKept, WireKept, EndKept, TailKept, Enabled, Apply;
    if steps != [] {
      StepKeepsOrder(st, steps[0]);
      StepKeepsWire(st, steps[0]);
      StepKeepsEnd(st, steps[0]);
      StepKeepsTail(st, steps[0]);
      RunKeepsInv(Apply(st, steps[0]), steps[1..]);
    }
  }

  ghost predicate Reachable(st: State) {
    exists steps: seq<Step> :: CanRun(ENTERED, steps) && st == Run(ENTERED, steps)
  }

  lemma ReachableIsInv(st: State)
    requires Reachable(st)
    ensures Inv(st)
  {
    var steps: seq<Step> :| CanRun(ENTERED, steps) && st == Run(ENTERED, steps);
    RunKeepsInv(ENTERED, steps);
  }

  // --- what every run promises ---------------------------------------------------------

  /** `tail` is what a send that is not answered `ok` has put out. */
  ghost predicate IsPartial(writers: map<nat, Writer>, order: seq<nat>, tail: seq<byte>) {
    exists c <- order ::
      c in writers && writers[c].Write? && writers[c].at != Done && tail <= Payload(writers[c])
  }

  ghost predicate TailOnly(writers: map<nat, Writer>, order: seq<nat>) {
    && (forall i, j | 0 <= i < j < |order| && order[i] in writers && order[j] in writers
          && !writers[order[i]].at.Done? :: Part(writers[order[j]]) == [])
  }

  lemma {:induction false} WholeThenTail(writers: map<nat, Writer>, order: seq<nat>) returns (tail: seq<byte>)
    requires TailOnly(writers, order)
    requires forall c <- order :: c in writers && PartFits(writers[c]) && writers[c].at != Waiting
    ensures Parts(writers, order) == Encode(Delivered(writers, order)) + tail
    ensures tail == [] || IsPartial(writers, order, tail)
  {
    if order == [] {
      assert Encode([]) == [];
      tail := [];
    } else {
      var n := |order| - 1;
      var init, c := order[..n], order[n];
      tail := WholeThenTail(writers, init);
      if tail != [] {
        TailStops(writers, order, tail);
      }
      tail := OneMoreWriter(writers, order, tail);
    }
  }

  lemma OneMoreWriter(writers: map<nat, Writer>, order: seq<nat>, before: seq<byte>) returns (tail: seq<byte>)
    requires order != [] && order[|order| - 1] in writers && writers[order[|order| - 1]].at != Waiting
    requires Parts(writers, order[..|order| - 1]) == Encode(Delivered(writers, order[..|order| - 1])) + before
    requires before != [] ==> IsPartial(writers, order, before) && Part(writers[order[|order| - 1]]) == []
    requires PartFits(writers[order[|order| - 1]])
    ensures Parts(writers, order) == Encode(Delivered(writers, order)) + tail
    ensures tail == [] || IsPartial(writers, order, tail)
  {
    var w := writers[order[|order| - 1]];
    var said := Delivered(writers, order[..|order| - 1]);
    PartOf(w);
    hide Encode, Part, Payload, PartFits, IsPartial;
    assert Parts(writers, order) == Encode(said) + before + Part(w);
    tail := if before != [] || w.at == Done then before else Part(w);
    if w.Write? && w.at == Done {
      assert Delivered(writers, order) == said + w.text;
      WholeBehind(said, w.text, before);
    } else {
      assert Delivered(writers, order) == said;
      NothingBehind(Encode(said), before, Part(w));
      if before == [] && tail != [] {
        OwnPart(writers, order, tail);
      }
    }
  }

  lemma WholeBehind(said: string, text: string, before: seq<byte>)
    requires before != [] ==> Encode(text) == []
    ensures Encode(said) + before + Encode(text) == Encode(said + text) + before
  {
    EncodeJoins(said, text);
    hide Encode;
    if before == [] {
      assert Encode(said) + before == Encode(said);
    }
  }

  lemma NothingBehind(said: seq<byte>, before: seq<byte>, part: seq<byte>)
    requires before != [] ==> part == []
    ensures said + before + part == said + if before != [] then before else part
  {
  }

  lemma OwnPart(writers: map<nat, Writer>, order: seq<nat>, tail: seq<byte>)
    requires order != [] && order[|order| - 1] in writers && writers[order[|order| - 1]].Write?
    requires writers[order[|order| - 1]].at != Done && tail <= Payload(writers[order[|order| - 1]])
    ensures IsPartial(writers, order, tail)
  {
    hide Payload;
    assert order[|order| - 1] in order;
  }

  lemma PartOf(w: Writer)
    requires PartFits(w)
    ensures Part(w) <= Payload(w) && (w.at == Done ==> Part(w) == Payload(w))
    ensures w.Write? ==> Payload(w) == Encode(w.text)
    ensures w.Close? ==> Part(w) == []
  {
  }

  lemma TailStops(writers: map<nat, Writer>, order: seq<nat>, tail: seq<byte>)
    requires TailOnly(writers, order) && order != [] && order[|order| - 1] in writers
    requires IsPartial(writers, order[..|order| - 1], tail)
    ensures Part(writers[order[|order| - 1]]) == [] && IsPartial(writers, order, tail)
  {
    var init := order[..|order| - 1];
    var c :| c in init && c in writers && writers[c].Write? && writers[c].at != Done && tail <= Payload(writers[c]);
    var i :| 0 <= i < |init| && init[i] == c;
    assert order[i] == c;
  }

  lemma TailsAreLast(st: State)
    requires OrderKept(st) && TailKept(st)
    ensures TailOnly(st.writers, st.order)
  {
    forall i, j | 0 <= i < j < |st.order| && !st.writers[st.order[i]].at.Done?
      ensures Part(st.writers[st.order[j]]) == []
    {
      assert st.order[i] in st.writers && st.order[j] in st.writers;
      assert st.order[i] in st.order && QuietAt(st, i, j);
      assert !st.writers[st.order[i]].at.Held?;
    }
  }

  /**
   Whatever the interleaving, the wire carries the whole texts of the successful
   sends in lock order, and behind them at most a piece of one send that is not
   (or not yet) successful.
   */
  lemma WritesAreAtomic(st: State) returns (tail: seq<byte>)
    requires Reachable(st)
    ensures st.wire == Encode(Delivered(st.writers, st.order)) + tail
    ensures tail == [] || IsPartial(st.writers, st.order, tail)
  {
    hide Encode, Part, Payload;
    ReachableIsInv(st);
    TailsAreLast(st);
    tail := WholeThenTail(st.writers, st.order);
  }

  lemma {:induction false} NothingPartial(writers: map<nat, Writer>, order: seq<nat>)
    requires forall c <- order :: c in writers && writers[c].at != Waiting
    requires forall c <- order | writers[c].at.Held? || writers[c].at.Failed? :: writers[c].at.written == 0
    ensures Parts(writers, order) == Encode(Delivered(writers, order))
  {
    if order != [] {
      var n := |order| - 1;
      NothingPartial(writers, order[..n]);
      EncodeJoins(Delivered(writers, order[..n]),
                  if writers[order[n]].Write? && writers[order[n]].at == Done then writers[order[n]].text else []);
      assert Part(writers[order[n]]) ==
             Encode(if writers[order[n]].Write? && writers[order[n]].at == Done then writers[order[n]].text else []);
    }
  }

  /** A finished stream carries the successful sends and nothing else, and only one close finished it. */
  lemma FinishedIsWhole(st: State)
    requires Reachable(st) && st.finished
    ensures st.wire == Encode(Delivered(st.writers, st.order))
    ensures forall c, d | c in st.writers && d in st.writers && st.writers[c].Close? && st.writers[d].Close? :: c == d
  {
    ReachableIsInv(st);
    NothingPartial(st.writers, st.order);
  }

  /** Bytes that are out stay out, each behind those before it, and so does the order of the lock. */
  lemma {:induction false} WireGrows(st: State, steps: seq<Step>)
    requires CanRun(st, steps)
    ensures st.wire <= Run(st, steps).wire && st.order <= Run(st, steps).order
    decreases |steps|
  {
    if steps != [] {
      hide Payload, Part;
      WireGrows(Apply(st, steps[0]), steps[1..]);
    }
  }

  /** The successful texts of one stretch of the lock order and then of the next. */
  lemma {:induction false} DeliveredJoins(writers: map<nat, Writer>, a: seq<nat>, b: seq<nat>)
    ensures Delivered(writers, a + b) == Delivered(writers, a) + Delivered(writers, b)
  {
    if b == [] {
      assert a + b == a;
    } else {
      var n := |b| - 1;
      DeliveredJoins(writers, a, b[..n]);
      assert (a + b)[..|a| + n] == a + b[..n];
    }
  }

  lemma DeliveredByOne(writers: map<nat, Writer>, c: nat)
    ensures Delivered(writers, [c]) ==
            if c in writers && writers[c].Write? && writers[c].at.Done? then writers[c].text else []
  {
    assert [c][..0] == [];
  }

  /** Nothing follows the finish. */
  lemma {:induction false} FinishedStays(st: State, steps: seq<Step>)
    requires CanRun(st, steps) && st.finished
    ensures Run(st, steps).finished && Run(st, steps).wire == st.wire
    decreases |steps|
  {
    if steps != [] {
      FinishedStays(Apply(st, steps[0]), steps[1..]);
    }
  }
}
