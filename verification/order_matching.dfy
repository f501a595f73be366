/** Matching replies to calls by arrival order, first in first out, and how it compares with matching by id. */
module OrderMatching {
  import opened Events
  import opened CommandChannel

  /** `waiting` are the calls in the order they were made; a reply goes to the first of them. */
  datatype Queue = Queue(nextId: nat, waiting: seq<nat>, completions: seq<(nat, Answer)>)

  const NOBODY := Queue(0, [], [])

  function QueueApply(q: Queue, action: Action): Queue {
    match action
    case Call(_) => q.(nextId := q.nextId + 1, waiting := q.waiting + [q.nextId])
    case Arrive(_, answer) =>
      if q.waiting == [] then q
      else q.(waiting := q.waiting[1..], completions := q.completions + [(q.waiting[0], answer)])
    case _ => q
  }

  function QueueRun(q: Queue, actions: seq<Action>): Queue
    decreases |actions|
  {
    if actions == [] then q else QueueRun(QueueApply(q, actions[0]), actions[1..])
  }

  /** Which call the n-th reply to arrive answers, when the reply to `lost` never comes. */
  function Skipping(n: nat, lost: Option<nat>): nat {
    if lost.Some? && n >= lost.value then n + 1 else n
  }

  /**
   A run of calls and replies in which the worker answers every call once and in
   turn, and every reply but possibly one arrives. `born` calls were made and
   `heard` replies arrived before it.
   */
  predicate InTurn(actions: seq<Action>, born: nat, heard: nat, lost: Option<nat>)
    decreases |actions|
  {
    actions != [] ==>
      match actions[0]
      case Call(_) => InTurn(actions[1..], born + 1, heard, lost)
      case Arrive(i, _) => i == Skipping(heard, lost) && i < born && InTurn(actions[1..], born, heard + 1, lost)
      case _ => false
  }

  function Count(low: nat, high: nat): seq<nat>
    requires low <= high
  {
    seq(high - low, i requires 0 <= i < high - low => low + i)
  }

  /** The two ways side by side: the same answers, given to the n-th call and to the call they are for. */
  ghost predicate SideBySide(q: Queue, ch: Channel, heard: nat, lost: Option<nat>) {
    && q.nextId == ch.nextId && heard <= ch.nextId && ch.listening
    && q.waiting == Count(heard, ch.nextId)
    && (forall n: nat | n < heard :: Skipping(n, lost) < ch.nextId)
    && (forall id: nat :: id in ch.pending <==> id < ch.nextId && forall n: nat | n < heard :: Skipping(n, lost) != id)
    && |q.completions| == |ch.completions| == heard
    && (forall n: nat | n < heard :: q.completions[n].0 == n && ch.completions[n].0 == Skipping(n, lost)
          && q.completions[n].1 == ch.completions[n].1)
  }

  lemma {:induction false} RunSideBySide(q: Queue, ch: Channel, actions: seq<Action>, heard: nat, lost: Option<nat>)
    returns (heardAfter: nat)
    requires SideBySide(q, ch, heard, lost) && InTurn(actions, ch.nextId, heard, lost)
    ensures SideBySide(QueueRun(q, actions), Run(ch, actions), heardAfter, lost)
    decreases |actions|
  {
    if actions == [] {
      heardAfter := heard;
    } else {
      var q', ch' := QueueApply(q, actions[0]), Apply(ch, actions[0]);
      var heard' := if actions[0].Arrive? then heard + 1 else heard;
      if actions[0].Arrive? {
        ArriveSideBySide(q, ch, actions[0], heard, lost);
      } else {
        assert Count(heard, ch'.nextId) == Count(heard, ch.nextId) + [ch.nextId];
      }
      heardAfter := RunSideBySide(q', ch', actions[1..], heard', lost);
    }
  }

  lemma ArriveSideBySide(q: Queue, ch: Channel, reply: Action, heard: nat, lost: Option<nat>)
    requires SideBySide(q, ch, heard, lost) && reply.Arrive?
    requires reply.id == Skipping(heard, lost) && reply.id < ch.nextId
    ensures SideBySide(QueueApply(q, reply), Apply(ch, reply), heard + 1, lost)
  {
    var ch' := Apply(ch, reply);
    assert reply.id in ch.pending;
    assert Count(heard, ch.nextId)[1..] == Count(heard + 1, ch.nextId);
    forall id: nat
      ensures id in ch'.pending <==> id < ch'.nextId && forall n: nat | n < heard + 1 :: Skipping(n, lost) != id
    {
      assert id != reply.id ==> (id in ch'.pending <==> id in ch.pending);
    }
  }

  lemma {:induction false} ResultsShift(a: seq<(nat, Answer)>, b: seq<(nat, Answer)>, id: nat, lost: Option<nat>)
    requires |a| == |b|
    requires forall n: nat | n < |a| :: a[n].0 == n && b[n].0 == Skipping(n, lost) && a[n].1 == b[n].1
    ensures Result(a, id) == Result(b, Skipping(id, lost))
    ensures lost.Some? ==> Result(b, lost.value).None?
  {
    if a != [] {
      ResultsShift(a[..|a| - 1], b[..|b| - 1], id, lost);
    }
  }

  /** While no reply is lost, matching by id and matching by order give every call the same. */
  lemma SameWhileNoneIsLost(actions: seq<Action>)
    requires InTurn(actions, 0, 0, None)
    ensures Run(OPENED, actions).completions == QueueRun(NOBODY, actions).completions
    ensures forall id: nat ::
              Result(Run(OPENED, actions).completions, id) == Result(QueueRun(NOBODY, actions).completions, id)
  {
    var heard := RunSideBySide(NOBODY, OPENED, actions, 0, None);
  }

  /**
   When one reply is lost, matching by order hands that call and every later one
   its successor's reply, while matching by id only leaves that one unanswered.
   */
  lemma OneLossShiftsOrderMatching(actions: seq<Action>, lost: nat, id: nat)
    requires InTurn(actions, 0, 0, Some(lost))
    ensures Result(QueueRun(NOBODY, actions).completions, id) ==
            Result(Run(OPENED, actions).completions, if id < lost then id else id + 1)
    ensures Result(Run(OPENED, actions).completions, lost).None?
  {
    var heard := RunSideBySide(NOBODY, OPENED, actions, 0, Some(lost));
    ResultsShift(QueueRun(NOBODY, actions).completions, Run(OPENED, actions).completions, id, Some(lost));
  }
}
