/**
 The bounded event queue of one endpoint: many tasks offer, one poller takes.

 `emitted` and `depths` are histories: every event ever offered, in order, and
 how many events were waiting when it was offered, or `None` once the receiver
 was gone. `delivered` is what the poller has taken so far. Only `queue` exists
 at run time; what still waits when the receiver goes is never taken.
 */
module EventBus {
  import opened Events

  const EVENT_QUEUE_DEPTH: nat := 1024

  datatype Bus = Bus(emitted: seq<Event>, depths: seq<Option<nat>>, queue: seq<Event>, delivered: seq<Event>)

  const EMPTY_BUS := Bus([], [], [], [])

  /** What `try_send` leaves waiting: a full queue refuses the arriving event. */
  function Offer(queue: seq<Event>, event: Event): seq<Event> {
    if |queue| < EVENT_QUEUE_DEPTH then queue + [event] else queue
  }

  function Emit(b: Bus, event: Event): Bus {
    Bus(b.emitted + [event], b.depths + [Some(|b.queue|)], Offer(b.queue, event), b.delivered)
  }

  /** An event offered when nobody holds the receiver any more: `try_send` answers `Disconnected`. */
  function Lose(b: Bus, event: Event): Bus {
    b.(emitted := b.emitted + [event], depths := b.depths + [None])
  }

  /** Whether an event offered at this depth found room. */
  predicate HadRoom(depth: Option<nat>) {
    depth.Some? && depth.value < EVENT_QUEUE_DEPTH
  }

  function Take(b: Bus): Bus
    requires b.queue != []
  {
    b.(queue := b.queue[1..], delivered := b.delivered + [b.queue[0]])
  }

  ghost predicate AllHadRoom(depths: seq<Option<nat>>) {
    forall i | 0 <= i < |depths| :: HadRoom(depths[i])
  }

  /** The events offered while there was room. */
  function Kept(events: seq<Event>, depths: seq<Option<nat>>): seq<Event>
    requires |events| == |depths|
  {
    if events == [] then [] else
      var n := |events| - 1;
      Kept(events[..n], depths[..n]) + if HadRoom(depths[n]) then [events[n]] else []
  }

  /** The events offered while the queue was full, or after the receiver had gone. */
  function Discarded(events: seq<Event>, depths: seq<Option<nat>>): seq<Event>
    requires |events| == |depths|
  {
    if events == [] then [] else
      var n := |events| - 1;
      Discarded(events[..n], depths[..n]) + if HadRoom(depths[n]) then [] else [events[n]]
  }

  /** The queue is the not yet delivered part of what was kept, and it is bounded. */
  ghost predicate Consistent(b: Bus) {
    && |b.emitted| == |b.depths|
    && |b.queue| <= EVENT_QUEUE_DEPTH
    && b.delivered + b.queue == Kept(b.emitted, b.depths)
  }

  lemma EmitKeepsConsistent(b: Bus, event: Event)
    requires Consistent(b)
    ensures Consistent(Emit(b, event))
  {
    var b' := Emit(b, event);
    assert b'.emitted[..|b.emitted|] == b.emitted && b'.depths[..|b.depths|] == b.depths;
    assert b.delivered + (b.queue + [event]) == (b.delivered + b.queue) + [event];
  }

  lemma LoseKeepsConsistent(b: Bus, event: Event)
    requires Consistent(b)
    ensures Consistent(Lose(b, event))
  {
    var b' := Lose(b, event);
    assert b'.emitted[..|b.emitted|] == b.emitted && b'.depths[..|b.depths|] == b.depths;
    assert b.delivered + b.queue + [] == b.delivered + b.queue;
  }

  lemma TakeKeepsConsistent(b: Bus)
    requires Consistent(b) && b.queue != []
    ensures Consistent(Take(b))
  {
    assert (b.delivered + [b.queue[0]]) + b.queue[1..] == b.delivered + b.queue;
  }

  /** `a` is what is left of `b` after striking some elements out. */
  ghost predicate Subsequence(a: seq<Event>, b: seq<Event>)
    decreases |b|
  {
    if a == [] then true
    else if b == [] then false
    else
      || (a[|a| - 1] == b[|b| - 1] && Subsequence(a[..|a| - 1], b[..|b| - 1]))
      || Subsequence(a, b[..|b| - 1])
  }

  lemma SubsequenceGrows(a: seq<Event>, b: seq<Event>, e: Event)
    requires Subsequence(a, b)
    ensures Subsequence(a, b + [e]) && Subsequence(a + [e], b + [e])
  {
    assert (a + [e])[..|a|] == a && (b + [e])[..|b|] == b;
  }

  lemma {:induction false} KeptIsSubsequence(events: seq<Event>, depths: seq<Option<nat>>)
    requires |events| == |depths|
    ensures Subsequence(Kept(events, depths), events)
  {
    if events != [] {
      var n := |events| - 1;
      KeptIsSubsequence(events[..n], depths[..n]);
      assert events == events[..n] + [events[n]];
      SubsequenceGrows(Kept(events[..n], depths[..n]), events[..n], events[n]);
      var k := Kept(events[..n], depths[..n]);
      assert k + [] == k;
    }
  }

  lemma {:induction false} KeptOrDiscarded(events: seq<Event>, depths: seq<Option<nat>>)
    requires |events| == |depths|
    ensures multiset(events) == multiset(Kept(events, depths)) + multiset(Discarded(events, depths))
  {
    if events != [] {
      var n := |events| - 1;
      KeptOrDiscarded(events[..n], depths[..n]);
      assert events == events[..n] + [events[n]];
    }
  }

  lemma {:induction false} AllKeptWithRoom(events: seq<Event>, depths: seq<Option<nat>>)
    requires |events| == |depths|
    requires AllHadRoom(depths)
    ensures Kept(events, depths) == events
  {
    if events != [] {
      var n := |events| - 1;
      AllKeptWithRoom(events[..n], depths[..n]);
      assert events == events[..n] + [events[n]];
    }
  }

  lemma {:induction false} PrefixOfSubsequence(a: seq<Event>, c: seq<Event>, b: seq<Event>)
    requires Subsequence(a + c, b)
    ensures Subsequence(a, b)
    decreases |b|
  {
    if a != [] {
      var ac := a + c;
      if ac[|ac| - 1] == b[|b| - 1] && Subsequence(ac[..|ac| - 1], b[..|b| - 1]) {
        if c != [] {
          assert ac[..|ac| - 1] == a + c[..|c| - 1];
          PrefixOfSubsequence(a, c[..|c| - 1], b[..|b| - 1]);
        } else {
          assert ac == a;
        }
      } else {
        PrefixOfSubsequence(a, c, b[..|b| - 1]);
      }
    }
  }

  /** The bounded queue refines the plain log of everything emitted. */
  lemma QueueRefinesLog(b: Bus)
    requires Consistent(b)
    ensures |b.queue| <= 1024
    ensures Subsequence(b.delivered + b.queue, b.emitted) && Subsequence(b.delivered, b.emitted)
    ensures multiset(b.emitted) ==
            multiset(b.delivered) + multiset(b.queue) + multiset(Discarded(b.emitted, b.depths))
    ensures AllHadRoom(b.depths) ==> b.delivered + b.queue == b.emitted
  {
    KeptIsSubsequence(b.emitted, b.depths);
    KeptOrDiscarded(b.emitted, b.depths);
    if AllHadRoom(b.depths) {
      AllKeptWithRoom(b.emitted, b.depths);
    }
    PrefixOfSubsequence(b.delivered, b.queue, b.emitted);
  }

  lemma {:induction false} SubsequenceMembers(a: seq<Event>, b: seq<Event>, e: Event)
    requires Subsequence(a, b) && e in a
    ensures e in b
    decreases |b|
  {
    if a[|a| - 1] == b[|b| - 1] && Subsequence(a[..|a| - 1], b[..|b| - 1]) {
      if e != a[|a| - 1] {
        SubsequenceMembers(a[..|a| - 1], b[..|b| - 1], e);
      }
    } else {
      SubsequenceMembers(a, b[..|b| - 1], e);
    }
  }

  /** The queue the comments describe: when full, the oldest event makes room. */
  function OfferDroppingOldest(queue: seq<Event>, event: Event): seq<Event> {
    if |queue| < EVENT_QUEUE_DEPTH then queue + [event] else queue[1..] + [event]
  }

  /** The code does what its comments say exactly while there is room, or when it cannot show. */
  lemma OfferMatchesItsComment(queue: seq<Event>, event: Event)
    ensures Offer(queue, event) == OfferDroppingOldest(queue, event)
       <==> |queue| < 1024 || forall e <- queue :: e == event
  {
    if |queue| >= EVENT_QUEUE_DEPTH {
      var dropped := queue[1..] + [event];
      if forall e <- queue :: e == event {
        assert forall i | 0 <= i < |queue| :: queue[i] in queue;
        assert forall i | 0 <= i < |queue| - 1 :: dropped[i] == queue[i + 1];
        assert queue == dropped;
      } else if queue == dropped {
        ConstantTail(queue, event);
      }
    }
  }

  lemma {:induction false} ConstantTail(queue: seq<Event>, event: Event)
    requires queue != [] && queue == queue[1..] + [event]
    ensures forall e <- queue :: e == event
  {
    var i := |queue|;
    while i > 0
      invariant 0 <= i <= |queue|
      invariant forall j | i <= j < |queue| :: queue[j] == event
    {
      i := i - 1;
      assert queue[i] == (queue[1..] + [event])[i];
    }
  }

  /** A full queue of old news keeps all of it and loses the newcomer. */
  lemma OldestIsNotDropped(event: Event, older: Event)
    requires older != event
    ensures exists queue: seq<Event> ::
              && |queue| == 1024
              && Offer(queue, event) == queue && event !in queue
              && event in OfferDroppingOldest(queue, event)
  {
    var queue := seq(EVENT_QUEUE_DEPTH, _ => older);
    assert Offer(queue, event) == queue && event !in queue;
    assert event in OfferDroppingOldest(queue, event);
  }
}
