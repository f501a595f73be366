/** The poller: `pollLoop` on the Dart side over `rk_quic_server_poll` and `rk_quic_string_free`. */
module PollLoop {
  import opened Events
  import opened Sequences
  import opened Utf8
  import CStrings
  import EventCodec

  /** What one poll finds: no such endpoint, nothing within the wait, or the next event. */
  datatype Turn = Gone | Quiet | Next(event: Event)

  /** The events handed out before the endpoint is found gone. */
  function Dequeued(turns: seq<Turn>): seq<Event> {
    if turns == [] || turns[0].Gone? then []
    else if turns[0].Next? then [turns[0].event] + Dequeued(turns[1..])
    else Dequeued(turns[1..])
  }

  /** The loop made `polls` polls and left or not: it leaves at the first that finds the endpoint gone. */
  predicate Ends(turns: seq<Turn>, polls: nat, left: bool) {
    && (left ==> 0 < polls <= |turns| && turns[polls - 1].Gone?)
    && (!left ==> polls == |turns|)
    && forall j | 0 <= j < |turns| && j < if left then polls - 1 else polls :: !turns[j].Gone?
  }

  /** Native memory for strings: what is allocated and not yet freed, by address; address zero is null. */
  class Heap {
    var next: nat
    var strings: map<nat, seq<byte>>
    ghost var made: seq<nat>
    ghost var freed: seq<nat>

    /** Addresses are used once; each is freed at most once, and the rest are live. */
    ghost predicate Valid()
      reads this
    {
      && next > 0
      && (forall p <- made :: 0 < p < next)
      && NoRepeat(made) && NoRepeat(freed)
      && (forall p <- freed :: p in made)
      && (forall p: nat :: p in strings <==> p in made && p !in freed)
    }

    constructor ()
      ensures Valid() && strings == map[] && made == [] && freed == []
    {
      next, strings, made, freed := 1, map[], [], [];
    }

    /** `into_owned_c_string`: hands a new string to the caller. */
    method Allocate(text: string) returns (p: nat)
      requires Valid()
      modifies this
      ensures Valid() && p > 0 && p !in old(strings) && strings == old(strings)[p := CStrings.IntoCString(text)]
      ensures made == old(made) + [p] && freed == old(freed)
    {
      hide CStrings.IntoCString;
      p := next;
      assert p !in made && p !in freed;
      next := next + 1;
      strings := strings[p := CStrings.IntoCString(text)];
      made := made + [p];
    }

    /** `rk_quic_string_free`: null is nothing to free; anything else must be live. */
    method Free(p: nat)
      requires Valid() && (p == 0 || p in strings)
      modifies this
      ensures Valid() && strings == old(strings) - {p} && made == old(made)
      ensures freed == if p == 0 then old(freed) else old(freed) + [p]
    {
      if p == 0 {
        assert 0 !in strings && strings - {0} == strings;
        return;
      }
      strings := strings - {p};
      freed := freed + [p];
    }
  }

  class OutCell {
    var pointer: nat

    constructor ()
      ensures pointer == 0
    {
      pointer := 0;
    }
  }

  /** `rk_quic_server_poll`: the out-cell is nulled first, and a string allocated only with `ok`. */
  method RkQuicServerPoll(turn: Turn, heap: Heap, out: OutCell) returns (status: Status)
    requires heap.Valid()
    modifies heap, out
    ensures heap.Valid()
    ensures status == match turn case Gone => UnknownHandle case Quiet => WouldBlock case Next(_) => Ok
    ensures heap.freed == old(heap.freed)
    ensures status == Ok ==>
              && out.pointer > 0 && out.pointer !in old(heap.strings) && heap.made == old(heap.made) + [out.pointer]
              && heap.strings == old(heap.strings)[out.pointer := CStrings.IntoCString(EventCodec.ToJson(turn.event))]
    ensures status != Ok ==>
              out.pointer == 0 && heap.strings == old(heap.strings) && heap.made == old(heap.made)
  {
    out.pointer := 0;
    match turn {
      case Gone => status := UnknownHandle;
      case Quiet => status := WouldBlock;
      case Next(event) =>
        out.pointer := heap.Allocate(EventCodec.ToJson(event));
        status := Ok;
    }
  }

  function Forwarded(events: seq<Event>): seq<string> {
    if events == [] then [] else [EventCodec.ToJson(events[0])] + Forwarded(events[1..])
  }

  lemma ForwardedFirst(first: Event, rest: seq<Event>)
    ensures Forwarded([first] + rest) == [EventCodec.ToJson(first)] + Forwarded(rest)
  {
    hide EventCodec.ToJson;
    assert ([first] + rest)[1..] == rest;
  }

  lemma {:induction false} ForwardedJoins(a: seq<Event>, b: seq<Event>)
    ensures Forwarded(a + b) == Forwarded(a) + Forwarded(b)
  {
    hide EventCodec.ToJson;
    if a == [] {
      assert a + b == b;
    } else {
      ForwardedJoins(a[1..], b);
      assert a + b == [a[0]] + (a[1..] + b);
      ForwardedFirst(a[0], a[1..] + b);
    }
  }

  /** What Dart makes of the texts sent on: each dequeued event once, in order, equal in every field. */
  lemma {:induction false} CallerReadsWhatWasDequeued(events: seq<Event>)
    requires forall e <- events :: EventCodec.IdsFit(e)
    ensures |Forwarded(events)| == |events|
    ensures forall i | 0 <= i < |events| :: EventCodec.FromJson(Forwarded(events)[i]) == EventCodec.Same(events[i])
  {
    hide EventCodec.ToJson, EventCodec.FromJson, EventCodec.Same, EventCodec.IdsFit;
    if events != [] {
      assert events[0] in events && forall e <- events[1..] :: e in events;
      EventCodec.RoundTrip(events[0]);
      CallerReadsWhatWasDequeued(events[1..]);
    }
  }

  lemma {:induction false} DequeuedGrows(turns: seq<Turn>, i: nat)
    requires i < |turns| && forall j | 0 <= j < i :: !turns[j].Gone?
    ensures Dequeued(turns[..i + 1]) == Dequeued(turns[..i]) + if turns[i].Next? then [turns[i].event] else []
  {
    if i == 0 {
      assert turns[..1] == [turns[0]] && turns[..0] == [];
      assert [turns[0]][1..] == [];
    } else {
      DequeuedGrows(turns[1..], i - 1);
      assert turns[..i + 1][1..] == turns[1..][..i] && turns[..i][1..] == turns[1..][..i - 1];
    }
  }

  lemma {:induction false} DequeuedStops(turns: seq<Turn>, i: nat)
    requires i < |turns| && turns[i].Gone? && forall j | 0 <= j < i :: !turns[j].Gone?
    ensures Dequeued(turns) == Dequeued(turns[..i])
  {
    if i > 0 {
      DequeuedStops(turns[1..], i - 1);
      assert turns[..i][1..] == turns[1..][..i - 1];
    }
  }

  /** One turn of the loop: the event's text, if the poll brought one, and whether to go on. */
  method PollOnce(turn: Turn, heap: Heap, out: OutCell) returns (json: Option<string>, goOn: bool)
    requires heap.Valid()
    modifies heap, out
    ensures heap.Valid() && heap.strings == old(heap.strings)
    ensures json == if turn.Next? then Some(EventCodec.ToJson(turn.event)) else None
    ensures goOn <==> !turn.Gone?
    ensures json.Some? ==> exists p: nat :: heap.made == old(heap.made) + [p] && heap.freed == old(heap.freed) + [p]
    ensures json.None? ==> heap.made == old(heap.made) && heap.freed == old(heap.freed)
  {
    hide EventCodec.ToJson, CStrings.IntoCString, CStrings.FromCString;
    var status := RkQuicServerPoll(turn, heap, out);
    json := None;
    if status == Ok {
      var pointer := out.pointer;
      if pointer != 0 {
        EventCodec.JsonCrossesWhole(turn.event);
        var text := CStrings.FromCString(heap.strings[pointer]).value;
        heap.Free(pointer);
        out.pointer := 0;
        json := Some(text);
        assert heap.strings == old(heap.strings);
      }
      return json, true;
    }
    return None, status == WouldBlock;
  }

  /**
   `pollLoop`, watched for as many turns as `turns` tells of. It sends on every
   event that is dequeued, once and in order; every string it is given is freed
   once, in the order given; and it leaves at the first poll that finds the
   endpoint gone, and for no other reason.
   */
  method Poll(turns: seq<Turn>, heap: Heap) returns (sent: seq<string>, polls: nat, left: bool)
    requires heap.Valid()
    modifies heap
    ensures heap.Valid() && heap.strings == old(heap.strings)
    ensures exists given: seq<nat> ::
              |given| == |sent| && heap.made == old(heap.made) + given && heap.freed == old(heap.freed) + given
    ensures sent == Forwarded(Dequeued(turns))
    ensures Ends(turns, polls, left)
  {
    hide EventCodec.ToJson;
    var out := new OutCell();
    ghost var given: seq<nat> := [];
    sent, polls, left := [], 0, false;
    assert turns[..0] == [];
    while polls < |turns|
      invariant 0 <= polls <= |turns| && !left
      invariant heap.Valid() && heap.strings == old(heap.strings)
      invariant |given| == |sent| && heap.made == old(heap.made) + given && heap.freed == old(heap.freed) + given
      invariant sent == Forwarded(Dequeued(turns[..polls]))
      invariant forall j | 0 <= j < polls :: !turns[j].Gone?
    {
      DequeuedGrows(turns, polls);
      ghost var made, freed := heap.made, heap.freed;
      var json, goOn := PollOnce(turns[polls], heap, out);
      polls := polls + 1;
      if !goOn {
        DequeuedStops(turns, polls - 1);
        return sent, polls, true;
      }
      assert Dequeued(turns[..polls - 1]) + [] == Dequeued(turns[..polls - 1]);
      if json.Some? {
        sent := sent + [json.value];
        ghost var p: nat :| heap.made == made + [p] && heap.freed == freed + [p];
        given := given + [p];
        ForwardedJoins(Dequeued(turns[..polls - 1]), [turns[polls - 1].event]);
        assert [turns[polls - 1].event][1..] == [];
      }
    }
    assert turns[..polls] == turns;
  }

  /**
   A turn in which the isolate is killed after the native call came back, before
   or after the string is freed; either way nothing is sent on.
   */
  method KilledTurn(turn: Turn, freed: bool, heap: Heap, out: OutCell)
    requires heap.Valid()
    modifies heap, out
    ensures heap.Valid()
    ensures turn.Next? && !freed ==>
              exists p: nat ::
                && p !in old(heap.strings)
                && heap.strings == old(heap.strings)[p := CStrings.IntoCString(EventCodec.ToJson(turn.event))]
    ensures !turn.Next? || freed ==> heap.strings == old(heap.strings)
  {
    hide EventCodec.ToJson, CStrings.IntoCString;
    var status := RkQuicServerPoll(turn, heap, out);
    if status == Ok && freed {
      heap.Free(out.pointer);
      assert heap.strings == old(heap.strings);
    }
  }

  /**
   The loop, killed in the turn after `turns` unless it has left by then. What was
   sent is what was dequeued before that turn; at most one string is never freed,
   and one is exactly when an event had come and the kill was first.
   */
  method PollUntilKilled(turns: seq<Turn>, last: Turn, freed: bool, heap: Heap)
    returns (sent: seq<string>, left: bool)
    requires heap.Valid()
    modifies heap
    ensures heap.Valid() && sent == Forwarded(Dequeued(turns))
    ensures left <==> exists turn <- turns :: turn.Gone?
    ensures left || !last.Next? || freed ==> heap.strings == old(heap.strings)
    ensures !left && last.Next? && !freed ==>
              exists p: nat ::
                && p !in old(heap.strings)
                && heap.strings == old(heap.strings)[p := CStrings.IntoCString(EventCodec.ToJson(last.event))]
  {
    hide EventCodec.ToJson, CStrings.IntoCString, Dequeued, Forwarded;
    var polls;
    sent, polls, left := Poll(turns, heap);
    if left {
      assert turns[polls - 1] in turns;
    } else {
      var out := new OutCell();
      KilledTurn(last, freed, heap, out);
    }
  }
}
