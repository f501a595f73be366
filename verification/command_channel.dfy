/** The command channel of lib/src/endpoint_io.dart: calls overlap, and every reply carries the id of its call. */
module CommandChannel {
  import opened Events

  /** A status on the Dart side: a native one, or a name this build does not know. */
  datatype CallStatus = Known(status: Status) | Unrecognised

  datatype Command =
    | StartCommand(config: string)
    | ConnectCommand(config: string)
    | OpenStreamCommand(session: nat)
    | SendCommand(session: nat, message: string, reliable: bool)
    | StreamSendCommand(session: nat, stream: nat, message: string)
    | StreamCloseCommand(session: nat, stream: nat)
    | StopCommand

  datatype Answer =
    | StatusReply(status: CallStatus, detail: Option<string>)
    | StartedReply(handle: nat, port: nat)
    | ConnectedReply(handle: nat, session: nat)
    | StreamOpenedReply(stream: nat)

  datatype Envelope = Envelope(id: nat, command: Command)

  const ORPHANED := StatusReply(Known(NotRunning), Some("the endpoint was stopped"))

  /** `completions` is the history of every `complete` call, in order. */
  datatype Channel = Channel(
    nextId: nat,
    pending: set<nat>,
    listening: bool,
    sent: seq<Envelope>,
    completions: seq<(nat, Answer)>
  )

  const OPENED := Channel(0, {}, true, [], [])

  function Send(ch: Channel, command: Command): Channel {
    ch.(nextId := ch.nextId + 1, pending := ch.pending + {ch.nextId},
        sent := ch.sent + [Envelope(ch.nextId, command)])
  }

  /** A reply arrives; one nobody waits for, or after the listening stopped, is ignored. */
  function Hear(ch: Channel, id: nat, answer: Answer): Channel {
    if ch.listening && id in ch.pending then
      ch.(pending := ch.pending - {id}, completions := ch.completions + [(id, answer)])
    else ch
  }

  /** The first half of `dispose`: the worker is killed, replies are no longer heard. */
  function Cancel(ch: Channel): Channel {
    ch.(listening := false)
  }

  function SmallestFirst(ids: set<nat>, below: nat): seq<nat> {
    if below == 0 then [] else
      SmallestFirst(ids, below - 1) + if below - 1 in ids then [below - 1] else []
  }

  /** Every id still waiting, oldest first: the order in which the pending map was filled. */
  function Orphans(ch: Channel): seq<nat> {
    SmallestFirst(ch.pending, ch.nextId)
  }

  function Orphaned(ids: seq<nat>): seq<(nat, Answer)> {
    seq(|ids|, i requires 0 <= i < |ids| => (ids[i], ORPHANED))
  }

  /** The second half of `dispose`: whoever still waits is told that the endpoint was stopped. */
  function Settle(ch: Channel): Channel {
    ch.(pending := {}, completions := ch.completions + Orphaned(Orphans(ch)))
  }

  /** What a call's future holds. */
  function Result(completions: seq<(nat, Answer)>, id: nat): Option<Answer> {
    if completions == [] then None
    else if completions[|completions| - 1].0 == id then Some(completions[|completions| - 1].1)
    else Result(completions[..|completions| - 1], id)
  }

  datatype Action =
    | Call(command: Command)
    | Arrive(id: nat, answer: Answer)
    | CancelAll
    | SettleAll

  function Apply(ch: Channel, action: Action): Channel {
    match action
    case Call(command) => Send(ch, command)
    case Arrive(id, answer) => Hear(ch, id, answer)
    case CancelAll => Cancel(ch)
    case SettleAll => Settle(ch)
  }

  function Run(ch: Channel, actions: seq<Action>): Channel
    decreases |actions|
  {
    if actions == [] then ch else Run(Apply(ch, actions[0]), actions[1..])
  }

  // --- what every history keeps ------------------------------------------------------------

  ghost predicate Inv(ch: Channel) {
    && (forall id <- ch.pending :: id < ch.nextId)
    && (forall c <- ch.completions :: c.0 < ch.nextId && c.0 !in ch.pending)
    && (forall i, j | 0 <= i < j < |ch.completions| :: ch.completions[i].0 != ch.completions[j].0)
    && (forall id: nat | id < ch.nextId && id !in ch.pending :: Result(ch.completions, id).Some?)
  }

  lemma {:induction false} SmallestFirstIsAll(ids: set<nat>, below: nat)
    ensures forall id: nat :: id in SmallestFirst(ids, below) <==> id in ids && id < below
    ensures forall i, j | 0 <= i < j < |SmallestFirst(ids, below)| ::
              SmallestFirst(ids, below)[i] < SmallestFirst(ids, below)[j]
  {
    if below > 0 {
      SmallestFirstIsAll(ids, below - 1);
      var before := SmallestFirst(ids, below - 1);
      assert forall i | 0 <= i < |before| :: before[i] in before;
    }
  }

  lemma {:induction false} ResultOf(completions: seq<(nat, Answer)>, more: seq<(nat, Answer)>, id: nat)
    ensures Result(completions + more, id) ==
            if Result(more, id).Some? then Result(more, id) else Result(completions, id)
  {
    if more == [] {
      assert completions + more == completions;
    } else {
      var n := |more| - 1;
      assert (completions + more)[..|completions| + n] == completions + more[..n];
      ResultOf(completions, more[..n], id);
    }
  }

  lemma {:induction false} OrphanedResult(ids: seq<nat>, id: nat)
    ensures Result(Orphaned(ids), id) == if id in ids then Some(ORPHANED) else None
  {
    if ids != [] {
      var n := |ids| - 1;
      OrphanedResult(ids[..n], id);
      assert Orphaned(ids)[..n] == Orphaned(ids[..n]);
      assert ids == ids[..n] + [ids[n]];
    }
  }

  lemma {:induction false} NoResult(completions: seq<(nat, Answer)>, id: nat)
    requires forall c <- completions :: c.0 != id
    ensures Result(completions, id).None?
  {
    if completions != [] {
      NoResult(completions[..|completions| - 1], id);
    }
  }

  lemma OrphansArePending(ch: Channel)
    requires Inv(ch)
    ensures forall id: nat :: id in Orphans(ch) <==> id in ch.pending
    ensures forall i, j | 0 <= i < j < |Orphans(ch)| :: Orphans(ch)[i] != Orphans(ch)[j]
  {
    SmallestFirstIsAll(ch.pending, ch.nextId);
  }

  /** The result of each call after one action. */
  lemma ActionResult(ch: Channel, action: Action, id: nat)
    requires Inv(ch)
    ensures Result(Apply(ch, action).completions, id) ==
            match action
            case Call(_) => Result(ch.completions, id)
            case CancelAll => Result(ch.completions, id)
            case Arrive(i, answer) =>
              if i == id && ch.listening && id in ch.pending then Some(answer) else Result(ch.completions, id)
            case SettleAll => if id in ch.pending then Some(ORPHANED) else Result(ch.completions, id)
  {
    match action
    case Arrive(i, answer) =>
      ResultOf(ch.completions, [(i, answer)], id);
      assert Result([(i, answer)], id) == if i == id then Some(answer) else None;
    case SettleAll =>
      OrphansArePending(ch);
      OrphanedResult(Orphans(ch), id);
      ResultOf(ch.completions, Orphaned(Orphans(ch)), id);
    case _ =>
  }

  lemma ActionKeepsInv(ch: Channel, action: Action)
    requires Inv(ch)
    ensures Inv(Apply(ch, action))
  {
    var ch' := Apply(ch, action);
    forall id: nat | id < ch'.nextId && id !in ch'.pending
      ensures Result(ch'.completions, id).Some?
    {
      ActionResult(ch, action, id);
    }
    if action.SettleAll? {
      SettlingKeepsIds(ch);
    }
  }

  lemma SettlingKeepsIds(ch: Channel)
    requires Inv(ch)
    ensures forall c <- Settle(ch).completions :: c.0 < ch.nextId
    ensures var all := Settle(ch).completions; forall i, j | 0 <= i < j < |all| :: all[i].0 != all[j].0
  {
    OrphansArePending(ch);
    JoinedIdsDiffer(ch.completions, Orphans(ch));
    var orphans := Orphans(ch);
    hide Orphans, Result;
    assert forall c <- Orphaned(orphans) :: c.0 in orphans;
  }

  lemma JoinedIdsDiffer(completions: seq<(nat, Answer)>, ids: seq<nat>)
    requires forall i, j | 0 <= i < j < |completions| :: completions[i].0 != completions[j].0
    requires forall i, j | 0 <= i < j < |ids| :: ids[i] != ids[j]
    requires forall c <- completions :: c.0 !in ids
    ensures var all := completions + Orphaned(ids);
            forall i, j | 0 <= i < j < |all| :: all[i].0 != all[j].0
  {
    var all := completions + Orphaned(ids);
    forall i, j | 0 <= i < j < |all|
      ensures all[i].0 != all[j].0
    {
      if j >= |completions| {
        assert all[j].0 == ids[j - |completions|];
        if i < |completions| {
          assert completions[i] in completions && ids[j - |completions|] in ids;
        }
      }
    }
  }

  lemma {:induction false} RunKeepsInv(ch: Channel, actions: seq<Action>)
    requires Inv(ch)
    ensures Inv(Run(ch, actions))
    decreases |actions|
  {
    if actions != [] {
      ActionKeepsInv(ch, actions[0]);
      RunKeepsInv(Apply(ch, actions[0]), actions[1..]);
    }
  }

  // --- each call by itself ---------------------------------------------------------------------

  /**
   What becomes of one call, told without any of the others: `born` calls were
   made so far, and replies are still heard or not. The first reply with its id
   decides, or the settling if that comes first.
   */
  function Fate(actions: seq<Action>, id: nat, born: nat, listening: bool): Option<Answer>
    decreases |actions|
  {
    if actions == [] then None else
      var rest := actions[1..];
      match actions[0]
      case Call(_) => Fate(rest, id, born + 1, listening)
      case CancelAll => Fate(rest, id, born, false)
      case Arrive(i, answer) =>
        if i == id && id < born && listening then Some(answer) else Fate(rest, id, born, listening)
      case SettleAll => if id < born then Some(ORPHANED) else Fate(rest, id, born, listening)
  }

  lemma {:induction false} EveryCallHasItsFate(ch: Channel, actions: seq<Action>, id: nat)
    requires Inv(ch)
    ensures Result(Run(ch, actions).completions, id) ==
            if Result(ch.completions, id).Some? then Result(ch.completions, id)
            else Fate(actions, id, ch.nextId, ch.listening)
    decreases |actions|
  {
    if actions != [] {
      ActionResult(ch, actions[0], id);
      ActionKeepsInv(ch, actions[0]);
      EveryCallHasItsFate(Apply(ch, actions[0]), actions[1..], id);
      if id in ch.pending {
        NoResult(ch.completions, id);
      }
    }
  }

  /** Every call gets its own reply: for any overlap, loss, repetition or reordering, its result is its own fate. */
  lemma OwnReply(actions: seq<Action>, id: nat)
    ensures Result(Run(OPENED, actions).completions, id) == Fate(actions, id, 0, true)
    ensures forall i, j | 0 <= i < j < |Run(OPENED, actions).completions| ::
              Run(OPENED, actions).completions[i].0 != Run(OPENED, actions).completions[j].0
  {
    RunKeepsInv(OPENED, actions);
    EveryCallHasItsFate(OPENED, actions, id);
  }

  // --- the same, read off the history ---------------------------------------------------------

  function CallsIn(actions: seq<Action>): nat {
    if actions == [] then 0 else (if actions[0].Call? then 1 else 0) + CallsIn(actions[1..])
  }

  /** At `k` a reply to call `id` arrives: the call had been made, and replies were still heard. */
  predicate HeardAt(actions: seq<Action>, k: nat, id: nat, born: nat, listening: bool) {
    && k < |actions| && actions[k].Arrive? && actions[k].id == id
    && id < born + CallsIn(actions[..k])
    && listening && forall j | 0 <= j < k :: !actions[j].CancelAll?
  }

  /** At `k` the calls that still wait are settled, and call `id` had been made. */
  predicate SettledAt(actions: seq<Action>, k: nat, id: nat, born: nat) {
    k < |actions| && actions[k].SettleAll? && id < born + CallsIn(actions[..k])
  }

  predicate OpenUntil(actions: seq<Action>, k: nat, id: nat, born: nat, listening: bool) {
    forall j: nat | j < k :: !HeardAt(actions, j, id, born, listening) && !SettledAt(actions, j, id, born)
  }

  lemma OneActionLater(actions: seq<Action>, k: nat, id: nat, born: nat, listening: bool)
    requires 0 < k <= |actions|
    ensures var born', listening' := if actions[0].Call? then born + 1 else born, listening && !actions[0].CancelAll?;
            && (k < |actions| ==>
                  && (HeardAt(actions, k, id, born, listening) <==> HeardAt(actions[1..], k - 1, id, born', listening'))
                  && (SettledAt(actions, k, id, born) <==> SettledAt(actions[1..], k - 1, id, born')))
  {
    assert actions[..k][0] == actions[0] && actions[..k][1..] == actions[1..][..k - 1];
    assert forall j | 1 <= j < k :: actions[j] == actions[1..][j - 1];
    assert forall j | 0 <= j < k - 1 :: actions[1..][j] == actions[j + 1];
  }

  /** The first action that decides a call decides it so, and a call nothing has decided has no result. */
  lemma {:induction false} FateIsDecided(actions: seq<Action>, k: nat, id: nat, born: nat, listening: bool)
    requires k <= |actions| && OpenUntil(actions, k, id, born, listening)
    ensures HeardAt(actions, k, id, born, listening) ==> Fate(actions, id, born, listening) == Some(actions[k].answer)
    ensures SettledAt(actions, k, id, born) ==>
              Fate(actions, id, born, listening)
              == Some(StatusReply(Known(NotRunning), Some("the endpoint was stopped")))
    ensures k == |actions| ==> Fate(actions, id, born, listening) == None
    decreases |actions|
  {
    if k == 0 {
      assert actions[..0] == [];
    } else {
      assert !HeardAt(actions, 0, id, born, listening) && !SettledAt(actions, 0, id, born);
      assert actions[..0] == [];
      var born', listening' := if actions[0].Call? then born + 1 else born, listening && !actions[0].CancelAll?;
      forall j: nat | j < k - 1
        ensures !HeardAt(actions[1..], j, id, born', listening') && !SettledAt(actions[1..], j, id, born')
      {
        OneActionLater(actions, j + 1, id, born, listening);
        assert !HeardAt(actions, j + 1, id, born, listening) && !SettledAt(actions, j + 1, id, born);
      }
      OneActionLater(actions, k, id, born, listening);
      hide HeardAt, SettledAt;
      FateIsDecided(actions[1..], k - 1, id, born', listening');
    }
  }

  /**
   What a call's future holds, read off the history: the first reply with its id
   that arrives after the call and while replies are heard, unless the waiting
   calls are settled before it; then that the endpoint was stopped.
   */
  lemma FirstDecides(actions: seq<Action>, k: nat, id: nat)
    requires k <= |actions| && OpenUntil(actions, k, id, 0, true)
    ensures HeardAt(actions, k, id, 0, true) ==> Result(Run(OPENED, actions).completions, id) == Some(actions[k].answer)
    ensures SettledAt(actions, k, id, 0) ==>
              Result(Run(OPENED, actions).completions, id)
              == Some(StatusReply(Known(NotRunning), Some("the endpoint was stopped")))
    ensures k == |actions| ==> Result(Run(OPENED, actions).completions, id) == None
  {
    OwnReply(actions, id);
    hide HeardAt, SettledAt, OpenUntil;
    FateIsDecided(actions, k, id, 0, true);
  }

  lemma {:induction false} FateIsReplyOrStopped(actions: seq<Action>, id: nat, born: nat, listening: bool)
    ensures var fate := Fate(actions, id, born, listening);
            && (fate.Some? && fate.value != StatusReply(Known(NotRunning), Some("the endpoint was stopped")) ==>
                  Arrive(id, fate.value) in actions)
    decreases |actions|
  {
    if actions != [] {
      var born' := if actions[0].Call? then born + 1 else born;
      FateIsReplyOrStopped(actions[1..], id, born', listening && !actions[0].CancelAll?);
    }
  }

  /** Nobody is told `ok`, or anything but that the endpoint was stopped, without a reply of its own that said so. */
  lemma NothingIsMadeUp(actions: seq<Action>, id: nat, answer: Answer)
    requires Result(Run(OPENED, actions).completions, id) == Some(answer)
    requires answer != StatusReply(Known(NotRunning), Some("the endpoint was stopped"))
    ensures Arrive(id, answer) in actions
  {
    OwnReply(actions, id);
    FateIsReplyOrStopped(actions, id, 0, true);
  }

  lemma {:induction false} FateIgnoresOthers(before: seq<Action>, after: seq<Action>, reply: Action,
                                             id: nat, born: nat, listening: bool)
    requires reply.Arrive? && reply.id != id
    ensures Fate(before + [reply] + after, id, born, listening) == Fate(before + after, id, born, listening)
    decreases |before|
  {
    if before == [] {
      assert before + [reply] + after == [reply] + after && ([reply] + after)[1..] == after;
      assert before + after == after;
    } else {
      var rest := before[1..];
      assert (before + [reply] + after)[1..] == rest + [reply] + after;
      assert (before + after)[1..] == rest + after;
      var born' := if before[0].Call? then born + 1 else born;
      FateIgnoresOthers(rest, after, reply, id, born', listening && !before[0].CancelAll?);
    }
  }

  /** Losing a reply costs the one call it was for: any other call ends the same with it and without it. */
  lemma LossIsLocal(before: seq<Action>, after: seq<Action>, reply: Action, id: nat)
    requires reply.Arrive? && reply.id != id
    ensures Result(Run(OPENED, before + [reply] + after).completions, id) ==
            Result(Run(OPENED, before + after).completions, id)
  {
    OwnReply(before + [reply] + after, id);
    OwnReply(before + after, id);
    FateIgnoresOthers(before, after, reply, id, 0, true);
  }

  /** Settling completes exactly those that still wait, each once, and tells them they were orphaned. */
  lemma SettleCompletesOrphans(actions: seq<Action>, id: nat)
    ensures var ch := Run(OPENED, actions);
            && Settle(ch).pending == {}
            && (id < ch.nextId ==>
                  Result(Settle(ch).completions, id) ==
                  if Result(ch.completions, id).Some? then Result(ch.completions, id)
                  else Some(StatusReply(Known(NotRunning), Some("the endpoint was stopped"))))
  {
    var ch := Run(OPENED, actions);
    RunKeepsInv(OPENED, actions);
    ActionResult(ch, SettleAll, id);
    if id in ch.pending {
      NoResult(ch.completions, id);
    }
  }
}
