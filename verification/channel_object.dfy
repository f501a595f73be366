/** The command channel and the handle on top of it as objects, with a completer for every call. */
module ChannelObject {
  import opened Events
  import opened CommandChannel
  import opened Sequences

  /** A future's other end: completing it twice is an error, so nobody may. */
  class Completer {
    var value: Option<Answer>
    /** The call it is for, so that no two calls share one. */
    ghost const call: nat

    constructor (ghost call: nat)
      ensures value == None && this.call == call
    {
      this.value := None;
      this.call := call;
    }

    method Complete(answer: Answer)
      requires value == None
      modifies this
      ensures value == Some(answer)
    {
      value := Some(answer);
    }
  }

  /** Completes one after the other. */
  method CompleteAll(ids: seq<nat>, orphans: map<nat, Completer>)
    requires NoRepeat(ids) && forall id <- ids :: id in orphans && orphans[id].value == None
    requires forall id <- orphans :: orphans[id].call == id
    modifies orphans.Values
    ensures forall id <- orphans ::
              orphans[id].value ==
              if id in ids then Some(StatusReply(Known(NotRunning), Some("the endpoint was stopped")))
              else old(orphans[id].value)
  {
    for i := 0 to |ids|
      invariant forall id <- orphans ::
                  orphans[id].value == if id in ids[..i] then Some(ORPHANED) else old(orphans[id].value)
    {
      assert ids[i] in ids && ids[i] !in ids[..i];
      assert ids[..i + 1] == ids[..i] + [ids[i]];
      orphans[ids[i]].Complete(ORPHANED);
    }
    assert ids[..|ids|] == ids;
  }

  lemma NextHasNoResult(ch: Channel)
    requires Inv(ch)
    ensures Result(ch.completions, ch.nextId).None? && ch.nextId !in ch.pending
  {
    NoResult(ch.completions, ch.nextId);
  }

  /** A reply completes the call it names, if that waits and replies are heard, and it was not completed before. */
  lemma HeardResults(ch: Channel, id: nat, answer: Answer)
    requires Inv(ch)
    ensures forall i: nat ::
              Result(Hear(ch, id, answer).completions, i) ==
              if i == id && ch.listening && i in ch.pending then Some(answer) else Result(ch.completions, i)
    ensures id in ch.pending ==> Result(ch.completions, id).None?
  {
    forall i: nat
      ensures Result(Hear(ch, id, answer).completions, i) ==
              if i == id && ch.listening && i in ch.pending then Some(answer) else Result(ch.completions, i)
    {
      ActionResult(ch, Arrive(id, answer), i);
    }
    if id in ch.pending {
      NoResult(ch.completions, id);
    }
  }

  /** Settling completes exactly the calls that wait, and none of them was completed before. */
  lemma SettledResults(ch: Channel)
    requires Inv(ch)
    ensures forall i: nat ::
              Result(Settle(ch).completions, i) == if i in ch.pending then Some(ORPHANED) else Result(ch.completions, i)
    ensures forall id <- ch.pending :: Result(ch.completions, id).None?
  {
    forall i: nat
      ensures Result(Settle(ch).completions, i) == if i in ch.pending then Some(ORPHANED) else Result(ch.completions, i)
    {
      ActionResult(ch, SettleAll, i);
    }
    forall id <- ch.pending
      ensures Result(ch.completions, id).None?
    {
      NoResult(ch.completions, id);
    }
  }

  class Commands {
    var nextId: nat
    var pending: map<nat, Completer>
    var listening: bool
    var outbox: seq<Envelope>
    ghost var completers: map<nat, Completer>
    ghost var ch: Channel

    /** Every call ever made has its own completer, holding what the channel's history says. */
    ghost predicate Valid()
      reads this, completers.Values
    {
      && Inv(ch)
      && nextId == ch.nextId && listening == ch.listening && outbox == ch.sent
      && (forall id: nat :: id in completers <==> id < nextId)
      && (forall id <- completers :: completers[id].call == id)
      && pending.Keys == ch.pending
      && (forall id <- pending :: id in completers && pending[id] == completers[id])
      && (forall id <- completers :: completers[id].value == Result(ch.completions, id))
    }

    constructor ()
      ensures Valid() && ch == OPENED && completers == map[]
    {
      nextId, pending, listening, outbox := 0, map[], true, [];
      completers, ch := map[], OPENED;
    }

    /** Sends a command and returns the future of its reply. */
    method Send(command: Command) returns (future: Completer)
      requires Valid()
      modifies this
      ensures Valid() && ch == CommandChannel.Send(old(ch), command)
      ensures fresh(future) && completers == old(completers)[old(nextId) := future] && future.value == None
      ensures outbox == old(outbox) + [Envelope(old(nextId), command)] && nextId == old(nextId) + 1
      ensures pending == old(pending)[old(nextId) := future]
    {
      hide Inv, Result;
      var id := nextId;
      future := new Completer(id);
      NextHasNoResult(ch);
      ActionKeepsInv(ch, Call(command));
      nextId := nextId + 1;
      pending := pending[id := future];
      outbox := outbox + [Envelope(id, command)];
      completers := completers[id := future];
      ch := CommandChannel.Send(ch, command);
    }

    /** The listener: a reply completes the call it names, if that call still waits. */
    method OnReply(id: nat, answer: Answer)
      requires Valid()
      modifies this, completers.Values
      ensures Valid() && ch == Hear(old(ch), id, answer) && completers == old(completers)
      ensures pending == if listening then old(pending) - {id} else old(pending)
      ensures forall i <- completers ::
                completers[i].value ==
                if i == id && listening && id in old(pending) then Some(answer) else old(completers[i].value)
    {
      hide Inv, Result;
      HeardResults(ch, id, answer);
      ActionKeepsInv(ch, Arrive(id, answer));
      if listening && id in pending {
        var waiting := pending[id];
        pending := pending - {id};
        waiting.Complete(answer);
      }
      ch := Hear(ch, id, answer);
    }

    /** The first half of `dispose`. */
    method StopListening()
      requires Valid()
      modifies this`listening, this`ch
      ensures Valid() && ch == Cancel(old(ch)) && completers == old(completers) && !listening
    {
      ActionKeepsInv(ch, CancelAll);
      listening := false;
      ch := Cancel(ch);
    }

    /** The completers still waiting, oldest first. */
    method Waiting() returns (ids: seq<nat>)
      requires Valid()
      ensures ids == Orphans(ch)
      ensures forall i, j | 0 <= i < j < |ids| :: ids[i] < ids[j]
      ensures forall id: nat :: id in ids <==> id in pending
    {
      ids := [];
      for id := 0 to nextId
        invariant ids == SmallestFirst(ch.pending, id)
      {
        if id in pending {
          ids := ids + [id];
        }
      }
      SmallestFirstIsAll(ch.pending, nextId);
    }

    /** The second half of `dispose`: takes the pending map away, then completes whoever was in it. */
    method CompleteOrphans()
      requires Valid()
      modifies this`pending, this`ch, completers.Values
      ensures Valid() && ch == Settle(old(ch)) && completers == old(completers) && pending == map[]
      ensures forall id <- completers ::
                completers[id].value ==
                if id in old(pending) then Some(StatusReply(Known(NotRunning), Some("the endpoint was stopped")))
                else old(completers[id].value)
    {
      hide Inv, Result, Orphans;
      var ids := Waiting();
      OrphansArePending(ch);
      SettledResults(ch);
      ActionKeepsInv(ch, SettleAll);
      var orphans := pending;
      pending := map[];
      CompleteAll(ids, orphans);
      assert forall id <- completers | id !in orphans :: completers[id] !in orphans.Values;
      ch := Settle(ch);
    }
  }

  datatype Half = Server | Client

  /** What an application holds: the stop flag is tested and the command sent in one turn. */
  class Handle {
    const half: Half
    const commands: Commands
    var stopped: bool

    constructor (half: Half, commands: Commands)
      ensures this.half == half && this.commands == commands && !stopped
    {
      this.half, this.commands, this.stopped := half, commands, false;
    }

    /** A call: refused at once when stopped, otherwise sent. */
    method Ask(command: Command) returns (refused: Option<CallStatus>, future: Option<Completer>)
      requires commands.Valid() && command != StopCommand
      modifies commands
      ensures commands.Valid() && stopped == old(stopped)
      ensures stopped ==> refused == Some(Known(NotRunning)) && future.None? && commands.ch == old(commands.ch)
      ensures !stopped ==>
                && refused.None? && commands.ch == CommandChannel.Send(old(commands.ch), command)
                && future.Some? && commands.completers == old(commands.completers)[old(commands.nextId) := future.value]
    {
      if stopped {
        return Some(Known(NotRunning)), None;
      }
      var reply := commands.Send(command);
      return None, Some(reply);
    }

    /** The stop: the flag goes up and the last command goes out; a second one is answered at once. */
    method Stop() returns (refused: Option<CallStatus>, future: Option<Completer>)
      requires commands.Valid()
      modifies this`stopped, commands
      ensures commands.Valid() && stopped
      ensures old(stopped) ==>
                && refused == Some(Known(if half == Server then NotRunning else Ok))
                && future.None? && commands.ch == old(commands.ch)
      ensures !old(stopped) ==>
                && refused.None? && commands.ch == CommandChannel.Send(old(commands.ch), StopCommand)
                && future.Some? && commands.completers == old(commands.completers)[old(commands.nextId) := future.value]
    {
      if stopped {
        return Some(Known(if half == Server then NotRunning else Ok)), None;
      }
      stopped := true;
      var reply := commands.Send(StopCommand);
      return None, Some(reply);
    }
  }
}
