/** What the single steps of a call do to the state, spelt out. */
module EndpointCalls {
  import opened Events
  import opened EventBus
  import opened EndpointMachine

  /** A call that is not `open_stream` touches its own entry, and the stream it takes. */
  lemma ApplyCall(m: State, step: Step)
    requires Enabled(m, step) && (step.Begin? || (step.OfCall? && (step.move.Look? || step.move.Finish?)))
    ensures Apply(m, step) ==
            m.(calls := NextCalls(m, step), streams := m.streams - Taking(m, step),
               taken := m.taken + multiset(Taking(m, step)))
  {
    hide NextCalls, Taking, Enabled;
    var next := Apply(m, step);
    assert Entering(m, step) == {} && Purging(m, step) == {};
    assert m.streams + {} == m.streams && m.purged + multiset{} == m.purged;
    assert next.late == m.late;
  }

  lemma CallBegins(m: State, c: nat, op: Operation)
    requires c !in m.calls && !m.dropped
    ensures Enabled(m, Begin(c, op))
    ensures Apply(m, Begin(c, op)) == m.(calls := m.calls[c := Call(op, Begun, Known(m.bus))])
  {
    hide Apply, Known;
    ApplyCall(m, Begin(c, op));
    assert Taking(m, Begin(c, op)) == {};
    assert m.streams - {} == m.streams && m.taken + multiset{} == m.taken;
  }

  lemma CallLooks(m: State, c: nat)
    requires c in m.calls && m.calls[c].progress == Begun
    ensures Enabled(m, OfCall(c, Look))
    ensures var op := m.calls[c].op;
            var found := if op.StreamClose? then m.streams * {op.key} else {};
            var look := if Finds(m.sessions, m.streams, op) then Holding else Answered(UnknownHandle);
            Apply(m, OfCall(c, Look)) ==
              m.(calls := m.calls[c := m.calls[c].(progress := look)],
                 streams := m.streams - found, taken := m.taken + multiset(found))
  {
    hide Apply, Finds;
    ApplyCall(m, OfCall(c, Look));
    assert m.calls[c].op.StreamClose? ==>
             Taking(m, OfCall(c, Look)) == m.streams * {m.calls[c].op.key};
  }

  lemma CallFinishes(m: State, c: nat, well: bool)
    requires c in m.calls && CallMay(m.calls[c], Finish(well))
    ensures Enabled(m, OfCall(c, Finish(well)))
    ensures Apply(m, OfCall(c, Finish(well))) ==
            m.(calls := m.calls[c := m.calls[c].(progress := Answered(if well then Ok else PeerGone))])
  {
    hide Apply, Finds;
    ApplyCall(m, OfCall(c, Finish(well)));
    assert Taking(m, OfCall(c, Finish(well))) == {};
    assert m.streams - {} == m.streams && m.taken + multiset{} == m.taken;
  }

  lemma StreamEnters(m: State, c: nat, k: nat)
    requires Inv(m) && c in m.calls && m.calls[c].op.OpenStream? && m.calls[c].progress == Holding
    requires m.calls[c].op.session in m.sessions && (m.calls[c].op.session, k) !in m.stages
    ensures var key := (m.calls[c].op.session, k);
            && Enabled(m, OfCall(c, EnterLocal(k)))
            && Apply(m, OfCall(c, EnterLocal(k))) ==
                 m.(calls := m.calls[c := m.calls[c].(progress := Inserted(k))],
                    streams := m.streams + {key}, stages := m.stages[key := Stage(Local, Entered)])
  {
    var step := OfCall(c, EnterLocal(k));
    assert !Swept(m.tasks, m.calls[c].op.session);
    assert NextLate(m, step) == m.late;
    assert Taking(m, step) == {} && Purging(m, step) == {};
    assert m.purged + multiset{} == m.purged && m.taken + multiset{} == m.taken;
  }

  lemma StreamSpawns(m: State, c: nat, k: nat)
    requires c in m.calls && m.calls[c].op.OpenStream? && m.calls[c].progress == Inserted(k)
    requires StageIs(m.stages, (m.calls[c].op.session, k), Stage(Local, Entered))
    ensures var key := (m.calls[c].op.session, k);
            && Enabled(m, OfCall(c, SpawnLocal))
            && Apply(m, OfCall(c, SpawnLocal)) ==
                 m.(calls := m.calls[c := m.calls[c].(progress := Answered(Ok))],
                    stages := m.stages[key := Stage(Local, Reading)])
  {
    var step := OfCall(c, SpawnLocal);
    assert Entering(m, step) == {} && Taking(m, step) == {} && Purging(m, step) == {};
    assert NextLate(m, step) == m.late && m.streams + {} - {} - {} == m.streams;
    assert m.purged + multiset{} == m.purged && m.taken + multiset{} == m.taken;
  }
}
