/** One exchange, end to end: what writers put into a stream and what the reader at the other end says. */
module Exchange {
  import opened Events
  import opened Utf8
  import Machine = EndpointMachine
  import StreamWrites

  function Joined(chunks: seq<seq<byte>>): seq<byte> {
    if chunks == [] then [] else Joined(chunks[..|chunks| - 1]) + chunks[|chunks| - 1]
  }

  /** Pieces are joined in the order they come. */
  lemma {:induction false} JoinedJoins(a: seq<seq<byte>>, b: seq<seq<byte>>)
    ensures Joined(a + b) == Joined(a) + Joined(b)
  {
    if b == [] {
      assert a + b == a;
    } else {
      var n := |b| - 1;
      JoinedJoins(a, b[..n]);
      assert (a + b)[..|a| + n] == a + b[..n];
      Associative(Joined(a), Joined(b[..n]), b[n]);
    }
  }

  lemma JoinedOne(piece: seq<byte>)
    ensures Joined([piece]) == piece
  {
    assert [piece][..0] == [];
  }

  /** What a reader says about everything it read; `ended` is whether the peer finished. */
  function Report(key: Key, bytes: seq<byte>, ended: bool): seq<Event> {
    (if ended && Decode(bytes).Some? then [StreamData(key.0, key.1, Decode(bytes).value)] else [])
    + [StreamClosed(key.0, key.1)]
  }

  /** `read_bi_stream`: reads to the end, whatever the pieces, and only then speaks. */
  method ReadBiStream(key: Key, chunks: seq<seq<byte>>, ended: bool) returns (said: seq<Event>)
    ensures said == Report(key, Joined(chunks), ended)
    ensures ended && Decode(Joined(chunks)).Some? ==>
              exists text: string ::
                && Encode(text) == Joined(chunks)
                && said == [StreamData(key.0, key.1, text), StreamClosed(key.0, key.1)]
    ensures !ended || Decode(Joined(chunks)).None? ==> said == [StreamClosed(key.0, key.1)]
  {
    var buffer := [];
    for i := 0 to |chunks|
      invariant buffer == Joined(chunks[..i])
    {
      assert chunks[..i + 1][..i] == chunks[..i];
      buffer := buffer + chunks[i];
    }
    assert chunks[..|chunks|] == chunks;
    said := [];
    if ended {
      var text := Decode(buffer);
      if text.Some? {
        EncodeDecoded(buffer);
        said := said + [StreamData(key.0, key.1, text.value)];
      }
    }
    said := said + [StreamClosed(key.0, key.1)];
  }

  /**
   However the network cuts a finished stream into pieces, even inside a
   character, the reader says one message, the successful texts joined in lock
   order, and then that the stream is closed.
   */
  lemma WholeMessage(st: StreamWrites.State, key: Key, chunks: seq<seq<byte>>)
    requires StreamWrites.Reachable(st) && st.finished && Joined(chunks) == st.wire
    ensures Report(key, Joined(chunks), true) ==
            [StreamData(key.0, key.1, StreamWrites.Delivered(st.writers, st.order)), StreamClosed(key.0, key.1)]
  {
    StreamWrites.FinishedIsWhole(st);
    DecodeEncoded(StreamWrites.Delivered(st.writers, st.order));
  }

  // --- two endpoints and the stream between them ------------------------------------

  /** The steps by which a reader delivers its report to its own endpoint's queue. */
  function ReportSteps(key: Key, bytes: seq<byte>, ended: bool): seq<Machine.Step> {
    (if ended && Decode(bytes).Some? then
       [Machine.OfReader(key, Machine.ReadWhole(Decode(bytes).value))]
     else [])
    + [Machine.OfReader(key, Machine.ReadEnd)]
  }

  /** A reader that is reading can deliver its report in any state of the endpoint, and it says just that. */
  lemma ReaderReports(st: Machine.State, key: Key, bytes: seq<byte>, ended: bool)
    requires key in st.stages && st.stages[key].phase == Machine.Reading
    ensures Machine.CanRun(st, ReportSteps(key, bytes, ended))
    ensures Machine.Run(st, ReportSteps(key, bytes, ended)).bus.emitted ==
            st.bus.emitted + Report(key, bytes, ended)
    ensures !ended ==>
              Machine.Run(st, ReportSteps(key, bytes, ended)).bus.emitted ==
              st.bus.emitted + [StreamClosed(key.0, key.1)]
  {
    var last := Machine.OfReader(key, Machine.ReadEnd);
    if ended && Decode(bytes).Some? {
      var first := Machine.OfReader(key, Machine.ReadWhole(Decode(bytes).value));
      ReaderSpeaks(st, key, Machine.ReadWhole(Decode(bytes).value));
      var told := Machine.Apply(st, first);
      ReaderSpeaks(told, key, Machine.ReadEnd);
      hide Machine.Apply, Machine.Enabled, Decode;
      RunOne(told, last);
      assert ReportSteps(key, bytes, ended)[1..] == [last];
    } else {
      ReaderSpeaks(st, key, Machine.ReadEnd);
      hide Machine.Apply, Machine.Enabled, Decode;
      RunOne(st, last);
      assert ReportSteps(key, bytes, ended) == [last];
    }
  }

  lemma RunOne(st: Machine.State, step: Machine.Step)
    requires Machine.Enabled(st, step)
    ensures Machine.CanRun(st, [step])
    ensures Machine.Run(st, [step]) == Machine.Apply(st, step)
  {
    hide Machine.Apply, Machine.Enabled;
    var next := Machine.Apply(st, step);
    assert [step][1..] == [] && Machine.CanRun(next, []) && Machine.Run(next, []) == next;
  }

  lemma ReaderSpeaks(st: Machine.State, key: Key, move: Machine.ReaderMove)
    requires key in st.stages && Machine.ReaderMay(st.stages[key], move)
    ensures var step := Machine.OfReader(key, move);
            && Machine.Enabled(st, step)
            && Machine.Apply(st, step).bus.emitted == st.bus.emitted + Machine.ReaderSays(key, move)
            && key in Machine.Apply(st, step).stages
            && Machine.Apply(st, step).stages[key] == Machine.ReaderNext(st.stages[key], move)
  {
    var said := Machine.ReaderSays(key, move);
    assert [said[0]] == said;
  }

  // --- every interleaving ------------------------------------------------------------

  /** A step, if it is one of the stream's reader. */
  function Mine(step: Machine.Step, key: Key): seq<Machine.Step> {
    if step.OfReader? && step.key == key then [step] else []
  }

  /** The steps of one stream's reader among all the steps of a run. */
  function ReaderSteps(steps: seq<Machine.Step>, key: Key): seq<Machine.Step> {
    if steps == [] then [] else Mine(steps[0], key) + ReaderSteps(steps[1..], key)
  }

  /** What a reader says by some steps. */
  function Spoken(steps: seq<Machine.Step>): seq<Event> {
    if steps == [] then []
    else (if steps[0].OfReader? then Machine.ReaderSays(steps[0].key, steps[0].reader) else []) + Spoken(steps[1..])
  }

  lemma SpokenByOne(step: Machine.Step)
    requires step.OfReader?
    ensures Spoken([step]) == Machine.ReaderSays(step.key, step.reader)
  {
    hide Machine.ReaderSays;
    assert [step][1..] == [];
    var said := Machine.ReaderSays(step.key, step.reader);
    assert said + [] == said;
  }

  predicate HasReader(st: Machine.State, key: Key) {
    && key in st.stages
    && (st.stages[key].phase == Machine.Reading || st.stages[key].phase.Told? || st.stages[key].phase.Ended?)
  }

  /** Once a stream has its reader it keeps it, and nobody else says anything about the stream. */
  lemma OnlyReadersSpeak(st: Machine.State, step: Machine.Step, key: Key)
    requires Machine.Enabled(st, step) && HasReader(st, key)
    ensures HasReader(Machine.Apply(st, step), key)
    ensures Machine.Only(Machine.Apply(st, step).bus.emitted, Machine.Exchange(key)) ==
            Machine.Only(st.bus.emitted, Machine.Exchange(key)) + Spoken(Mine(step, key))
  {
    ReaderStays(st, step, key);
    EmitsWhatIsSaid(st, step);
    SaidIsMine(st, step, key);
    var said := Machine.Said(st, step);
    hide Machine.Apply, Machine.Enabled, Machine.Said, Machine.Only, Machine.About, HasReader;
    Machine.OnlyMore(st.bus.emitted, said, Machine.Exchange(key));
    if step.OfReader? && step.key == key {
      SpokenByOne(step);
      assert [said[0]] == said;
    } else {
      var word := Machine.Only(st.bus.emitted, Machine.Exchange(key));
      assert word + [] == word;
    }
  }

  lemma ReaderStays(st: Machine.State, step: Machine.Step, key: Key)
    requires Machine.Enabled(st, step) && HasReader(st, key)
    ensures HasReader(Machine.Apply(st, step), key)
  {
    hide Machine.NextBus, Machine.NextCalls, Machine.NextSessions, Machine.NextTasks, Machine.NextLate;
  }

  lemma SaidIsMine(st: Machine.State, step: Machine.Step, key: Key)
    requires Machine.Enabled(st, step) && HasReader(st, key)
    ensures if step.OfReader? && step.key == key then
              && Machine.Said(st, step) == Machine.ReaderSays(key, step.reader)
              && |Machine.Said(st, step)| == 1 && Machine.About(Machine.Said(st, step)[0], Machine.Exchange(key))
            else
              Machine.Said(st, step) == [] || !Machine.About(Machine.Said(st, step)[0], Machine.Exchange(key))
  {
  }

  lemma EmitsWhatIsSaid(st: Machine.State, step: Machine.Step)
    requires Machine.Enabled(st, step)
    ensures |Machine.Said(st, step)| <= 1
    ensures Machine.Apply(st, step).bus.emitted == st.bus.emitted + Machine.Said(st, step)
  {
    var said := Machine.Said(st, step);
    assert said != [] ==> [said[0]] == said;
    assert st.bus.emitted + [] == st.bus.emitted;
  }

  lemma {:induction false} SpokenJoins(a: seq<Machine.Step>, b: seq<Machine.Step>)
    ensures Spoken(a + b) == Spoken(a) + Spoken(b)
  {
    hide Machine.ReaderSays;
    if a == [] {
      assert a + b == b;
    } else {
      SpokenJoins(a[1..], b);
      assert (a + b)[1..] == a[1..] + b;
    }
  }

  /** In any run at all, what is said about a stream is what its reader's steps say, in order. */
  lemma {:induction false} RunSaysWhatItsReaderSays(st: Machine.State, steps: seq<Machine.Step>, key: Key)
    requires Machine.CanRun(st, steps) && HasReader(st, key)
    ensures Machine.Only(Machine.Run(st, steps).bus.emitted, Machine.Exchange(key)) ==
            Machine.Only(st.bus.emitted, Machine.Exchange(key)) + Spoken(ReaderSteps(steps, key))
    decreases |steps|
  {
    var word := Machine.Only(st.bus.emitted, Machine.Exchange(key));
    if steps == [] {
      assert word + [] == word;
    } else {
      var next, mine, rest := Machine.Apply(st, steps[0]), Mine(steps[0], key), ReaderSteps(steps[1..], key);
      assert ReaderSteps(steps, key) == mine + rest;
      assert Machine.CanRun(next, steps[1..]) && Machine.Run(st, steps) == Machine.Run(next, steps[1..]);
      OnlyReadersSpeak(st, steps[0], key);
      hide *;
      RunSaysWhatItsReaderSays(next, steps[1..], key);
      SpokenJoins(mine, rest);
      InThreeParts(word, Spoken(mine), Spoken(rest));
    }
  }

  lemma InThreeParts(a: seq<Event>, b: seq<Event>, c: seq<Event>)
    ensures a + b + c == a + (b + c)
  {
  }

  lemma ReportIsSpoken(key: Key, bytes: seq<byte>, ended: bool)
    ensures Spoken(ReportSteps(key, bytes, ended)) == Report(key, bytes, ended)
  {
    var last := Machine.OfReader(key, Machine.ReadEnd);
    var steps := ReportSteps(key, bytes, ended);
    hide Decode;
    assert [last][1..] == [] && Spoken([last]) == [StreamClosed(key.0, key.1)] + Spoken([]);
    if ended && Decode(bytes).Some? {
      assert steps[1..] == [last];
    } else {
      assert steps == [last];
    }
  }

  /**
   Whatever all the others do meanwhile: a reader that has carried out some of the
   steps it owes has said that much of its report, and all of it once it is through.
   */
  lemma EveryRunReports(st: Machine.State, steps: seq<Machine.Step>, key: Key, bytes: seq<byte>, ended: bool)
    requires Machine.CanRun(st, steps) && key in st.stages && st.stages[key].phase == Machine.Reading
    requires ReaderSteps(steps, key) <= ReportSteps(key, bytes, ended)
    ensures exists word: seq<Event> ::
              && word <= Report(key, bytes, ended)
              && (ReaderSteps(steps, key) == ReportSteps(key, bytes, ended) ==> word == Report(key, bytes, ended))
              && Machine.Only(Machine.Run(st, steps).bus.emitted, Machine.Exchange(key)) ==
                 Machine.Only(st.bus.emitted, Machine.Exchange(key)) + word
  {
    RunSaysWhatItsReaderSays(st, steps, key);
    ReportIsSpoken(key, bytes, ended);
    var mine, owed := ReaderSteps(steps, key), ReportSteps(key, bytes, ended);
    assert owed == mine + owed[|mine|..];
    SpokenJoins(mine, owed[|mine|..]);
    hide Machine.Only, Machine.Run, Machine.CanRun, Spoken, ReaderSteps, ReportSteps, Report;
    var word := Spoken(mine);
    assert word <= Report(key, bytes, ended);
  }

  /**
   End to end, in every run of the receiving endpoint: a finished stream, however
   cut, makes the far log say its whole text once and then that it is closed, and
   before its reader is through a beginning of that.
   */
  lemma ExchangeArrives(sender: StreamWrites.State, chunks: seq<seq<byte>>,
                        receiver: Machine.State, steps: seq<Machine.Step>, key: Key)
    requires StreamWrites.Reachable(sender) && sender.finished && Joined(chunks) == sender.wire
    requires key in receiver.stages && receiver.stages[key].phase == Machine.Reading
    requires Machine.CanRun(receiver, steps)
    requires ReaderSteps(steps, key) <= ReportSteps(key, Joined(chunks), true)
    ensures var whole := [StreamData(key.0, key.1, StreamWrites.Delivered(sender.writers, sender.order)),
                          StreamClosed(key.0, key.1)];
            exists word: seq<Event> ::
              && word <= whole
              && (ReaderSteps(steps, key) == ReportSteps(key, Joined(chunks), true) ==> word == whole)
              && Machine.Only(Machine.Run(receiver, steps).bus.emitted, Machine.Exchange(key)) ==
                 Machine.Only(receiver.bus.emitted, Machine.Exchange(key)) + word
  {
    WholeMessage(sender, key, chunks);
    hide Machine.Only, Machine.Run, Machine.CanRun, ReaderSteps, ReportSteps, Report, StreamWrites.Reachable;
    EveryRunReports(receiver, steps, key, Joined(chunks), true);
  }
}
