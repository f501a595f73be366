/** How an event crosses the boundary: written by rust/src/event.rs, read by lib/src/quic_event.dart. */
module EventCodec {
  import opened Events
  import opened CStrings
  import Json

  datatype Kind =
    | OpenedSession | ClosedSession | GotDatagram | GotMessage
    | OpenedStream | GotData | ClosedStream | FailedEndpoint

  function KindOf(e: Event): Kind {
    match e
    case SessionOpened(_, _, _) => OpenedSession
    case SessionClosed(_, _) => ClosedSession
    case Datagram(_, _) => GotDatagram
    case StreamMessage(_, _) => GotMessage
    case StreamOpened(_, _) => OpenedStream
    case StreamData(_, _, _) => GotData
    case StreamClosed(_, _) => ClosedStream
    case EndpointError(_) => FailedEndpoint
  }

  /** The name a kind travels under (rust/src/event.rs:79-90). */
  function KindName(kind: Kind): string {
    match kind
    case OpenedSession => "sessionOpened"
    case ClosedSession => "sessionClosed"
    case GotDatagram => "datagram"
    case GotMessage => "streamMessage"
    case OpenedStream => "streamOpened"
    case GotData => "streamData"
    case ClosedStream => "streamClosed"
    case FailedEndpoint => "endpointError"
  }

  /** The branch a name selects on the Dart side; an unknown name selects none. */
  function Resolve(name: string): Option<Kind> {
    if name == "sessionOpened" then Some(OpenedSession)
    else if name == "sessionClosed" then Some(ClosedSession)
    else if name == "datagram" then Some(GotDatagram)
    else if name == "streamMessage" then Some(GotMessage)
    else if name == "streamOpened" then Some(OpenedStream)
    else if name == "streamData" then Some(GotData)
    else if name == "streamClosed" then Some(ClosedStream)
    else if name == "endpointError" then Some(FailedEndpoint)
    else None
  }

  lemma ResolveUndoesName(kind: Kind)
    ensures Resolve(KindName(kind)) == Some(kind)
  {
  }

  /** The serialised form: the kind's name first, then the fields in camel case. */
  function EventFields(e: Event): (fields: seq<Json.Field>)
    ensures fields != []
  {
    [Json.Text("kind", KindName(KindOf(e)))] +
    match e
    case SessionOpened(s, authority, path) =>
      [Json.Number("sessionId", s), Json.Text("authority", authority), Json.Text("path", path)]
    case SessionClosed(s, reason) => [Json.Number("sessionId", s), Json.Text("reason", reason)]
    case Datagram(s, utf8) => [Json.Number("sessionId", s), Json.Text("utf8", utf8)]
    case StreamMessage(s, utf8) => [Json.Number("sessionId", s), Json.Text("utf8", utf8)]
    case StreamOpened(s, k) => [Json.Number("sessionId", s), Json.Number("streamId", k)]
    case StreamData(s, k, utf8) => [Json.Number("sessionId", s), Json.Number("streamId", k), Json.Text("utf8", utf8)]
    case StreamClosed(s, k) => [Json.Number("sessionId", s), Json.Number("streamId", k)]
    case EndpointError(message) => [Json.Text("message", message)]
  }

  function ToJson(e: Event): string {
    Json.WriteObject(EventFields(e))
  }

  /** What Dart makes of an event. */
  datatype QuicEvent =
    | QuicSessionOpened(sessionId: int, authority: string, path: string)
    | QuicSessionClosed(sessionId: int, reason: string)
    | QuicDatagram(sessionId: int, message: string)
    | QuicStreamMessage(sessionId: int, message: string)
    | QuicStreamOpened(sessionId: int, streamId: int)
    | QuicStreamData(sessionId: int, streamId: int, message: string)
    | QuicStreamClosed(sessionId: int, streamId: int)
    | QuicEndpointError(message: string)
    | UnknownQuicEvent(kind: string, raw: string)

  /** A missing or mistyped field reads as absent. */
  function NumberIn(fields: map<string, Json.Value>, key: string): int {
    if key in fields && fields[key].Int? then fields[key].n else -1
  }

  function TextIn(fields: map<string, Json.Value>, key: string): string {
    if key in fields && fields[key].Str? then fields[key].s else ""
  }

  /** Reads any text whatever; what it cannot make sense of it keeps whole. */
  function FromJson(json: string): QuicEvent {
    match Json.Read(json)
    case None => UnknownQuicEvent("<unparsable>", json)
    case Some(Obj(fields)) =>
      if "kind" !in fields || !fields["kind"].Str? then UnknownQuicEvent("<no kind>", json)
      else OfKind(fields["kind"].s, fields, json)
    case Some(_) => UnknownQuicEvent("<not an object>", json)
  }

  function OfKind(name: string, fields: map<string, Json.Value>, json: string): QuicEvent {
    match Resolve(name)
    case None => UnknownQuicEvent(name, json)
    case Some(OpenedSession) =>
      QuicSessionOpened(NumberIn(fields, "sessionId"), TextIn(fields, "authority"), TextIn(fields, "path"))
    case Some(ClosedSession) => QuicSessionClosed(NumberIn(fields, "sessionId"), TextIn(fields, "reason"))
    case Some(GotDatagram) => QuicDatagram(NumberIn(fields, "sessionId"), TextIn(fields, "utf8"))
    case Some(GotMessage) => QuicStreamMessage(NumberIn(fields, "sessionId"), TextIn(fields, "utf8"))
    case Some(OpenedStream) => QuicStreamOpened(NumberIn(fields, "sessionId"), NumberIn(fields, "streamId"))
    case Some(GotData) =>
      QuicStreamData(NumberIn(fields, "sessionId"), NumberIn(fields, "streamId"), TextIn(fields, "utf8"))
    case Some(ClosedStream) => QuicStreamClosed(NumberIn(fields, "sessionId"), NumberIn(fields, "streamId"))
    case Some(FailedEndpoint) => QuicEndpointError(TextIn(fields, "message"))
  }

  /** The Dart event that says the same as a native one. */
  function Same(e: Event): QuicEvent {
    match e
    case SessionOpened(s, authority, path) => QuicSessionOpened(s, authority, path)
    case SessionClosed(s, reason) => QuicSessionClosed(s, reason)
    case Datagram(s, utf8) => QuicDatagram(s, utf8)
    case StreamMessage(s, utf8) => QuicStreamMessage(s, utf8)
    case StreamOpened(s, k) => QuicStreamOpened(s, k)
    case StreamData(s, k, utf8) => QuicStreamData(s, k, utf8)
    case StreamClosed(s, k) => QuicStreamClosed(s, k)
    case EndpointError(message) => QuicEndpointError(message)
  }

  /** Whether its ids fit a signed 64-bit integer. */
  predicate IdsFit(e: Event) {
    && (!e.EndpointError? ==> e.session < Json.INT_LIMIT)
    && (e.StreamOpened? || e.StreamData? || e.StreamClosed? ==> e.stream < Json.INT_LIMIT)
  }

  /** What a field of distinct name reads back as. */
  lemma {:induction false} FieldAt(fields: seq<Json.Field>, i: nat)
    requires i < |fields| && forall j, k | 0 <= j < k < |fields| :: fields[j].key != fields[k].key
    ensures fields[i].key in Json.Fields(fields) && Json.Fields(fields)[fields[i].key] == Json.Meaning(fields[i])
  {
    hide Json.Meaning;
    if i > 0 {
      FieldAt(fields[1..], i - 1);
    } else {
      OnlyOwnKeys(fields[1..], fields[0].key);
    }
  }

  lemma {:induction false} OnlyOwnKeys(fields: seq<Json.Field>, key: string)
    requires forall f <- fields :: f.key != key
    ensures key !in Json.Fields(fields)
  {
    if fields != [] {
      OnlyOwnKeys(fields[1..], key);
    }
  }

  /** Every field of an event reads back as what it means. */
  lemma FieldsAreRead(e: Event, fields: map<string, Json.Value>)
    requires fields == Json.Fields(EventFields(e))
    ensures forall f <- EventFields(e) :: f.key in fields && fields[f.key] == Json.Meaning(f)
  {
    hide EventFields, Json.Meaning, Json.Fields;
    KeysDiffer(e);
    forall i | 0 <= i < |EventFields(e)|
      ensures EventFields(e)[i].key in fields && fields[EventFields(e)[i].key] == Json.Meaning(EventFields(e)[i])
    {
      FieldAt(EventFields(e), i);
    }
  }

  /** What Dart reads in an event's number field. */
  function Narrow(n: nat): int {
    if n < Json.INT_LIMIT then n else -1
  }

  lemma NumberIsRead(e: Event, i: nat, fields: map<string, Json.Value>)
    requires fields == Json.Fields(EventFields(e)) && i < |EventFields(e)|
    ensures EventFields(e)[i].Number? ==> NumberIn(fields, EventFields(e)[i].key) == Narrow(EventFields(e)[i].n)
    ensures EventFields(e)[i].Text? ==> TextIn(fields, EventFields(e)[i].key) == EventFields(e)[i].text
  {
    FieldsAreRead(e, fields);
    assert EventFields(e)[i] in EventFields(e);
    hide EventFields, Json.Fields, Json.Decimal;
  }

  /** What Dart makes of an event that crossed, whatever its ids. */
  function Crossed(e: Event): QuicEvent {
    match e
    case SessionOpened(s, authority, path) => QuicSessionOpened(Narrow(s), authority, path)
    case SessionClosed(s, reason) => QuicSessionClosed(Narrow(s), reason)
    case Datagram(s, utf8) => QuicDatagram(Narrow(s), utf8)
    case StreamMessage(s, utf8) => QuicStreamMessage(Narrow(s), utf8)
    case StreamOpened(s, k) => QuicStreamOpened(Narrow(s), Narrow(k))
    case StreamData(s, k, utf8) => QuicStreamData(Narrow(s), Narrow(k), utf8)
    case StreamClosed(s, k) => QuicStreamClosed(Narrow(s), Narrow(k))
    case EndpointError(message) => QuicEndpointError(message)
  }

  lemma KindIsRead(e: Event, json: string)
    ensures OfKind(KindName(KindOf(e)), Json.Fields(EventFields(e)), json) == Crossed(e)
  {
    var fields := Json.Fields(EventFields(e));
    ResolveUndoesName(KindOf(e));
    NumberIsRead(e, 1, fields);
    if |EventFields(e)| > 2 {
      NumberIsRead(e, 2, fields);
    }
    if |EventFields(e)| > 3 {
      NumberIsRead(e, 3, fields);
    }
    hide KindName, Resolve, NumberIn, TextIn, Narrow, Json.Fields;
  }

  lemma EventIsRead(e: Event)
    ensures FromJson(ToJson(e)) == Crossed(e)
  {
    var fields := EventFields(e);
    Json.ObjectReads(fields);
    FieldsAreRead(e, Json.Fields(fields));
    assert fields[0] in fields && fields[0] == Json.Text("kind", KindName(KindOf(e)));
    KindIsRead(e, ToJson(e));
    hide Json.Read, Json.Fields, Json.WriteObject, EventFields, KindName, OfKind, Crossed;
  }

  /** Decoding what was encoded gives the same event back, exactly when its ids fit. */
  lemma RoundTrip(e: Event)
    ensures FromJson(ToJson(e)) == Same(e) <==> IdsFit(e)
    ensures IdsFit(e) <==>
            && (!e.EndpointError? ==> e.session < 0x8000_0000_0000_0000)
            && (e.StreamOpened? || e.StreamData? || e.StreamClosed? ==> e.stream < 0x8000_0000_0000_0000)
  {
    hide FromJson, ToJson;
    EventIsRead(e);
  }

  lemma KeysDiffer(e: Event)
    ensures |EventFields(e)| >= 2
    ensures forall j, k | 0 <= j < k < |EventFields(e)| :: EventFields(e)[j].key != EventFields(e)[k].key
  {
  }

  /** So no two events with fitting ids are written alike. */
  lemma NothingIsConfused(a: Event, b: Event)
    requires IdsFit(a) && IdsFit(b) && ToJson(a) == ToJson(b)
    ensures a == b
  {
    hide FromJson, ToJson;
    RoundTrip(a);
    RoundTrip(b);
  }

  // --- the two sides, each by itself ---------------------------------------------------

  /** A member of a written object. */
  function Member(name: string, value: string): string {
    "\"" + name + "\":" + value
  }

  function Kinded(kind: string): string {
    "\"kind\":\"" + kind + "\""
  }

  /** What the native side writes, member by member. */
  lemma NativeTexts(e: Event)
    ensures ToJson(e) ==
            "{" + (match e
                   case SessionOpened(s, authority, path) =>
                     Kinded("sessionOpened") + "," + (Member("sessionId", Json.Decimal(s)) + ","
                     + (Member("authority", Json.Quote(authority)) + "," + Member("path", Json.Quote(path))))
                   case SessionClosed(s, reason) =>
                     Kinded("sessionClosed") + "," + (Member("sessionId", Json.Decimal(s)) + ","
                     + Member("reason", Json.Quote(reason)))
                   case Datagram(s, utf8) =>
                     Kinded("datagram") + "," + (Member("sessionId", Json.Decimal(s)) + ","
                     + Member("utf8", Json.Quote(utf8)))
                   case StreamMessage(s, utf8) =>
                     Kinded("streamMessage") + "," + (Member("sessionId", Json.Decimal(s)) + ","
                     + Member("utf8", Json.Quote(utf8)))
                   case StreamOpened(s, k) =>
                     Kinded("streamOpened") + "," + (Member("sessionId", Json.Decimal(s)) + ","
                     + Member("streamId", Json.Decimal(k)))
                   case StreamData(s, k, utf8) =>
                     Kinded("streamData") + "," + (Member("sessionId", Json.Decimal(s)) + ","
                     + (Member("streamId", Json.Decimal(k)) + "," + Member("utf8", Json.Quote(utf8))))
                   case StreamClosed(s, k) =>
                     Kinded("streamClosed") + "," + (Member("sessionId", Json.Decimal(s)) + ","
                     + Member("streamId", Json.Decimal(k)))
                   case EndpointError(message) =>
                     Kinded("endpointError") + "," + Member("message", Json.Quote(message))) + "}"
  {
    NamesArePlain();
    KindsArePlain();
    hide Plain, Kinded, Member, Json.Quote, Json.Decimal, Json.WriteField, Json.WriteFields;
    match e
    case SessionOpened(s, authority, path) =>
      FourMembers("sessionOpened", s, Json.Text("authority", authority), Json.Text("path", path));
      assert EventFields(e) == [Json.Text("kind", "sessionOpened"), Json.Number("sessionId", s),
                                Json.Text("authority", authority), Json.Text("path", path)];
    case SessionClosed(s, reason) => ThreeFields(e, "sessionClosed", s, Json.Text("reason", reason));
    case Datagram(s, utf8) => ThreeFields(e, "datagram", s, Json.Text("utf8", utf8));
    case StreamMessage(s, utf8) => ThreeFields(e, "streamMessage", s, Json.Text("utf8", utf8));
    case StreamOpened(s, k) => ThreeFields(e, "streamOpened", s, Json.Number("streamId", k));
    case StreamData(s, k, utf8) =>
      FourMembers("streamData", s, Json.Number("streamId", k), Json.Text("utf8", utf8));
      assert EventFields(e) == [Json.Text("kind", "streamData"), Json.Number("sessionId", s),
                                Json.Number("streamId", k), Json.Text("utf8", utf8)];
    case StreamClosed(s, k) => ThreeFields(e, "streamClosed", s, Json.Number("streamId", k));
    case EndpointError(message) =>
      TwoMembers("endpointError", Json.Text("message", message));
      assert EventFields(e) == [Json.Text("kind", "endpointError"), Json.Text("message", message)];
  }

  lemma ThreeFields(e: Event, kind: string, s: nat, last: Json.Field)
    requires Plain(kind) && Plain(last.key)
    requires EventFields(e) == [Json.Text("kind", kind)] + [Json.Number("sessionId", s), last]
    ensures ToJson(e) == "{" + (Kinded(kind) + "," + (Member("sessionId", Json.Decimal(s)) + "," + Written(last))) + "}"
  {
    ThreeMembers(kind, s, last);
    hide EventFields, Plain, Kinded, Member, Written, Json.WriteFields;
    assert [Json.Text("kind", kind)] + [Json.Number("sessionId", s), last] ==
           [Json.Text("kind", kind), Json.Number("sessionId", s), last];
  }

  predicate Plain(text: string) {
    forall i | 0 <= i < |text| :: text[i] >= ' ' && text[i] != '"' && text[i] != '\\'
  }

  lemma NamesArePlain()
    ensures Plain("kind") && Plain("sessionId") && Plain("streamId") && Plain("authority")
    ensures Plain("path") && Plain("reason") && Plain("utf8") && Plain("message")
  {
  }

  lemma KindsArePlain()
    ensures Plain("sessionOpened") && Plain("sessionClosed") && Plain("datagram") && Plain("streamMessage")
    ensures Plain("streamOpened") && Plain("streamData") && Plain("streamClosed") && Plain("endpointError")
  {
  }

  lemma {:induction false} PlainIsEscaped(text: string)
    requires Plain(text)
    ensures Json.Escape(text) == text
  {
    if text != [] {
      PlainIsEscaped(text[1..]);
      assert text == [text[0]] + text[1..];
    }
  }

  lemma PlainIsQuoted(text: string)
    requires Plain(text)
    ensures Json.Quote(text) == "\"" + text + "\""
  {
    PlainIsEscaped(text);
    hide Json.Escape, Plain;
  }

  lemma MemberIsWritten(f: Json.Field)
    requires Plain(f.key)
    ensures Json.WriteField(f) == Member(f.key, if f.Text? then Json.Quote(f.text) else Json.Decimal(f.n))
  {
    PlainIsQuoted(f.key);
    hide Json.Quote, Json.Decimal, Plain;
    var value := Json.WriteValue(f);
    assert "\"" + f.key + "\"" + ":" + value == "\"" + f.key + "\":" + value;
  }

  lemma KindIsWritten(kind: string)
    requires Plain(kind)
    ensures Json.WriteField(Json.Text("kind", kind)) == Kinded(kind)
  {
    NamesArePlain();
    MemberIsWritten(Json.Text("kind", kind));
    PlainIsQuoted(kind);
    hide Json.Quote, Plain, Json.WriteField;
    assert "\"" + "kind" + "\":" + ("\"" + kind + "\"") == "\"kind\":\"" + kind + "\"";
  }

  function Written(f: Json.Field): string {
    Member(f.key, if f.Text? then Json.Quote(f.text) else Json.Decimal(f.n))
  }

  lemma TwoMembers(kind: string, last: Json.Field)
    requires Plain(kind) && Plain(last.key)
    ensures Json.WriteFields([Json.Text("kind", kind), last]) == Kinded(kind) + "," + Written(last)
  {
    KindIsWritten(kind);
    MemberIsWritten(last);
    hide Plain, Kinded, Member, Json.WriteField, Json.Quote, Json.Decimal;
    FirstIsWritten(Json.Text("kind", kind), [last]);
  }

  lemma FirstIsWritten(f: Json.Field, rest: seq<Json.Field>)
    requires rest != []
    ensures Json.WriteFields([f] + rest) == Json.WriteField(f) + "," + Json.WriteFields(rest)
    ensures |rest| == 1 ==> Json.WriteFields(rest) == Json.WriteField(rest[0])
  {
    hide Json.WriteField;
    assert ([f] + rest)[1..] == rest;
  }

  lemma ThreeMembers(kind: string, s: nat, last: Json.Field)
    requires Plain(kind) && Plain(last.key)
    ensures Json.WriteFields([Json.Text("kind", kind), Json.Number("sessionId", s), last]) ==
            Kinded(kind) + "," + (Member("sessionId", Json.Decimal(s)) + "," + Written(last))
  {
    NamesArePlain();
    KindIsWritten(kind);
    MemberIsWritten(Json.Number("sessionId", s));
    MemberIsWritten(last);
    hide Plain, Kinded, Member, Json.WriteField, Json.Quote, Json.Decimal, Json.WriteFields;
    FirstIsWritten(Json.Number("sessionId", s), [last]);
    FirstIsWritten(Json.Text("kind", kind), [Json.Number("sessionId", s), last]);
    assert [Json.Text("kind", kind)] + [Json.Number("sessionId", s), last] ==
           [Json.Text("kind", kind), Json.Number("sessionId", s), last];
    assert [Json.Number("sessionId", s)] + [last] == [Json.Number("sessionId", s), last];
  }

  lemma FourMembers(kind: string, s: nat, third: Json.Field, last: Json.Field)
    requires Plain(kind) && Plain(third.key) && Plain(last.key)
    ensures Json.WriteFields([Json.Text("kind", kind), Json.Number("sessionId", s), third, last]) ==
            Kinded(kind) + "," + (Member("sessionId", Json.Decimal(s)) + "," + (Written(third) + "," + Written(last)))
  {
    hide Plain, Kinded, Member, Written, Json.WriteField, Json.Quote, Json.Decimal, Json.WriteFields;
    KindIsWritten(kind);
    LastThree(s, third, last);
    FirstIsWritten(Json.Text("kind", kind), [Json.Number("sessionId", s), third, last]);
    assert [Json.Text("kind", kind)] + [Json.Number("sessionId", s), third, last] ==
           [Json.Text("kind", kind), Json.Number("sessionId", s), third, last];
  }

  lemma LastThree(s: nat, third: Json.Field, last: Json.Field)
    requires Plain(third.key) && Plain(last.key)
    ensures Json.WriteFields([Json.Number("sessionId", s), third, last]) ==
            Member("sessionId", Json.Decimal(s)) + "," + (Written(third) + "," + Written(last))
  {
    NamesArePlain();
    MemberIsWritten(Json.Number("sessionId", s));
    MemberIsWritten(third);
    MemberIsWritten(last);
    hide Plain, Member, Json.WriteField, Json.Quote, Json.Decimal, Json.WriteFields;
    FirstIsWritten(third, [last]);
    FirstIsWritten(Json.Number("sessionId", s), [third, last]);
    assert [Json.Number("sessionId", s)] + [third, last] == [Json.Number("sessionId", s), third, last];
    assert [third] + [last] == [third, last];
  }

  /** A field that is absent or of another type reads as -1 or as the empty text, and any other as itself. */
  lemma FieldReadsAs(fields: map<string, Json.Value>, key: string)
    ensures key in fields && fields[key].Int? ==> NumberIn(fields, key) == fields[key].n
    ensures key !in fields || !fields[key].Int? ==> NumberIn(fields, key) == -1
    ensures key in fields && fields[key].Str? ==> TextIn(fields, key) == fields[key].s
    ensures key !in fields || !fields[key].Str? ==> TextIn(fields, key) == ""
  {
  }

  /** What Dart makes of any text that is an object with a kind, name by name; any other name is kept whole. */
  lemma DartReads(json: string, fields: map<string, Json.Value>, name: string)
    requires Json.Read(json) == Some(Json.Obj(fields)) && "kind" in fields && fields["kind"] == Json.Str(name)
    ensures FromJson(json) ==
            var session, stream := NumberIn(fields, "sessionId"), NumberIn(fields, "streamId");
            if name == "sessionOpened" then
              QuicSessionOpened(session, TextIn(fields, "authority"), TextIn(fields, "path"))
            else if name == "sessionClosed" then QuicSessionClosed(session, TextIn(fields, "reason"))
            else if name == "datagram" then QuicDatagram(session, TextIn(fields, "utf8"))
            else if name == "streamMessage" then QuicStreamMessage(session, TextIn(fields, "utf8"))
            else if name == "streamOpened" then QuicStreamOpened(session, stream)
            else if name == "streamData" then QuicStreamData(session, stream, TextIn(fields, "utf8"))
            else if name == "streamClosed" then QuicStreamClosed(session, stream)
            else if name == "endpointError" then QuicEndpointError(TextIn(fields, "message"))
            else UnknownQuicEvent(name, json)
  {
    hide Json.Read, NumberIn, TextIn;
  }

  /** The other texts: no JSON, no object, no kind; nothing is ever thrown away. */
  lemma DartKeepsTheRest(json: string)
    ensures Json.Read(json).None? ==> FromJson(json) == UnknownQuicEvent("<unparsable>", json)
    ensures Json.Read(json).Some? && !Json.Read(json).value.Obj? ==>
              FromJson(json) == UnknownQuicEvent("<not an object>", json)
    ensures forall fields: map<string, Json.Value> | Json.Read(json) == Some(Json.Obj(fields)) ::
              "kind" !in fields || !fields["kind"].Str? ==> FromJson(json) == UnknownQuicEvent("<no kind>", json)
    ensures FromJson(json).UnknownQuicEvent? ==> FromJson(json).raw == json
    ensures !FromJson(json).UnknownQuicEvent? <==>
            exists fields: map<string, Json.Value> ::
              && Json.Read(json) == Some(Json.Obj(fields)) && "kind" in fields && fields["kind"].Str?
              && fields["kind"].s in {"sessionOpened", "sessionClosed", "datagram", "streamMessage", "streamOpened",
                                      "streamData", "streamClosed", "endpointError"}
  {
    hide Json.Read, NumberIn, TextIn;
    if Json.Read(json).Some? && Json.Read(json).value.Obj? {
      var fields := Json.Read(json).value.fields;
      assert Json.Read(json) == Some(Json.Obj(fields));
    }
  }

  // --- as a native string ------------------------------------------------------------

  /** Serialised text never holds a NUL, so it crosses as a C string unchanged. */
  lemma JsonCrossesWhole(e: Event)
    ensures 0 as char !in ToJson(e)
    ensures FromCString(IntoCString(ToJson(e))) == Some(ToJson(e))
  {
    hide FromCString, IntoCString, EventFields, Json.WriteFields;
    Json.FieldsArePrintable(EventFields(e));
    assert Json.Printable(ToJson(e));
    CStringCarries(ToJson(e));
  }
}
