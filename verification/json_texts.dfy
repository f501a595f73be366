/** Whole JSON texts: sections 2 to 5 of RFC 8259, against the reader. */
module JsonTexts {
  import opened Events
  import opened Json
  import opened JsonGrammar
  import opened JsonNumbers

  /** The ways to spell a value; every field named for its place holds the blanks that stand there. */
  datatype Tree =
    | NullTree
    | BoolTree(b: bool)
    | NumberTree(n: Numeral)
    | StringTree(pieces: seq<Piece>)
    | NoItems(blank: string)
    | ItemsTree(items: Items)
    | NoMembers(blank: string)
    | MembersTree(lead: string, members: Members)

  datatype Items =
    | LastItem(before: string, item: Tree, after: string)
    | MoreItems(before: string, item: Tree, after: string, rest: Items)

  datatype Members =
    | LastMember(key: seq<Piece>, gap: string, before: string, value: Tree, after: string)
    | MoreMembers(key: seq<Piece>, gap: string, before: string, value: Tree, after: string, next: string, rest: Members)

  predicate TreeOk(t: Tree) {
    match t
    case NumberTree(n) => NumeralOk(n)
    case StringTree(pieces) => PiecesOk(pieces)
    case NoItems(blank) => Blank(blank)
    case ItemsTree(items) => ItemsOk(items)
    case NoMembers(blank) => Blank(blank)
    case MembersTree(lead, members) => Blank(lead) && MembersOk(members)
    case _ => true
  }

  predicate ItemsOk(items: Items) {
    && Blank(items.before) && TreeOk(items.item) && Blank(items.after)
    && (items.MoreItems? ==> ItemsOk(items.rest))
  }

  predicate MembersOk(m: Members) {
    && PiecesOk(m.key) && Blank(m.gap) && Blank(m.before) && TreeOk(m.value) && Blank(m.after)
    && (m.MoreMembers? ==> Blank(m.next) && MembersOk(m.rest))
  }

  function StringText(pieces: seq<Piece>): string {
    "\"" + (PiecesText(pieces) + "\"")
  }

  function TreeText(t: Tree): string {
    match t
    case NullTree => "null"
    case BoolTree(b) => if b then "true" else "false"
    case NumberTree(n) => NumeralText(n)
    case StringTree(pieces) => StringText(pieces)
    case NoItems(blank) => "[" + (blank + "]")
    case ItemsTree(items) => "[" + ItemsText(items)
    case NoMembers(blank) => "{" + (blank + "}")
    case MembersTree(lead, members) => "{" + (lead + MembersText(members))
  }

  function ItemsText(items: Items): string {
    items.before + (TreeText(items.item) + (items.after +
      if items.LastItem? then "]" else "," + ItemsText(items.rest)))
  }

  function MembersText(m: Members): string {
    StringText(m.key) + (m.gap + (":" + (m.before + (TreeText(m.value) + (m.after +
      if m.LastMember? then "}" else "," + (m.next + MembersText(m.rest)))))))
  }

  function TreeValue(t: Tree): Value
    requires TreeOk(t)
  {
    match t
    case NullTree => Null
    case BoolTree(b) => Bool(b)
    case NumberTree(n) => NumeralValue(n)
    case StringTree(pieces) => Str(PiecesChars(pieces))
    case NoItems(_) => Arr([])
    case ItemsTree(items) => Arr(ItemsValue(items))
    case NoMembers(_) => Obj(map[])
    case MembersTree(_, members) => Obj(MembersValue(members))
  }

  function ItemsValue(items: Items): seq<Value>
    requires ItemsOk(items)
  {
    [TreeValue(items.item)] + if items.LastItem? then [] else ItemsValue(items.rest)
  }

  /** Of two members with one name the later counts. */
  function MembersValue(m: Members): map<string, Value>
    requires MembersOk(m)
  {
    map[PiecesChars(m.key) := TreeValue(m.value)] + if m.LastMember? then map[] else MembersValue(m.rest)
  }

  // --- what the grammar spells is read -----------------------------------------------------

  predicate NoBlankFirst(s: string) {
    s == [] || s[0] !in " \t\n\r"
  }

  lemma {:induction false} SkipBlank(blank: string, s: string)
    requires Blank(blank) && NoBlankFirst(s)
    ensures Skip(blank + s) == s
  {
    if blank == [] {
      assert blank + s == s;
    } else {
      SkipBlank(blank[1..], s);
      assert (blank + s)[1..] == blank[1..] + s;
    }
  }

  lemma {:induction false} ReadBlank(blank: string, s: string)
    requires Blank(blank)
    ensures ReadValue(blank + s) == ReadValue(s)
  {
    if blank == [] {
      assert blank + s == s;
    } else {
      ReadBlank(blank[1..], s);
      assert (blank + s)[1..] == blank[1..] + s;
      hide Begins, ReadNumber, ReadChars, ReadItems, ReadMembers, Skip;
    }
  }

  /** A value begins with something that is neither blank nor the end of a list. */
  lemma TreeBegins(t: Tree)
    requires TreeOk(t)
    ensures TreeText(t) != [] && NoBlankFirst(TreeText(t)) && TreeText(t)[0] != ']'
  {
    if t.NumberTree? {
      assert TreeText(t)[0] == if t.n.minus then '-' else t.n.whole[0];
    }
  }

  lemma BlankStops(blank: string, rest: string)
    requires Blank(blank) && rest != [] && rest[0] in ",]}"
    ensures Stops(blank + rest)
  {
  }

  lemma StringShape(pieces: seq<Piece>, rest: string)
    ensures StringText(pieces) + rest == "\"" + (PiecesText(pieces) + ("\"" + rest))
  {
    hide PiecesText;
    assert PiecesText(pieces) + "\"" + rest == PiecesText(pieces) + ("\"" + rest);
  }

  lemma QuoteReads(inside: string, text: string, rest: string)
    requires ReadChars(inside) == Some((text, rest))
    ensures ReadValue("\"" + inside) == Some((Str(text), rest))
    ensures ("\"" + inside)[0] == '"' && ("\"" + inside)[1..] == inside
  {
    hide ReadChars, ReadNumber, ReadMembers, ReadItems;
  }

  lemma StringReads(pieces: seq<Piece>, rest: string)
    requires PiecesOk(pieces)
    ensures ReadValue(StringText(pieces) + rest) == Some((Str(PiecesChars(pieces)), rest))
    ensures StringText(pieces) + rest != [] && (StringText(pieces) + rest)[0] == '"'
    ensures ReadChars((StringText(pieces) + rest)[1..]) == Some((PiecesChars(pieces), rest))
  {
    hide *;
    PiecesRead(pieces, rest);
    StringShape(pieces, rest);
    QuoteReads(PiecesText(pieces) + ("\"" + rest), PiecesChars(pieces), rest);
  }

  lemma NumeralLeads(n: Numeral, rest: string)
    requires NumeralOk(n)
    ensures NumeralText(n) + rest != [] && ((NumeralText(n) + rest)[0] == '-' || IsDigit((NumeralText(n) + rest)[0]))
  {
    assert NumeralText(n)[0] == if n.minus then '-' else n.whole[0];
  }

  lemma NumberTreeReads(n: Numeral, rest: string)
    requires NumeralOk(n) && Stops(rest)
    ensures ReadValue(NumeralText(n) + rest) == Some((NumeralValue(n), rest))
  {
    NumeralLeads(n, rest);
    NumeralReads(n, rest);
    hide NumeralOk, NumeralText, NumeralValue, ReadNumber, Stops;
    NumberLeads(NumeralText(n) + rest);
  }

  lemma NumberLeads(s: string)
    requires s != [] && (s[0] == '-' || IsDigit(s[0]))
    ensures ReadValue(s) == ReadNumber(s)
  {
    if IsDigit(s[0]) {
      NumberBeginsNoWord(s);
    } else {
      MinusLeads(s);
    }
  }

  lemma MinusLeads(s: string)
    requires s != [] && s[0] == '-'
    ensures ReadValue(s) == ReadNumber(s)
  {
    NoWord(s);
    hide Begins, ReadNumber, ReadChars, ReadItems, ReadMembers, Skip;
  }

  lemma NoWord(s: string)
    requires s != []
    ensures s[0] != 't' ==> !Begins(s, "true")
    ensures s[0] != 'f' ==> !Begins(s, "false")
    ensures s[0] != 'n' ==> !Begins(s, "null")
  {
    BeginsWith(s, "true");
    BeginsWith(s, "false");
    BeginsWith(s, "null");
  }

  lemma WordsRead(rest: string)
    ensures ReadValue("null" + rest) == Some((Null, rest))
    ensures ReadValue("true" + rest) == Some((Bool(true), rest))
    ensures ReadValue("false" + rest) == Some((Bool(false), rest))
  {
    assert ("null" + rest)[..4] == "null" && ("null" + rest)[4..] == rest;
    assert ("true" + rest)[..4] == "true" && ("true" + rest)[4..] == rest;
    assert ("false" + rest)[..5] == "false" && ("false" + rest)[5..] == rest;
    NoWord("null" + rest);
    NoWord("true" + rest);
    NoWord("false" + rest);
    hide ReadNumber, ReadChars, ReadMembers, ReadItems;
  }

  /** One item, its blanks, and what ends it or goes on. */
  lemma ItemStep(before: string, text: string, after: string, tail: string, v: Value)
    requires Blank(before) && Blank(after) && tail != [] && (tail[0] == ']' || tail[0] == ',')
    requires ReadValue(text + (after + tail)) == Some((v, after + tail))
    ensures ReadItems(before + (text + (after + tail))) ==
            if tail[0] == ']' then Some(([v], tail[1..]))
            else match ReadItems(tail[1..])
                 case None => None
                 case Some((items, rest)) => Some(([v] + items, rest))
  {
    ReadBlank(before, text + (after + tail));
    SkipBlank(after, tail);
    hide ReadValue, Skip;
  }

  /** Blanks in front of the first item do not matter. */
  lemma ItemsBlank(before: string, s: string)
    requires Blank(before)
    ensures ReadItems(before + s) == ReadItems(s)
  {
    ReadBlank(before, s);
    hide ReadValue;
  }

  lemma MemberStep(s: string, key: string, gap: string, behind: string, v: Value, after: string, tail: string)
    requires s != [] && s[0] == '"' && ReadChars(s[1..]) == Some((key, gap + (":" + behind)))
    requires Blank(gap) && Blank(after) && tail != [] && (tail[0] == '}' || tail[0] == ',')
    requires ReadValue(behind) == Some((v, after + tail))
    ensures ReadMembers(s) ==
            if tail[0] == '}' then Some((map[key := v], tail[1..]))
            else match ReadMembers(Skip(tail[1..]))
                 case None => None
                 case Some((fields, rest)) => Some((map[key := v] + fields, rest))
  {
    var colon := ":" + behind;
    SkipBlank(gap, colon);
    SkipBlank(after, tail);
    assert colon[0] == ':' && colon[1..] == behind;
    hide ReadValue, Skip, ReadChars;
  }

  lemma NoItemsRead(blank: string, rest: string)
    requires Blank(blank)
    ensures ReadValue("[" + (blank + ("]" + rest))) == Some((Arr([]), rest))
    ensures ReadValue("{" + (blank + ("}" + rest))) == Some((Obj(map[]), rest))
  {
    var s, t := "[" + (blank + ("]" + rest)), "{" + (blank + ("}" + rest));
    assert s[1..] == blank + ("]" + rest) && t[1..] == blank + ("}" + rest);
    SkipBlank(blank, "]" + rest);
    SkipBlank(blank, "}" + rest);
    assert ("]" + rest)[1..] == rest && ("}" + rest)[1..] == rest;
    hide ReadChars, ReadNumber, ReadMembers, ReadItems, Skip;
  }

  lemma BracketReads(before: string, s: string, items: seq<Value>, rest: string)
    requires Blank(before) && s != [] && NoBlankFirst(s) && s[0] != ']'
    requires ReadItems(before + s) == Some((items, rest))
    ensures ReadValue("[" + (before + s)) == Some((Arr(items), rest))
  {
    assert ("[" + (before + s))[1..] == before + s;
    SkipBlank(before, s);
    ItemsBlank(before, s);
    hide ReadChars, ReadNumber, ReadMembers, ReadItems, Skip;
  }

  lemma BraceReads(lead: string, s: string, fields: map<string, Value>, rest: string)
    requires Blank(lead) && s != [] && s[0] == '"' && ReadMembers(s) == Some((fields, rest))
    ensures ReadValue("{" + (lead + s)) == Some((Obj(fields), rest))
  {
    assert ("{" + (lead + s))[1..] == lead + s;
    SkipBlank(lead, s);
    hide ReadChars, ReadNumber, ReadMembers, ReadItems, Skip;
  }

  lemma ItemsShape(items: Items, rest: string)
    ensures ItemsText(items) + rest ==
            items.before + (TreeText(items.item) + (items.after +
              if items.LastItem? then "]" + rest else "," + (ItemsText(items.rest) + rest)))
  {
    var text := TreeText(items.item);
    var end := if items.LastItem? then "]" else "," + ItemsText(items.rest);
    hide TreeText, ItemsText;
    Regrouped(items.before, text, items.after, end, rest);
    if items.MoreItems? {
      Regroup3(",", ItemsText(items.rest), rest);
    }
  }

  lemma Regroup3(a: string, b: string, c: string)
    ensures a + b + c == a + (b + c)
  {
  }

  lemma Regrouped(a: string, b: string, c: string, d: string, e: string)
    ensures a + (b + (c + d)) + e == a + (b + (c + (d + e)))
  {
    Regroup3(c, d, e);
    Regroup3(b, c + d, e);
    Regroup3(a, b + (c + d), e);
  }

  lemma MembersShape(m: Members, rest: string)
    ensures MembersText(m) + rest ==
            StringText(m.key) + (m.gap + (":" + (m.before + (TreeText(m.value) + (m.after +
              if m.LastMember? then "}" + rest else "," + (m.next + (MembersText(m.rest) + rest)))))))
  {
    var key, text := StringText(m.key), TreeText(m.value);
    var end := if m.LastMember? then "}" else "," + (m.next + MembersText(m.rest));
    var inner := m.before + (text + (m.after + end));
    hide TreeText, MembersText, StringText;
    Regrouped(key, m.gap, ":", inner, rest);
    Regrouped(m.before, text, m.after, end, rest);
    if m.MoreMembers? {
      Regroup3(m.next, MembersText(m.rest), rest);
      Regroup3(",", m.next + MembersText(m.rest), rest);
    }
  }

  /** Whatever spells a value, in front of anything that may stand behind one, is read as that value. */
  lemma {:induction false} TreeReads(t: Tree, rest: string)
    requires TreeOk(t) && Stops(rest)
    ensures ReadValue(TreeText(t) + rest) == Some((TreeValue(t), rest))
    decreases t
  {
    hide ReadValue, ReadItems, ReadMembers, ReadChars, Stops, NumeralText, NumeralValue;
    hide ItemsText, MembersText, StringText;
    match t
    case NullTree => WordsRead(rest);
    case BoolTree(_) => WordsRead(rest);
    case NumberTree(n) => NumberTreeReads(n, rest);
    case StringTree(pieces) => StringReads(pieces, rest);
    case NoItems(blank) =>
      Regroup3("[", blank + "]", rest);
      Regroup3(blank, "]", rest);
      NoItemsRead(blank, rest);
    case NoMembers(blank) =>
      Regroup3("{", blank + "}", rest);
      Regroup3(blank, "}", rest);
      NoItemsRead(blank, rest);
    case ItemsTree(items) =>
      ItemsRead(items, rest);
      Regroup3("[", ItemsText(items), rest);
      ItemsShape(items, rest);
      TreeBegins(items.item);
      BracketReads(items.before,
                 TreeText(items.item) + (items.after +
                   if items.LastItem? then "]" + rest else "," + (ItemsText(items.rest) + rest)),
                 ItemsValue(items), rest);
    case MembersTree(lead, members) =>
      MembersRead(members, rest);
      Regroup3("{", lead + MembersText(members), rest);
      Regroup3(lead, MembersText(members), rest);
      BraceReads(lead, MembersText(members) + rest, MembersValue(members), rest);
  }

  lemma {:induction false} ItemsRead(items: Items, rest: string)
    requires ItemsOk(items)
    ensures ReadItems(ItemsText(items) + rest) == Some((ItemsValue(items), rest))
    decreases items
  {
    hide ReadValue, ReadItems, TreeText, TreeValue, ItemsText, Stops;
    var tail := if items.LastItem? then "]" + rest else "," + (ItemsText(items.rest) + rest);
    BlankStops(items.after, tail);
    TreeReads(items.item, items.after + tail);
    ItemsShape(items, rest);
    ItemStep(items.before, TreeText(items.item), items.after, tail, TreeValue(items.item));
    if items.MoreItems? {
      ItemsRead(items.rest, rest);
      assert tail[1..] == ItemsText(items.rest) + rest;
    } else {
      assert tail[1..] == rest;
      assert [TreeValue(items.item)] + [] == [TreeValue(items.item)];
    }
  }

  lemma {:induction false} MembersRead(m: Members, rest: string)
    requires MembersOk(m)
    ensures ReadMembers(MembersText(m) + rest) == Some((MembersValue(m), rest))
    ensures MembersText(m) + rest != [] && (MembersText(m) + rest)[0] == '"'
    decreases m
  {
    hide ReadValue, ReadMembers, ReadChars, TreeText, TreeValue, MembersText, StringText, Stops;
    var tail := if m.LastMember? then "}" + rest else "," + (m.next + (MembersText(m.rest) + rest));
    var behind := m.before + (TreeText(m.value) + (m.after + tail));
    BlankStops(m.after, tail);
    TreeReads(m.value, m.after + tail);
    ReadBlank(m.before, TreeText(m.value) + (m.after + tail));
    MembersShape(m, rest);
    StringReads(m.key, m.gap + (":" + behind));
    MemberStep(MembersText(m) + rest, PiecesChars(m.key), m.gap, behind, TreeValue(m.value), m.after, tail);
    if m.MoreMembers? {
      MembersRead(m.rest, rest);
      assert tail[1..] == m.next + (MembersText(m.rest) + rest);
      SkipBlank(m.next, MembersText(m.rest) + rest);
    } else {
      assert tail[1..] == rest;
      assert map[PiecesChars(m.key) := TreeValue(m.value)] + map[] == map[PiecesChars(m.key) := TreeValue(m.value)];
    }
  }

  // --- and nothing else is -----------------------------------------------------------------

  lemma {:induction false} SkippedIsBlank(s: string) returns (blank: string)
    ensures Blank(blank) && s == blank + Skip(s)
  {
    if s != [] && s[0] in " \t\n\r" {
      var more := SkippedIsBlank(s[1..]);
      blank := [s[0]] + more;
      assert s == [s[0]] + s[1..];
    } else {
      blank := [];
    }
  }

  lemma FirstAndRest(s: string, first: string)
    requires |first| == 1 && s != [] && s[0] == first[0]
    ensures s == first + s[1..]
  {
  }

  /** Whatever the reader takes for a value is spelt as one, behind blanks. */
  lemma {:induction false} ValueIsSpelt(s: string) returns (blank: string, t: Tree)
    requires ReadValue(s).Some?
    ensures Blank(blank) && TreeOk(t) && TreeValue(t) == ReadValue(s).value.0
    ensures s == blank + (TreeText(t) + ReadValue(s).value.1)
    decreases |s|, 1
  {
    if s[0] in " \t\n\r" {
      var more;
      more, t := ValueIsSpelt(s[1..]);
      blank := [s[0]] + more;
      hide ReadItems, ReadMembers, ReadChars, ReadNumber, TreeText, TreeValue, TreeOk;
      FirstAndRest(s, [s[0]]);
      Regroup3([s[0]], more, TreeText(t) + ReadValue(s).value.1);
    } else {
      blank := [];
      if s[0] == '{' {
        t := ObjectIsSpelt(s);
      } else if s[0] == '[' {
        t := ArrayIsSpelt(s);
      } else {
        t := ScalarIsSpelt(s);
      }
      hide *;
      Nothing(TreeText(t) + ReadValue(s).value.1);
    }
  }

  lemma Nothing(s: string)
    ensures [] + s == s
  {
  }

  lemma ScalarIsSpelt(s: string) returns (t: Tree)
    requires ReadValue(s).Some? && s[0] !in " \t\n\r{["
    ensures TreeOk(t) && TreeValue(t) == ReadValue(s).value.0 && s == TreeText(t) + ReadValue(s).value.1
  {
    hide ReadItems, ReadMembers, ReadChars, ReadNumber, PiecesText, PiecesChars, PiecesOk;
    hide NumeralText, NumeralOk, NumeralValue;
    if s[0] == '"' {
      var pieces := CharsAreSpelt(s[1..]);
      t := StringTree(pieces);
      FirstAndRest(s, "\"");
      StringShape(pieces, ReadValue(s).value.1);
    } else if Begins(s, "true") {
      t := BoolTree(true);
      assert s == s[..4] + s[4..];
    } else if Begins(s, "false") {
      t := BoolTree(false);
      assert s == s[..5] + s[5..];
    } else if Begins(s, "null") {
      t := NullTree;
      assert s == s[..4] + s[4..];
    } else {
      var n := NumberIsSpelt(s);
      t := NumberTree(n);
    }
  }

  /** How the reader goes on behind an opening bracket, and behind an opening brace. */
  lemma ArrayCut(s: string)
    requires ReadValue(s).Some? && s[0] == '['
    ensures var inside := Skip(s[1..]);
            if inside != [] && inside[0] == ']' then ReadValue(s) == Some((Arr([]), inside[1..]))
            else ReadItems(inside).Some? && |inside| < |s|
                 && ReadValue(s) == Some((Arr(ReadItems(inside).value.0), ReadItems(inside).value.1))
  {
    hide ReadItems, ReadMembers, ReadChars, ReadNumber, Skip;
  }

  lemma ObjectCut(s: string)
    requires ReadValue(s).Some? && s[0] == '{'
    ensures var inside := Skip(s[1..]);
            if inside != [] && inside[0] == '}' then ReadValue(s) == Some((Obj(map[]), inside[1..]))
            else ReadMembers(inside).Some? && |inside| < |s|
                 && ReadValue(s) == Some((Obj(ReadMembers(inside).value.0), ReadMembers(inside).value.1))
  {
    hide ReadItems, ReadMembers, ReadChars, ReadNumber, Skip;
  }

  lemma Opened(s: string, first: string, blank: string, text: string, rest: string)
    requires |first| == 1 && s != [] && s[0] == first[0] && s[1..] == blank + (text + rest)
    ensures s == first + (blank + text) + rest
  {
    FirstAndRest(s, first);
    Regroup3(first, blank + text, rest);
    Regroup3(blank, text, rest);
  }

  lemma {:induction false} ArrayIsSpelt(s: string) returns (t: Tree)
    requires ReadValue(s).Some? && s[0] == '['
    ensures TreeOk(t) && TreeValue(t) == ReadValue(s).value.0 && s == TreeText(t) + ReadValue(s).value.1
    decreases |s|, 0
  {
    hide *;
    ArrayCut(s);
    var inside := Skip(s[1..]);
    var rest := ReadValue(s).value.1;
    var blank := SkippedIsBlank(s[1..]);
    if inside != [] && inside[0] == ']' {
      t := NoItems(blank);
      FirstAndRest(inside, "]");
      Opened(s, "[", blank, "]", rest);
      EmptyTrees(blank);
    } else {
      var items := ItemsAreSpelt(inside);
      t := ItemsTree(Lead(blank, items));
      Opened(s, "[", blank, ItemsText(items), rest);
      LeadIsBlank(blank, items);
      ListTrees(Lead(blank, items));
    }
  }

  lemma EmptyTrees(blank: string)
    requires Blank(blank)
    ensures TreeOk(NoItems(blank)) && TreeValue(NoItems(blank)) == Arr([])
    ensures TreeText(NoItems(blank)) == "[" + (blank + "]")
    ensures TreeOk(NoMembers(blank)) && TreeValue(NoMembers(blank)) == Obj(map[])
    ensures TreeText(NoMembers(blank)) == "{" + (blank + "}")
  {
  }

  lemma ListTrees(items: Items)
    requires ItemsOk(items)
    ensures TreeOk(ItemsTree(items)) && TreeValue(ItemsTree(items)) == Arr(ItemsValue(items))
    ensures TreeText(ItemsTree(items)) == "[" + ItemsText(items)
  {
  }

  lemma ObjectTrees(lead: string, members: Members)
    requires Blank(lead) && MembersOk(members)
    ensures TreeOk(MembersTree(lead, members)) && TreeValue(MembersTree(lead, members)) == Obj(MembersValue(members))
    ensures TreeText(MembersTree(lead, members)) == "{" + (lead + MembersText(members))
  {
  }

  /** The same items behind more blanks. */
  function Lead(blank: string, items: Items): Items {
    items.(before := blank + items.before)
  }

  lemma LeadIsBlank(blank: string, items: Items)
    requires Blank(blank) && ItemsOk(items)
    ensures ItemsOk(Lead(blank, items)) && ItemsValue(Lead(blank, items)) == ItemsValue(items)
    ensures ItemsText(Lead(blank, items)) == blank + ItemsText(items)
  {
    hide TreeOk, TreeText, TreeValue;
    var more := TreeText(items.item) + (items.after + if items.LastItem? then "]" else "," + ItemsText(items.rest));
    Regroup3(blank, items.before, more);
  }

  lemma {:induction false} ObjectIsSpelt(s: string) returns (t: Tree)
    requires ReadValue(s).Some? && s[0] == '{'
    ensures TreeOk(t) && TreeValue(t) == ReadValue(s).value.0 && s == TreeText(t) + ReadValue(s).value.1
    decreases |s|, 0
  {
    hide *;
    ObjectCut(s);
    var inside := Skip(s[1..]);
    var rest := ReadValue(s).value.1;
    var blank := SkippedIsBlank(s[1..]);
    if inside != [] && inside[0] == '}' {
      t := NoMembers(blank);
      FirstAndRest(inside, "}");
      Opened(s, "{", blank, "}", rest);
      EmptyTrees(blank);
    } else {
      var members := MembersAreSpelt(inside);
      t := MembersTree(blank, members);
      Opened(s, "{", blank, MembersText(members), rest);
      ObjectTrees(blank, members);
    }
  }

  lemma {:induction false} ItemsAreSpelt(s: string) returns (items: Items)
    requires ReadItems(s).Some?
    ensures ItemsOk(items) && ItemsValue(items) == ReadItems(s).value.0
    ensures s == ItemsText(items) + ReadItems(s).value.1
    decreases |s|, 2
  {
    var before, item := ValueIsSpelt(s);
    var behind := ReadValue(s).value.1;
    var after := SkippedIsBlank(behind);
    var next := Skip(behind);
    var rest := ReadItems(s).value.1;
    hide ReadValue, TreeText, TreeValue, TreeOk, Skip;
    if next[0] == ']' {
      items := LastItem(before, item, after);
      FirstAndRest(next, "]");
      assert [TreeValue(item)] + [] == [TreeValue(item)];
    } else {
      var others := ItemsAreSpelt(next[1..]);
      items := MoreItems(before, item, after, others);
      FirstAndRest(next, ",");
    }
    ItemsShape(items, rest);
    hide ItemsText, ReadItems;
  }

  lemma MembersCut(s: string)
    requires ReadMembers(s).Some?
    ensures s != [] && s[0] == '"' && ReadChars(s[1..]).Some?
    ensures var (key, afterKey) := ReadChars(s[1..]).value;
            var colon := Skip(afterKey);
            && colon != [] && colon[0] == ':' && |colon| < |s| && ReadValue(colon[1..]).Some?
            && var (value, behind) := ReadValue(colon[1..]).value;
            var next := Skip(behind);
            && next != [] && (next[0] == '}' || next[0] == ',') && |next| < |s|
            && (next[0] == '}' ==> ReadMembers(s) == Some((map[key := value], next[1..])))
            && (next[0] == ',' ==>
                  && ReadMembers(Skip(next[1..])).Some?
                  && ReadMembers(s) == Some((map[key := value] + ReadMembers(Skip(next[1..])).value.0,
                                             ReadMembers(Skip(next[1..])).value.1)))
  {
    hide ReadValue, ReadChars;
  }

  lemma {:induction false} MembersAreSpelt(s: string) returns (m: Members)
    requires ReadMembers(s).Some?
    ensures MembersOk(m) && MembersValue(m) == ReadMembers(s).value.0
    ensures s == MembersText(m) + ReadMembers(s).value.1
    decreases |s|, 0
  {
    MembersCut(s);
    var key := CharsAreSpelt(s[1..]);
    var afterKey := ReadChars(s[1..]).value.1;
    var gap := SkippedIsBlank(afterKey);
    var colon := Skip(afterKey);
    var before, value := ValueIsSpelt(colon[1..]);
    var behind := ReadValue(colon[1..]).value.1;
    var after := SkippedIsBlank(behind);
    var next := Skip(behind);
    var rest := ReadMembers(s).value.1;
    hide *;
    if next[0] == '}' {
      m := LastMember(key, gap, before, value, after);
      MemberOpens(s, key, gap, colon, before, value, after, next, "}");
      assert map[PiecesChars(key) := TreeValue(value)] + map[] == map[PiecesChars(key) := TreeValue(value)];
      MemberTrees(m);
    } else {
      var lead := SkippedIsBlank(next[1..]);
      var others := MembersAreSpelt(Skip(next[1..]));
      m := MoreMembers(key, gap, before, value, after, lead, others);
      MemberOpens(s, key, gap, colon, before, value, after, next, ",");
      MemberTrees(m);
    }
    MembersShape(m, rest);
  }

  lemma MemberTrees(m: Members)
    requires PiecesOk(m.key) && Blank(m.gap) && Blank(m.before) && TreeOk(m.value) && Blank(m.after)
    requires m.MoreMembers? ==> Blank(m.next) && MembersOk(m.rest)
    ensures MembersOk(m)
    ensures MembersValue(m) ==
            map[PiecesChars(m.key) := TreeValue(m.value)] + if m.LastMember? then map[] else MembersValue(m.rest)
  {
  }

  lemma MemberOpens(s: string, key: seq<Piece>, gap: string, colon: string, before: string, value: Tree, after: string,
                    next: string, sign: string)
    requires s != [] && s[0] == '"' && colon != [] && colon[0] == ':' && next != [] && |sign| == 1 && next[0] == sign[0]
    requires s[1..] == PiecesText(key) + ("\"" + (gap + colon))
    requires colon[1..] == before + (TreeText(value) + (after + next))
    ensures s == StringText(key) + (gap + (":" + (before + (TreeText(value) + (after + (sign + next[1..]))))))
  {
    hide *;
    FirstAndRest(s, "\"");
    FirstAndRest(colon, ":");
    FirstAndRest(next, sign);
    StringShape(key, gap + colon);
  }

  /** A text of one value: what RFC 8259 calls a JSON text. */
  ghost predicate Spells(text: string, v: Value) {
    exists before: string, t: Tree, after: string ::
      Blank(before) && TreeOk(t) && Blank(after) && text == before + (TreeText(t) + after) && TreeValue(t) == v
  }

  /** The reader reads a text as a value if and only if the grammar spells that value so. */
  lemma ReadIsTheGrammar(text: string, v: Value)
    ensures Read(text) == Some(v) <==> Spells(text, v)
  {
    if Read(text) == Some(v) {
      var before, t := ValueIsSpelt(text);
      var after := SkippedIsBlank(ReadValue(text).value.1);
      hide ReadValue, TreeText, TreeValue, TreeOk, Skip;
      assert after + [] == after;
    }
    if Spells(text, v) {
      var before: string, t: Tree, after: string :|
        Blank(before) && TreeOk(t) && Blank(after) && text == before + (TreeText(t) + after) && TreeValue(t) == v;
      assert Stops(after);
      hide ReadValue, TreeText, TreeValue, TreeOk, Stops;
      ReadBlank(before, TreeText(t) + after);
      TreeReads(t, after);
      SkipBlank(after, []);
      assert after + [] == after;
    }
  }
}
