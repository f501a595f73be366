/**
 JSON text, section by section of RFC 8259: the reader the Dart side uses, and
 the writer the native side uses for flat objects of strings and numbers.
 */
module Json {
  import opened Events

  /** A number with a fraction, an exponent, or too large for 64 bits is a double, kept as its text. */
  datatype Value =
    | Null
    | Bool(b: bool)
    | Int(n: int)
    | Double(text: string)
    | Str(s: string)
    | Arr(items: seq<Value>)
    | Obj(fields: map<string, Value>)

  const INT_LIMIT: int := 0x8000_0000_0000_0000

  // --- reading ------------------------------------------------------------------------

  function Skip(s: string): (r: string)
    ensures |r| <= |s|
  {
    if s != [] && s[0] in " \t\n\r" then Skip(s[1..]) else s
  }

  predicate IsDigit(c: char) {
    '0' <= c <= '9'
  }

  /** How many digits a text begins with. */
  function DigitRun(s: string): (n: nat)
    ensures n <= |s|
  {
    if s != [] && IsDigit(s[0]) then 1 + DigitRun(s[1..]) else 0
  }

  function NatOf(digits: string): int {
    if digits == [] then 0
    else NatOf(digits[..|digits| - 1]) * 10 + (digits[|digits| - 1] as int - '0' as int)
  }

  function HexValue(c: char): (r: Option<int>)
    ensures r.Some? ==> 0 <= r.value < 16
  {
    if IsDigit(c) then Some(c as int - '0' as int)
    else if 'a' <= c <= 'f' then Some(c as int - 'a' as int + 10)
    else if 'A' <= c <= 'F' then Some(c as int - 'A' as int + 10)
    else None
  }

  function FourHex(s: string): (r: Option<int>)
    requires |s| >= 4
    ensures r.Some? ==> 0 <= r.value < 0x1_0000
  {
    var a, b, c, d := HexValue(s[0]), HexValue(s[1]), HexValue(s[2]), HexValue(s[3]);
    if a.None? || b.None? || c.None? || d.None? then None
    else Some(((a.value * 16 + b.value) * 16 + c.value) * 16 + d.value)
  }

  /** A code unit as a character; one half of a surrogate pair is not one and reads as U+FFFD. */
  function UnitChar(unit: int): char
    requires 0 <= unit < 0x1_0000
  {
    if 0xD800 <= unit < 0xE000 then 0xFFFD as char else unit as char
  }

  /** One escape, behind its backslash: the character and what follows. */
  function ReadEscape(s: string): (r: Option<(char, string)>)
    ensures r.Some? ==> |r.value.1| < |s|
  {
    if s == [] then None
    else
      match s[0]
      case '"' => Some(('"', s[1..]))
      case '\\' => Some(('\\', s[1..]))
      case '/' => Some(('/', s[1..]))
      case 'b' => Some((8 as char, s[1..]))
      case 'f' => Some((12 as char, s[1..]))
      case 'n' => Some(('\n', s[1..]))
      case 'r' => Some(('\r', s[1..]))
      case 't' => Some(('\t', s[1..]))
      case 'u' =>
        if |s| < 5 || FourHex(s[1..]).None? then None
        else ReadUnit(FourHex(s[1..]).value, s[5..])
      case _ => None
  }

  /** A code unit, joined with the low surrogate that may follow a high one. */
  function ReadUnit(unit: int, s: string): (r: Option<(char, string)>)
    requires 0 <= unit < 0x1_0000
    ensures r.Some? && |r.value.1| <= |s|
  {
    if 0xD800 <= unit < 0xDC00 && |s| >= 6 && s[0] == '\\' && s[1] == 'u' && FourHex(s[2..]).Some?
       && 0xDC00 <= FourHex(s[2..]).value < 0xE000
    then Some((((unit - 0xD800) * 0x400 + (FourHex(s[2..]).value - 0xDC00) + 0x1_0000) as char, s[6..]))
    else Some((UnitChar(unit), s))
  }

  /** The inside of a string, up to and over its closing quote. */
  function ReadChars(s: string): (r: Option<(string, string)>)
    ensures r.Some? ==> |r.value.1| < |s|
    decreases |s|
  {
    if s == [] || s[0] < ' ' then None
    else if s[0] == '"' then Some(([], s[1..]))
    else if s[0] == '\\' then
      match ReadEscape(s[1..])
      case None => None
      case Some((c, more)) =>
        match ReadChars(more)
        case None => None
        case Some((text, rest)) => Some(([c] + text, rest))
    else
      match ReadChars(s[1..])
      case None => None
      case Some((text, rest)) => Some(([s[0]] + text, rest))
  }

  /** The part of a number behind its whole digits: how long it is, or `None` if it is malformed. */
  function FractionRun(s: string): (r: Option<nat>)
    ensures r.Some? ==> r.value <= |s|
  {
    if s != [] && s[0] == '.' then
      if DigitRun(s[1..]) == 0 then None else Some(1 + DigitRun(s[1..]))
    else Some(0)
  }

  function ExponentRun(s: string): (r: Option<nat>)
    ensures r.Some? ==> r.value <= |s|
  {
    if s != [] && (s[0] == 'e' || s[0] == 'E') then
      var sign := if |s| > 1 && (s[1] == '+' || s[1] == '-') then 1 else 0;
      if DigitRun(s[1 + sign..]) == 0 then None else Some(1 + sign + DigitRun(s[1 + sign..]))
    else Some(0)
  }

  function ReadNumber(s: string): (r: Option<(Value, string)>)
    ensures r.Some? ==> |r.value.1| < |s|
  {
    var sign := if s != [] && s[0] == '-' then 1 else 0;
    var whole := DigitRun(s[sign..]);
    if whole == 0 || (whole > 1 && s[sign] == '0') then None
    else
      var afterWhole := s[sign + whole..];
      var fraction := FractionRun(afterWhole);
      if fraction.None? then None
      else
        var exponent := ExponentRun(afterWhole[fraction.value..]);
        if exponent.None? then None
        else
          var more := fraction.value + exponent.value;
          var n := NatOf(s[sign..sign + whole]);
          var signed := if sign == 1 then -n else n;
          var end := sign + whole + more;
          var value := if more == 0 && -INT_LIMIT <= signed < INT_LIMIT then Int(signed) else Double(s[..end]);
          Some((value, s[end..]))
  }

  predicate Begins(s: string, word: string) {
    |s| >= |word| && s[..|word|] == word
  }

  function ReadValue(s: string): (r: Option<(Value, string)>)
    ensures r.Some? ==> |r.value.1| < |s|
    decreases |s|, 1
  {
    if s == [] then None
    else if s[0] in " \t\n\r" then ReadValue(s[1..])
    else if s[0] == '{' then
      var inside := Skip(s[1..]);
      if inside != [] && inside[0] == '}' then Some((Obj(map[]), inside[1..]))
      else
        match ReadMembers(inside)
        case None => None
        case Some((fields, rest)) => Some((Obj(fields), rest))
    else if s[0] == '[' then
      var inside := Skip(s[1..]);
      if inside != [] && inside[0] == ']' then Some((Arr([]), inside[1..]))
      else
        match ReadItems(inside)
        case None => None
        case Some((items, rest)) => Some((Arr(items), rest))
    else if s[0] == '"' then
      match ReadChars(s[1..])
      case None => None
      case Some((text, rest)) => Some((Str(text), rest))
    else if Begins(s, "true") then Some((Bool(true), s[4..]))
    else if Begins(s, "false") then Some((Bool(false), s[5..]))
    else if Begins(s, "null") then Some((Null, s[4..]))
    else ReadNumber(s)
  }

  /** The members of an object, up to and over its closing brace; a later key wins over an equal earlier one. */
  function ReadMembers(s: string): (r: Option<(map<string, Value>, string)>)
    ensures r.Some? ==> |r.value.1| < |s|
    decreases |s|, 0
  {
    if s == [] || s[0] != '"' then None
    else
      match ReadChars(s[1..])
      case None => None
      case Some((key, afterKey)) =>
        var colon := Skip(afterKey);
        if colon == [] || colon[0] != ':' then None
        else
          match ReadValue(colon[1..])
          case None => None
          case Some((value, afterValue)) =>
            var next := Skip(afterValue);
            if next == [] then None
            else if next[0] == '}' then Some((map[key := value], next[1..]))
            else if next[0] != ',' then None
            else
              match ReadMembers(Skip(next[1..]))
              case None => None
              case Some((fields, rest)) => Some((map[key := value] + fields, rest))
  }

  function ReadItems(s: string): (r: Option<(seq<Value>, string)>)
    ensures r.Some? ==> |r.value.1| < |s|
    decreases |s|, 2
  {
    match ReadValue(s)
    case None => None
    case Some((value, afterValue)) =>
      var next := Skip(afterValue);
      if next == [] then None
      else if next[0] == ']' then Some(([value], next[1..]))
      else if next[0] != ',' then None
      else
        match ReadItems(next[1..])
        case None => None
        case Some((items, rest)) => Some(([value] + items, rest))
  }

  /** `jsonDecode`: one value and nothing behind it. */
  function Read(text: string): Option<Value> {
    match ReadValue(text)
    case None => None
    case Some((value, rest)) => if Skip(rest) == [] then Some(value) else None
  }

  // --- writing ------------------------------------------------------------------------

  const HEX := "0123456789abcdef"

  /** How a character is written inside a string: RFC 8259, section 7. */
  function EscapeChar(c: char): string {
    if c == '"' then "\\\""
    else if c == '\\' then "\\\\"
    else if c == 8 as char then "\\b"
    else if c == 12 as char then "\\f"
    else if c == '\n' then "\\n"
    else if c == '\r' then "\\r"
    else if c == '\t' then "\\t"
    else if c < ' ' then "\\u00" + [HEX[c as int / 16], HEX[c as int % 16]]
    else [c]
  }

  function Escape(text: string): string {
    if text == [] then [] else EscapeChar(text[0]) + Escape(text[1..])
  }

  function Quote(text: string): string {
    "\"" + Escape(text) + "\""
  }

  function Decimal(n: nat): string {
    (if n < 10 then [] else Decimal(n / 10)) + [('0' as int + n % 10) as char]
  }

  /** What a flat object holds. */
  datatype Field = Text(key: string, text: string) | Number(key: string, n: nat)

  function WriteValue(f: Field): string {
    if f.Text? then Quote(f.text) else Decimal(f.n)
  }

  function WriteField(f: Field): string {
    Quote(f.key) + ":" + WriteValue(f)
  }

  function WriteFields(fields: seq<Field>): string
    requires fields != []
  {
    if |fields| == 1 then WriteField(fields[0]) else WriteField(fields[0]) + "," + WriteFields(fields[1..])
  }

  function WriteObject(fields: seq<Field>): string
    requires fields != []
  {
    "{" + WriteFields(fields) + "}"
  }

  // --- reading what was written -----------------------------------------------------------

  function Meaning(f: Field): Value {
    if f.Text? then Str(f.text)
    else if f.n < INT_LIMIT then Int(f.n)
    else Double(Decimal(f.n))
  }

  function Fields(fields: seq<Field>): map<string, Value> {
    if fields == [] then map[] else map[fields[0].key := Meaning(fields[0])] + Fields(fields[1..])
  }

  lemma EscapedCharReads(c: char, text: string, rest: string, more: string)
    requires ReadChars(more) == Some((text, rest))
    ensures ReadChars(EscapeChar(c) + more) == Some(([c] + text, rest))
  {
    var s := EscapeChar(c) + more;
    if c == '"' || c == '\\' || c < ' ' {
      assert s[0] == '\\' && s[1..] == EscapeChar(c)[1..] + more;
      EscapeReads(c, more);
    } else {
      assert s[1..] == more;
    }
  }

  lemma EscapeReads(c: char, more: string)
    requires c == '"' || c == '\\' || c < ' '
    ensures ReadEscape(EscapeChar(c)[1..] + more) == Some((c, more))
  {
    var s := EscapeChar(c)[1..] + more;
    if |EscapeChar(c)| == 2 {
      assert s[1..] == more;
    } else {
      var n := c as int;
      assert s[0] == 'u' && s[1] == '0' && s[2] == '0' && s[3] == HEX[n / 16] && s[4] == HEX[n % 16];
      assert s[5..] == more;
      HexReads(n / 16);
      HexReads(n % 16);
    }
  }

  lemma HexReads(d: nat)
    requires d < 16
    ensures HexValue(HEX[d]) == Some(d)
  {
  }

  lemma {:induction false} EscapedReads(text: string, rest: string)
    ensures ReadChars(Escape(text) + "\"" + rest) == Some((text, rest))
  {
    if text == [] {
      assert Escape(text) + "\"" + rest == "\"" + rest;
      assert ("\"" + rest)[1..] == rest;
    } else {
      EscapedReads(text[1..], rest);
      var more := Escape(text[1..]) + "\"" + rest;
      EscapedCharReads(text[0], text[1..], rest, more);
      assert Escape(text) + "\"" + rest == EscapeChar(text[0]) + more;
      assert [text[0]] + text[1..] == text;
    }
  }

  predicate Ends(rest: string) {
    rest == [] || rest[0] in ",} "
  }

  predicate AllDigits(s: string) {
    forall c <- s :: IsDigit(c)
  }

  lemma {:induction false} DecimalIsDigits(n: nat)
    ensures AllDigits(Decimal(n)) && |Decimal(n)| >= 1 && NatOf(Decimal(n)) == n
    ensures Decimal(n)[0] == '0' ==> n == 0
  {
    if n >= 10 {
      DecimalIsDigits(n / 10);
      assert Decimal(n)[..|Decimal(n)| - 1] == Decimal(n / 10);
    }
  }

  lemma {:induction false} DigitRunStops(digits: string, rest: string)
    requires AllDigits(digits) && (rest == [] || !IsDigit(rest[0]))
    ensures DigitRun(digits + rest) == |digits|
  {
    if digits == [] {
      assert digits + rest == rest;
    } else {
      assert digits[0] in digits && forall c <- digits[1..] :: c in digits;
      DigitRunStops(digits[1..], rest);
      assert (digits + rest)[1..] == digits[1..] + rest;
    }
  }

  /** A run of digits that ends where a value may end is an integer, if it fits. */
  lemma NumberShape(s: string, whole: nat)
    requires DigitRun(s) == whole && 0 < whole && s[0] != '-' && (whole > 1 ==> s[0] != '0')
    requires Ends(s[whole..])
    ensures var n := NatOf(s[..whole]);
            ReadNumber(s) ==
              Some((if -INT_LIMIT <= n < INT_LIMIT then Int(n) else Double(s[..whole]), s[whole..]))
  {
    hide NatOf, DigitRun, Ends;
    var rest := s[whole..];
    assert s[0..] == s && s[0 + whole..] == rest && s[0..0 + whole] == s[..whole] && rest[0..] == rest;
    assert FractionRun(rest) == Some(0) && ExponentRun(rest) == Some(0) by {
      NothingBehind(rest);
    }
  }

  lemma NothingBehind(rest: string)
    requires Ends(rest)
    ensures FractionRun(rest) == Some(0) && ExponentRun(rest) == Some(0)
  {
  }

  lemma NumberReads(n: nat, rest: string)
    requires Ends(rest)
    ensures ReadNumber(Decimal(n) + rest) == Some((if n < INT_LIMIT then Int(n) else Double(Decimal(n)), rest))
  {
    DecimalIsDigits(n);
    var digits := Decimal(n);
    assert |digits| > 1 ==> n >= 10;
    DigitRunStops(digits, rest);
    hide ReadNumber, Decimal, NatOf, DigitRun;
    var s := digits + rest;
    assert s[0] in digits;
    assert s[..|digits|] == digits && s[|digits|..] == rest;
    NumberShape(s, |digits|);
  }

  lemma TextReads(text: string, rest: string)
    ensures ReadValue(Quote(text) + rest) == Some((Str(text), rest))
  {
    var s := Quote(text) + rest;
    EscapedReads(text, rest);
    hide Escape, ReadChars;
    assert s[0] == '"' && s[1..] == Escape(text) + "\"" + rest;
  }

  lemma ValueReads(f: Field, rest: string)
    requires Ends(rest)
    ensures ReadValue(WriteValue(f) + rest) == Some((Meaning(f), rest))
  {
    hide ReadNumber, Decimal, ReadValue, Quote;
    if f.Text? {
      TextReads(f.text, rest);
    } else {
      DecimalIsDigits(f.n);
      NumberReads(f.n, rest);
      var s := Decimal(f.n) + rest;
      assert s[0] in Decimal(f.n);
      NumberBeginsNoWord(s);
    }
  }

  lemma NumberBeginsNoWord(s: string)
    requires s != [] && IsDigit(s[0])
    ensures ReadValue(s) == ReadNumber(s)
  {
    BeginsWith(s, "true");
    BeginsWith(s, "false");
    BeginsWith(s, "null");
  }

  lemma BeginsWith(s: string, word: string)
    requires word != []
    ensures Begins(s, word) ==> s[0] == word[0]
  {
    if Begins(s, word) {
      assert s[..|word|][0] == s[0];
    }
  }

  /** How reading the members starts, once the first key, its colon and its value are known. */
  lemma MembersStep(s: string, key: string, colon: string, value: Value, next: string)
    requires s != [] && s[0] == '"' && ReadChars(s[1..]) == Some((key, colon))
    requires colon != [] && colon[0] == ':' && ReadValue(colon[1..]) == Some((value, next))
    requires next != [] && (next[0] == '}' || next[0] == ',')
    ensures ReadMembers(s) ==
            if next[0] == '}' then Some((map[key := value], next[1..]))
            else match ReadMembers(Skip(next[1..]))
                 case None => None
                 case Some((fields, rest)) => Some((map[key := value] + fields, rest))
  {
    hide ReadChars, ReadValue;
    assert Skip(colon) == colon && Skip(next) == next;
  }

  lemma FieldShape(f: Field, next: string)
    ensures WriteField(f) + next != [] && (WriteField(f) + next)[0] == '"'
    ensures (WriteField(f) + next)[1..] == Escape(f.key) + "\"" + (":" + (WriteValue(f) + next))
  {
    hide Escape, Quote, Decimal;
    var name, value := Escape(f.key), WriteValue(f);
    assert Quote(f.key) == "\"" + name + "\"" by {
      QuoteShape(f.key);
    }
    assert WriteField(f) + next == "\"" + (name + "\"" + (":" + (value + next)));
  }

  lemma QuoteShape(text: string)
    ensures Quote(text) == "\"" + Escape(text) + "\""
  {
  }

  lemma FieldReads(f: Field, next: string)
    requires next != [] && (next[0] == '}' || next[0] == ',')
    ensures ReadMembers(WriteField(f) + next) ==
            if next[0] == '}' then Some((map[f.key := Meaning(f)], next[1..]))
            else match ReadMembers(Skip(next[1..]))
                 case None => None
                 case Some((fields, rest)) => Some((map[f.key := Meaning(f)] + fields, rest))
  {
    var colon := ":" + (WriteValue(f) + next);
    var s := WriteField(f) + next;
    hide *;
    FieldShape(f, next);
    EscapedReads(f.key, colon);
    assert colon[1..] == WriteValue(f) + next;
    assert ReadValue(colon[1..]) == Some((Meaning(f), next)) by {
      CommaOrBraceEnds(next);
      ValueReads(f, next);
    }
    MembersStep(s, f.key, colon, Meaning(f), next);
  }

  lemma CommaOrBraceEnds(next: string)
    requires next != [] && (next[0] == '}' || next[0] == ',')
    ensures Ends(next)
  {
  }

  lemma {:induction false} FieldsRead(fields: seq<Field>, rest: string)
    requires fields != []
    ensures ReadMembers(WriteFields(fields) + ("}" + rest)) == Some((Fields(fields), rest))
  {
    hide WriteField, ReadMembers, Meaning;
    var end := "}" + rest;
    if |fields| == 1 {
      FieldReads(fields[0], end);
      assert end[1..] == rest;
      assert Fields(fields[1..]) == map[];
      assert Fields(fields) == map[fields[0].key := Meaning(fields[0])];
    } else {
      var more := WriteFields(fields[1..]) + end;
      var next := "," + more;
      FieldsRead(fields[1..], rest);
      FieldReads(fields[0], next);
      assert WriteFields(fields) + end == WriteField(fields[0]) + next;
      assert next[1..] == more;
      FieldsBegin(fields[1..], end);
    }
  }

  lemma FieldsBegin(fields: seq<Field>, rest: string)
    requires fields != []
    ensures WriteFields(fields) != [] && (WriteFields(fields) + rest)[0] == '"'
  {
    assert WriteField(fields[0])[0] == '"';
  }

  /** Reading undoes writing. */
  lemma ObjectReads(fields: seq<Field>)
    requires fields != []
    ensures Read(WriteObject(fields)) == Some(Obj(Fields(fields)))
  {
    hide WriteFields, ReadMembers, Fields;
    FieldsRead(fields, []);
    FieldsBegin(fields, "}" + []);
    var s := WriteObject(fields);
    assert s[1..] == WriteFields(fields) + ("}" + []);
  }

  // --- nothing below a blank is ever written ---------------------------------------------

  predicate Printable(s: string) {
    forall c <- s :: c >= ' '
  }

  lemma {:induction false} EscapeIsPrintable(text: string)
    ensures Printable(Escape(text))
  {
    hide EscapeChar;
    if text != [] {
      EscapeIsPrintable(text[1..]);
      EscapedCharIsPrintable(text[0]);
    }
  }

  lemma EscapedCharIsPrintable(c: char)
    ensures Printable(EscapeChar(c))
  {
    if c < ' ' {
      var a, b := HEX[c as int / 16], HEX[c as int % 16];
      assert a >= ' ' && b >= ' ';
      hide *;
      assert Printable("\\u00" + [a, b]);
    }
  }

  lemma JoinIsPrintable(a: string, b: string)
    requires Printable(a) && Printable(b)
    ensures Printable(a + b)
  {
  }

  lemma QuoteIsPrintable(text: string)
    ensures Printable(Quote(text))
  {
    EscapeIsPrintable(text);
    QuoteShape(text);
    hide Quote, Escape;
    assert Printable("\"");
    JoinIsPrintable("\"", Escape(text));
    JoinIsPrintable("\"" + Escape(text), "\"");
  }

  lemma ValueIsPrintable(f: Field)
    ensures Printable(WriteValue(f))
  {
    hide Quote, Decimal;
    if f.Text? {
      QuoteIsPrintable(f.text);
    } else {
      DecimalIsDigits(f.n);
    }
  }

  lemma FieldIsPrintable(f: Field)
    ensures Printable(WriteField(f))
  {
    hide Quote, WriteValue;
    QuoteIsPrintable(f.key);
    ValueIsPrintable(f);
    assert Printable(":");
    hide Printable;
    JoinIsPrintable(Quote(f.key), ":");
    JoinIsPrintable(Quote(f.key) + ":", WriteValue(f));
  }

  lemma {:induction false} FieldsArePrintable(fields: seq<Field>)
    requires fields != []
    ensures Printable(WriteFields(fields))
  {
    hide WriteField;
    FieldIsPrintable(fields[0]);
    if |fields| > 1 {
      FieldsArePrintable(fields[1..]);
      assert Printable(",");
      JoinIsPrintable(WriteField(fields[0]), ",");
      JoinIsPrintable(WriteField(fields[0]) + ",", WriteFields(fields[1..]));
    }
  }
}
