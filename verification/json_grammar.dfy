/**
 The grammar of RFC 8259 as trees, and the reader against it: the reader accepts
 exactly the texts the grammar spells, and gives each the value it spells.
 */
module JsonGrammar {
  import opened Events
  import opened Json

  predicate Blank(s: string) {
    forall i | 0 <= i < |s| :: s[i] in " \t\n\r"
  }

  // --- strings: section 7 -------------------------------------------------------------

  datatype Piece = Plain(c: char) | Short(letter: char) | Unit(hex: string) | Pair(high: string, low: string)

  function ShortChar(letter: char): Option<char> {
    match letter
    case '"' => Some('"')
    case '\\' => Some('\\')
    case '/' => Some('/')
    case 'b' => Some(8 as char)
    case 'f' => Some(12 as char)
    case 'n' => Some(10 as char)
    case 'r' => Some(13 as char)
    case 't' => Some(9 as char)
    case _ => None
  }

  predicate HexOk(hex: string) {
    |hex| == 4 && FourHex(hex).Some?
  }

  predicate IsHigh(unit: int) {
    0xD800 <= unit < 0xDC00
  }

  predicate IsLow(unit: int) {
    0xDC00 <= unit < 0xE000
  }

  predicate PieceOk(p: Piece) {
    match p
    case Plain(c) => c >= ' ' && c != '"' && c != '\\'
    case Short(letter) => ShortChar(letter).Some?
    case Unit(hex) => HexOk(hex)
    case Pair(high, low) =>
      HexOk(high) && HexOk(low) && IsHigh(FourHex(high).value) && IsLow(FourHex(low).value)
  }

  function PieceText(p: Piece): string {
    match p
    case Plain(c) => [c]
    case Short(letter) => ['\\', letter]
    case Unit(hex) => ['\\', 'u'] + hex
    case Pair(high, low) => ['\\', 'u'] + (high + (['\\', 'u'] + low))
  }

  /** Half a surrogate pair by itself is no character; it reads as U+FFFD. */
  function PieceChar(p: Piece): char
    requires PieceOk(p)
  {
    match p
    case Plain(c) => c
    case Short(letter) => ShortChar(letter).value
    case Unit(hex) =>
      var unit := FourHex(hex).value;
      if IsHigh(unit) || IsLow(unit) then 0xFFFD as char else unit as char
    case Pair(high, low) =>
      ((FourHex(high).value - 0xD800) * 0x400 + (FourHex(low).value - 0xDC00) + 0x1_0000) as char
  }

  /** Two halves that stand together are a pair. */
  predicate PiecesOk(ps: seq<Piece>) {
    ps == [] ||
    (&& PieceOk(ps[0]) && PiecesOk(ps[1..])
     && (|ps| > 1 && ps[0].Unit? && IsHigh(FourHex(ps[0].hex).value) ==>
           !(ps[1].Unit? && HexOk(ps[1].hex) && IsLow(FourHex(ps[1].hex).value))))
  }

  function PiecesText(ps: seq<Piece>): string {
    if ps == [] then [] else PieceText(ps[0]) + PiecesText(ps[1..])
  }

  function PiecesChars(ps: seq<Piece>): string
    requires PiecesOk(ps)
  {
    if ps == [] then [] else [PieceChar(ps[0])] + PiecesChars(ps[1..])
  }

  /** Whether a text goes on with the escape of a low half. */
  predicate GoesOnLow(s: string) {
    |s| >= 6 && s[0] == '\\' && s[1] == 'u' && FourHex(s[2..]).Some? && IsLow(FourHex(s[2..]).value)
  }

  lemma FourHexOf(hex: string, more: string)
    requires |hex| == 4
    ensures FourHex(hex + more) == FourHex(hex)
  {
    hide HexValue;
  }

  lemma UnitReads(hex: string, more: string)
    requires HexOk(hex) && (IsHigh(FourHex(hex).value) ==> !GoesOnLow(more))
    ensures ReadEscape(['u'] + (hex + more)) == Some((PieceChar(Unit(hex)), more))
  {
    FourHexOf(hex, more);
    var s := ['u'] + (hex + more);
    hide FourHex;
    assert s[1..] == hex + more && s[5..] == more;
  }

  lemma PairReads(high: string, low: string, more: string)
    requires PieceOk(Pair(high, low))
    ensures ReadEscape(['u'] + (high + (['\\', 'u'] + (low + more)))) == Some((PieceChar(Pair(high, low)), more))
  {
    var tail := ['\\', 'u'] + (low + more);
    FourHexOf(high, tail);
    FourHexOf(low, more);
    var s := ['u'] + (high + tail);
    hide FourHex;
    assert s[1..] == high + tail && s[5..] == tail;
    assert tail[2..] == low + more && tail[6..] == more;
  }

  lemma UnitText(hex: string, tail: string)
    ensures PieceText(Unit(hex)) + tail == ['\\', 'u'] + (hex + tail)
    ensures PieceText(Unit(hex)) + tail == ['\\'] + (['u'] + (hex + tail))
  {
  }

  lemma PairText(high: string, low: string, tail: string)
    ensures PieceText(Pair(high, low)) + tail == ['\\', 'u'] + (high + (['\\', 'u'] + (low + tail)))
    ensures PieceText(Pair(high, low)) + tail == ['\\'] + (['u'] + (high + (['\\', 'u'] + (low + tail))))
  {
    var second := ['\\', 'u'] + low;
    assert second + tail == ['\\', 'u'] + (low + tail);
    assert high + second + tail == high + (second + tail);
  }

  lemma ShortReads(letter: char, more: string)
    requires ShortChar(letter).Some?
    ensures ReadEscape([letter] + more) == Some((ShortChar(letter).value, more))
  {
    assert ([letter] + more)[1..] == more;
  }

  lemma EscapeLeads(e: string, c: char, more: string, text: string, rest: string)
    requires ReadEscape(e) == Some((c, more)) && ReadChars(more) == Some((text, rest))
    ensures ReadChars(['\\'] + e) == Some(([c] + text, rest))
  {
    hide ReadEscape;
    assert (['\\'] + e)[1..] == e;
  }

  lemma PlainLeads(c: char, more: string, text: string, rest: string)
    requires PieceOk(Plain(c)) && ReadChars(more) == Some((text, rest))
    ensures ReadChars([c] + more) == Some(([c] + text, rest))
  {
    hide ReadEscape;
    assert ([c] + more)[1..] == more;
  }

  lemma PieceReads(p: Piece, more: string, text: string, rest: string)
    requires PieceOk(p) && ReadChars(more) == Some((text, rest))
    requires p.Unit? && IsHigh(FourHex(p.hex).value) ==> !GoesOnLow(more)
    ensures ReadChars(PieceText(p) + more) == Some(([PieceChar(p)] + text, rest))
  {
    hide ReadChars, ReadEscape, FourHex, GoesOnLow;
    match p
    case Plain(c) => PlainLeads(c, more, text, rest);
    case Short(letter) =>
      ShortReads(letter, more);
      EscapeLeads([letter] + more, PieceChar(p), more, text, rest);
      assert PieceText(p) + more == ['\\'] + ([letter] + more);
    case Unit(hex) =>
      UnitReads(hex, more);
      EscapeLeads(['u'] + (hex + more), PieceChar(p), more, text, rest);
      UnitText(hex, more);
      hide PieceText, PieceChar;
    case Pair(high, low) =>
      PairReads(high, low, more);
      EscapeLeads(['u'] + (high + (['\\', 'u'] + (low + more))), PieceChar(p), more, text, rest);
      PairText(high, low, more);
      hide PieceText, PieceChar;
  }

  lemma UnitGoesOn(hex: string, more: string)
    requires |hex| == 4
    ensures GoesOnLow(['\\', 'u'] + (hex + more)) <==> FourHex(hex).Some? && IsLow(FourHex(hex).value)
  {
    FourHexOf(hex, more);
    var s := ['\\', 'u'] + (hex + more);
    hide FourHex;
    assert s[2..] == hex + more;
  }

  lemma PieceGoesOn(p: Piece, more: string)
    requires PieceOk(p) && !(p.Unit? && IsLow(FourHex(p.hex).value))
    ensures !GoesOnLow(PieceText(p) + more)
  {
    var s := PieceText(p) + more;
    match p
    case Plain(_) =>
    case Short(_) =>
    case Unit(hex) =>
      UnitText(hex, more);
      UnitGoesOn(hex, more);
      hide GoesOnLow, PieceText, FourHex;
    case Pair(high, low) =>
      PairText(high, low, more);
      UnitGoesOn(high, ['\\', 'u'] + (low + more));
      hide GoesOnLow, PieceText, FourHex;
  }

  /** What goes on behind a half that stands alone is not the other half. */
  lemma NoLowBehind(ps: seq<Piece>, rest: string)
    requires PiecesOk(ps) && (ps != [] ==> !(ps[0].Unit? && IsLow(FourHex(ps[0].hex).value)))
    ensures !GoesOnLow(PiecesText(ps) + ("\"" + rest))
  {
    if ps == [] {
      assert PiecesText(ps) + ("\"" + rest) == "\"" + rest;
    } else {
      FirstPiece(ps, "\"" + rest);
      PieceGoesOn(ps[0], PiecesText(ps[1..]) + ("\"" + rest));
      hide GoesOnLow, PiecesText;
    }
  }

  lemma FirstPiece(ps: seq<Piece>, rest: string)
    requires ps != []
    ensures PiecesText(ps) + rest == PieceText(ps[0]) + (PiecesText(ps[1..]) + rest)
  {
    hide PieceText;
    assert PieceText(ps[0]) + PiecesText(ps[1..]) + rest == PieceText(ps[0]) + (PiecesText(ps[1..]) + rest);
  }

  lemma {:induction false} PiecesRead(ps: seq<Piece>, rest: string)
    requires PiecesOk(ps)
    ensures ReadChars(PiecesText(ps) + ("\"" + rest)) == Some((PiecesChars(ps), rest))
  {
    if ps == [] {
      var s := PiecesText(ps) + ("\"" + rest);
      assert s == "\"" + rest && s[1..] == rest;
    } else {
      FirstPiece(ps, "\"" + rest);
      StandsAlone(ps);
      assert PiecesChars(ps) == [PieceChar(ps[0])] + PiecesChars(ps[1..]);
      hide PieceText, PieceChar, PieceOk, ReadChars, PiecesText, PiecesChars, PiecesOk, FourHex, GoesOnLow;
      PiecesRead(ps[1..], rest);
      if ps[0].Unit? && IsHigh(FourHex(ps[0].hex).value) {
        NoLowBehind(ps[1..], rest);
      }
      PieceReads(ps[0], PiecesText(ps[1..]) + ("\"" + rest), PiecesChars(ps[1..]), rest);
    }
  }

  lemma StandsAlone(ps: seq<Piece>)
    requires PiecesOk(ps) && ps != []
    ensures PieceOk(ps[0]) && PiecesOk(ps[1..])
    ensures ps[0].Unit? ==> HexOk(ps[0].hex)
    ensures |ps| > 1 && ps[1].Unit? ==> HexOk(ps[1].hex)
    ensures ps[0].Unit? && IsHigh(FourHex(ps[0].hex).value) && |ps| > 1 && ps[1].Unit? ==>
              !IsLow(FourHex(ps[1].hex).value)
  {
    hide FourHex;
    if |ps| > 1 {
      assert ps[1..][0] == ps[1];
      assert PieceOk(ps[1..][0]);
    }
  }

  /** One escape that the reader takes is a piece. */
  lemma EscapeIsPiece(s: string) returns (p: Piece)
    requires ReadEscape(s).Some?
    ensures PieceOk(p) && ReadEscape(s).value.0 == PieceChar(p)
    ensures ['\\'] + s == PieceText(p) + ReadEscape(s).value.1
    ensures p.Unit? && IsHigh(FourHex(p.hex).value) ==> !GoesOnLow(ReadEscape(s).value.1)
  {
    if s[0] == 'u' {
      p := UnitIsPiece(s);
    } else {
      p := Short(s[0]);
      assert ['\\'] + s == ['\\', s[0]] + s[1..];
    }
  }

  lemma UnitIsPiece(s: string) returns (p: Piece)
    requires s != [] && s[0] == 'u' && ReadEscape(s).Some?
    ensures PieceOk(p) && ReadEscape(s).value.0 == PieceChar(p)
    ensures ['\\'] + s == PieceText(p) + ReadEscape(s).value.1
    ensures p.Unit? && IsHigh(FourHex(p.hex).value) ==> !GoesOnLow(ReadEscape(s).value.1)
  {
    var hex, more := s[1..5], s[5..];
    FiveCharacters(s);
    FourHexOf(hex, more);
    assert HexOk(hex);
    hide FourHex, GoesOnLow, PieceText, PieceChar, ReadEscape;
    if IsHigh(FourHex(hex).value) && GoesOnLow(more) {
      var low, after := LowHalf(more);
      p := Pair(hex, low);
      PairReads(hex, low, after);
      PairText(hex, low, after);
    } else {
      p := Unit(hex);
      UnitReads(hex, more);
      UnitText(hex, more);
    }
  }

  lemma FiveCharacters(s: string)
    requires |s| >= 5 && s[0] == 'u'
    ensures s == ['u'] + (s[1..5] + s[5..]) && s[1..] == s[1..5] + s[5..]
  {
  }

  lemma LowHalf(s: string) returns (low: string, after: string)
    requires GoesOnLow(s)
    ensures s == ['\\', 'u'] + (low + after) && HexOk(low) && IsLow(FourHex(low).value)
  {
    low, after := s[2..6], s[6..];
    assert s[2..] == low + after;
    FourHexOf(low, after);
    hide FourHex;
    assert s == ['\\', 'u'] + (low + after);
  }

  /** Whatever the reader takes for the inside of a string is spelt by pieces. */
  lemma {:induction false} CharsAreSpelt(s: string) returns (ps: seq<Piece>)
    requires ReadChars(s).Some?
    ensures PiecesOk(ps) && PiecesChars(ps) == ReadChars(s).value.0
    ensures s == PiecesText(ps) + ("\"" + ReadChars(s).value.1)
    decreases |s|
  {
    var rest := ReadChars(s).value.1;
    if s[0] == '"' {
      ps := [];
      assert s == "\"" + s[1..];
    } else {
      var p, more;
      if s[0] == '\\' {
        p := EscapeIsPiece(s[1..]);
        more := ReadEscape(s[1..]).value.1;
        assert s == ['\\'] + s[1..];
      } else {
        p, more := Plain(s[0]), s[1..];
        assert s == [s[0]] + s[1..];
      }
      var others := CharsAreSpelt(more);
      ps := [p] + others;
      assert ps[1..] == others;
      hide ReadEscape, PieceChar, PieceText;
      JoinPieces(p, others, rest, more);
      assert s == PieceText(p) + more;
    }
  }

  lemma JoinPieces(p: Piece, others: seq<Piece>, rest: string, more: string)
    requires PieceOk(p) && PiecesOk(others) && more == PiecesText(others) + ("\"" + rest)
    requires p.Unit? && IsHigh(FourHex(p.hex).value) ==> !GoesOnLow(more)
    ensures PiecesOk([p] + others) && PiecesChars([p] + others) == [PieceChar(p)] + PiecesChars(others)
    ensures PiecesText([p] + others) + ("\"" + rest) == PieceText(p) + more
  {
    var ps := [p] + others;
    assert ps[1..] == others;
    if others != [] && others[0].Unit? {
      LowGoesOn(others, rest);
    }
    hide PieceText, PieceChar, FourHex, PieceOk, GoesOnLow;
    FirstPiece(ps, "\"" + rest);
  }

  lemma LowGoesOn(ps: seq<Piece>, rest: string)
    requires PiecesOk(ps) && ps != [] && ps[0].Unit?
    ensures HexOk(ps[0].hex)
    ensures IsLow(FourHex(ps[0].hex).value) ==> GoesOnLow(PiecesText(ps) + ("\"" + rest))
  {
    StandsAlone(ps);
    FirstPiece(ps, "\"" + rest);
    var hex, tail := ps[0].hex, PiecesText(ps[1..]) + ("\"" + rest);
    hide FourHex, GoesOnLow, PiecesText, PiecesOk;
    UnitText(hex, tail);
    UnitGoesOn(hex, tail);
  }
}
