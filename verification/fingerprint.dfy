/** The certificate fingerprint: 64 hex characters into 32 bytes (rust/src/client_config.rs). */
module Fingerprint {
  import opened Events
  import opened Utf8

  /** Unicode white space, which `trim` takes off both ends. */
  predicate IsBlank(c: char) {
    var n := c as int;
    9 <= n <= 13 || n == 0x20 || n == 0x85 || n == 0xA0 || n == 0x1680 || 0x2000 <= n <= 0x200A
    || n == 0x2028 || n == 0x2029 || n == 0x202F || n == 0x205F || n == 0x3000
  }

  /** The table of white space, once more as a set. */
  lemma BlanksAre(c: char)
    ensures IsBlank(c) <==>
            c as int in {0x09, 0x0A, 0x0B, 0x0C, 0x0D, 0x20, 0x85, 0xA0, 0x1680,
                         0x2000, 0x2001, 0x2002, 0x2003, 0x2004, 0x2005, 0x2006, 0x2007, 0x2008, 0x2009, 0x200A,
                         0x2028, 0x2029, 0x202F, 0x205F, 0x3000}
  {
  }

  function TrimStart(s: string): string {
    if s != [] && IsBlank(s[0]) then TrimStart(s[1..]) else s
  }

  function TrimEnd(s: string): string {
    if s != [] && IsBlank(s[|s| - 1]) then TrimEnd(s[..|s| - 1]) else s
  }

  function Trim(s: string): string {
    TrimEnd(TrimStart(s))
  }

  function Digit(b: byte): Option<int> {
    if '0' as int <= b <= '9' as int then Some(b - '0' as int)
    else if 'a' as int <= b <= 'f' as int then Some(b - 'a' as int + 10)
    else if 'A' as int <= b <= 'F' as int then Some(b - 'A' as int + 10)
    else None
  }

  const PLUS: byte := '+' as int

  /** The digits and their values: either case. */
  lemma DigitsAre(n: nat)
    requires n < 16
    ensures Digit("0123456789abcdef"[n] as int) == Some(n)
    ensures Digit("0123456789ABCDEF"[n] as int) == Some(n)
  {
  }

  /** No other byte is a digit. */
  lemma OnlyDigitsAre(b: byte)
    requires Digit(b).Some?
    ensures 0 <= Digit(b).value < 16
    ensures b == "0123456789abcdef"[Digit(b).value] as int || b == "0123456789ABCDEF"[Digit(b).value] as int
  {
  }

  /** `u8::from_str_radix(pair, 16)`: two digits, or a plus sign and one. */
  function Pair(high: byte, low: byte): (r: Option<byte>) {
    if Digit(low).None? then None
    else if high == PLUS then Some(Small(Digit(low).value))
    else if Digit(high).None? then None
    else Some(Small(Digit(high).value * 16 + Digit(low).value))
  }

  /** The grammar of a pair and its value: a plus sign may stand for the first digit, and counts as zero. */
  lemma PairGrammar(high: byte, low: byte)
    ensures Pair(high, low).Some? <==> Digit(low).Some? && (Digit(high).Some? || high == '+' as int)
    ensures Digit(high).Some? && Digit(low).Some? ==>
              Pair(high, low) == Some(16 * Digit(high).value + Digit(low).value)
    ensures high == '+' as int && Digit(low).Some? ==> Pair(high, low) == Some(Digit(low).value)
  {
  }

  function Small(n: int): byte {
    if 0 <= n < 256 then n else 0
  }

  /** Whether a text may be cut before byte `i`: not inside a character. */
  predicate Boundary(b: seq<byte>, i: nat) {
    i == 0 || i == |b| || (i < |b| && !Tail(b[i]))
  }

  datatype Parsed = Hash(bytes: seq<byte>) | WrongLength(length: nat) | BadPair(index: nat) | Panicked

  predicate PairOk(b: seq<byte>, i: nat)
    requires 2 * i + 1 < |b|
  {
    Pair(b[2 * i], b[2 * i + 1]).Some?
  }

  predicate Cuttable(b: seq<byte>, i: nat) {
    Boundary(b, 2 * i) && Boundary(b, 2 * i + 2)
  }

  /** What 64 bytes stand for, if every pair stands for a byte. */
  function HashOf(b: seq<byte>): Option<seq<byte>> {
    if |b| == 64 && forall i: nat | i < 32 :: PairOk(b, i)
    then Some(seq(32, i requires 0 <= i < 32 && |b| == 64 => PairValue(b, i)))
    else None
  }

  function PairValue(b: seq<byte>, i: nat): byte
    requires 2 * i + 1 < |b|
  {
    match Pair(b[2 * i], b[2 * i + 1])
    case Some(value) => value
    case None => 0
  }

  /** What `ParseHash` answers with a hash. */
  predicate Accepted(text: string) {
    HashOf(Encode(Trim(text))).Some?
  }

  /** Where the text cannot be cut, a byte stands that begins no pair. */
  lemma UncuttableIsNoHash(b: seq<byte>, i: nat)
    requires |b| == 64 && i < 32 && !Cuttable(b, i)
    ensures HashOf(b).None?
  {
    var j := if Boundary(b, 2 * i) then i + 1 else i;
    assert !PairOk(b, j);
  }

  /** The right length, and before any bad pair a place where the text cannot be cut. */
  ghost predicate Jams(text: string) {
    var b := Encode(Trim(text));
    |b| == 64 && exists i: nat :: i < 32 && !Cuttable(b, i) && forall j: nat | j < i :: PairOk(b, j)
  }

  /** `parse_hash`: fills 32 bytes pair by pair, and stops at the first pair that will not do. */
  method ParseHash(text: string) returns (r: Parsed)
    ensures r.Hash? <==> Accepted(text)
    ensures r.Hash? ==> r.bytes == HashOf(Encode(Trim(text))).value
    ensures r.Hash? ==> |r.bytes| == 32
    ensures r.WrongLength? <==> |Encode(Trim(text))| != 64
    ensures r.WrongLength? ==> r.length == |Encode(Trim(text))|
    ensures r.BadPair? ==>
              && r.index < 32 && |Encode(Trim(text))| == 64
              && Cuttable(Encode(Trim(text)), r.index) && !PairOk(Encode(Trim(text)), r.index)
              && forall j: nat | j < r.index :: PairOk(Encode(Trim(text)), j) && Cuttable(Encode(Trim(text)), j)
    ensures r.Panicked? <==> Jams(text)
  {
    var trimmed := Encode(Trim(text));
    hide Encode, Trim, Pair;
    if |trimmed| != 64 {
      return WrongLength(|trimmed|);
    }
    var out := new byte[32];
    var i := 0;
    while i < 32
      invariant 0 <= i <= 32
      invariant forall j: nat | j < i :: PairOk(trimmed, j) && Cuttable(trimmed, j) && out[j] == PairValue(trimmed, j)
    {
      if !Boundary(trimmed, 2 * i) || !Boundary(trimmed, 2 * i + 2) {
        assert !Cuttable(trimmed, i);
        UncuttableIsNoHash(trimmed, i);
        return Panicked;
      }
      assert Cuttable(trimmed, i);
      var value := Pair(trimmed[2 * i], trimmed[2 * i + 1]);
      if value.None? {
        assert !PairOk(trimmed, i);
        return BadPair(i);
      }
      out[i] := value.value;
      i := i + 1;
    }
    r := Hash(out[..]);
  }

  // --- what it accepts ------------------------------------------------------------------

  predicate AllHex(b: seq<byte>) {
    forall d <- b :: Digit(d).Some?
  }

  /** What is accepted is 64 hex digits exactly when it holds no plus sign. */
  lemma AcceptedIsHexWithoutPlus(b: seq<byte>)
    requires HashOf(b).Some?
    ensures |b| == 64 && (AllHex(b) <==> PLUS !in b)
  {
    forall k: nat | k < 64
      ensures Digit(b[k]).Some? || b[k] == PLUS
    {
      assert PairOk(b, k / 2);
      assert k == 2 * (k / 2) || k == 2 * (k / 2) + 1;
    }
    assert Digit(PLUS).None?;
    if PLUS !in b {
      forall d <- b
        ensures Digit(d).Some?
      {
        var k: nat :| k < |b| && b[k] == d;
      }
    }
  }

  // --- hex text ---------------------------------------------------------------------------

  function HexDigit(n: int, upper: bool): char
    requires 0 <= n < 16
  {
    if n < 10 then ('0' as int + n) as char
    else if upper then ('A' as int + n - 10) as char
    else ('a' as int + n - 10) as char
  }

  /** The hex text of some bytes, each digit in either case. */
  function HexText(bytes: seq<byte>, upper: nat -> bool): string {
    if bytes == [] then [] else
      var n := |bytes| - 1;
      HexText(bytes[..n], upper) + [HexDigit(bytes[n] / 16, upper(2 * n)), HexDigit(bytes[n] % 16, upper(2 * n + 1))]
  }

  predicate Ascii(s: string) {
    forall c <- s :: c as int < 0x80
  }

  lemma {:induction false} AsciiEncodes(s: string)
    requires Ascii(s)
    ensures |Encode(s)| == |s| && forall i | 0 <= i < |s| :: Encode(s)[i] == s[i] as int
  {
    if s != [] {
      assert forall c <- s[1..] :: c in s;
      AsciiEncodes(s[1..]);
      assert s[0] in s;
    }
  }

  lemma {:induction false} HexTextIs(bytes: seq<byte>, upper: nat -> bool)
    ensures |HexText(bytes, upper)| == 2 * |bytes|
    ensures forall i: nat | i < |bytes| ::
              && HexText(bytes, upper)[2 * i] == HexDigit(bytes[i] / 16, upper(2 * i))
              && HexText(bytes, upper)[2 * i + 1] == HexDigit(bytes[i] % 16, upper(2 * i + 1))
  {
    if bytes != [] {
      HexTextIs(bytes[..|bytes| - 1], upper);
    }
  }

  lemma HexDigitReads(n: int, upper: bool)
    requires 0 <= n < 16
    ensures HexDigit(n, upper) as int < 0x80 && !IsBlank(HexDigit(n, upper))
    ensures HexDigit(n, upper) as int != PLUS && Digit(HexDigit(n, upper) as int) == Some(n)
  {
  }

  lemma {:induction false} TrimStartStops(before: string, core: string)
    requires (forall c <- before :: IsBlank(c)) && core != [] && !IsBlank(core[0])
    ensures TrimStart(before + core) == core
  {
    if before == [] {
      assert before + core == core;
    } else {
      assert before[0] in before && forall c <- before[1..] :: c in before;
      TrimStartStops(before[1..], core);
      assert (before + core)[1..] == before[1..] + core;
    }
  }

  lemma {:induction false} TrimEndStops(core: string, after: string)
    requires (forall c <- after :: IsBlank(c)) && core != [] && !IsBlank(core[|core| - 1])
    ensures TrimEnd(core + after) == core
  {
    if after == [] {
      assert core + after == core;
    } else {
      var n := |after| - 1;
      assert after[n] in after && forall c <- after[..n] :: c in after;
      TrimEndStops(core, after[..n]);
      assert (core + after)[..|core + after| - 1] == core + after[..n];
    }
  }

  /** Blanks around a text that begins and ends with something else do not matter. */
  lemma TrimCuts(before: string, core: string, after: string)
    requires (forall c <- before :: IsBlank(c)) && (forall c <- after :: IsBlank(c))
    requires core != [] && !IsBlank(core[0]) && !IsBlank(core[|core| - 1])
    ensures Trim(before + core + after) == core
  {
    assert before + core + after == before + (core + after);
    TrimStartStops(before, core + after);
    TrimEndStops(core, after);
  }

  lemma PairOfDigits(n: byte, high: bool, low: bool)
    ensures Pair(HexDigit(n / 16, high) as int, HexDigit(n % 16, low) as int) == Some(n)
  {
    HexDigitReads(n / 16, high);
    HexDigitReads(n % 16, low);
  }

  /** The hex text of any 32 bytes, in any case and between blanks, is read back as those bytes. */
  lemma HexTextReads(bytes: seq<byte>, upper: nat -> bool, before: string, after: string)
    requires |bytes| == 32 && (forall c <- before :: IsBlank(c)) && (forall c <- after :: IsBlank(c))
    ensures HashOf(Encode(Trim(before + HexText(bytes, upper) + after))) == Some(bytes)
  {
    var core := HexText(bytes, upper);
    HexTextIs(bytes, upper);
    hide HexText, Trim, Encode, Pair, HexDigit, IsBlank;
    forall k: nat | k < 64
      ensures core[k] as int < 0x80 && !IsBlank(core[k])
    {
      var i := k / 2;
      assert k == 2 * i || k == 2 * i + 1;
      HexDigitReads(bytes[i] / 16, upper(2 * i));
      HexDigitReads(bytes[i] % 16, upper(2 * i + 1));
    }
    TrimCuts(before, core, after);
    AsciiEncodes(core);
    var b := Encode(core);
    forall i: nat | i < 32
      ensures PairOk(b, i) && PairValue(b, i) == bytes[i]
    {
      PairOfDigits(bytes[i], upper(2 * i), upper(2 * i + 1));
    }
    assert HashOf(b).value == bytes;
  }

  // --- case --------------------------------------------------------------------------------

  function Fold(c: char): char {
    if 'A' <= c <= 'Z' then (c as int + 32) as char else c
  }

  /** Two texts that differ in the case of ASCII letters only. */
  ghost predicate SameButCase(a: string, b: string) {
    |a| == |b| && forall i | 0 <= i < |a| :: Fold(a[i]) == Fold(b[i])
  }

  lemma FoldKeepsDigit(c: char, d: char)
    requires Fold(c) == Fold(d) && c as int < 0x80 && d as int < 0x80
    ensures Digit(c as int) == Digit(d as int) && (c as int == PLUS <==> d as int == PLUS)
    ensures IsBlank(c) <==> IsBlank(d)
  {
  }

  lemma {:induction false} CaseKeepsTrim(a: string, b: string)
    requires SameButCase(a, b) && Ascii(a) && Ascii(b)
    ensures SameButCase(Trim(a), Trim(b)) && Ascii(Trim(a)) && Ascii(Trim(b))
  {
    CaseKeepsTrimStart(a, b);
    CaseKeepsTrimEnd(TrimStart(a), TrimStart(b));
  }

  lemma {:induction false} CaseKeepsTrimStart(a: string, b: string)
    requires SameButCase(a, b) && Ascii(a) && Ascii(b)
    ensures SameButCase(TrimStart(a), TrimStart(b)) && Ascii(TrimStart(a)) && Ascii(TrimStart(b))
  {
    if a != [] {
      assert a[0] in a && b[0] in b;
      FoldKeepsDigit(a[0], b[0]);
      if IsBlank(a[0]) {
        assert (forall c <- a[1..] :: c in a) && forall c <- b[1..] :: c in b;
        CaseKeepsTrimStart(a[1..], b[1..]);
      }
    }
  }

  lemma {:induction false} CaseKeepsTrimEnd(a: string, b: string)
    requires SameButCase(a, b) && Ascii(a) && Ascii(b)
    ensures SameButCase(TrimEnd(a), TrimEnd(b)) && Ascii(TrimEnd(a)) && Ascii(TrimEnd(b))
  {
    if a != [] {
      var n := |a| - 1;
      assert a[n] in a && b[n] in b;
      FoldKeepsDigit(a[n], b[n]);
      if IsBlank(a[n]) {
        assert (forall c <- a[..n] :: c in a) && forall c <- b[..n] :: c in b;
        CaseKeepsTrimEnd(a[..n], b[..n]);
      }
    }
  }

  /** For ASCII input the case of letters changes nothing: neither acceptance nor the bytes. */
  lemma CaseDoesNotMatter(a: string, b: string)
    requires SameButCase(a, b) && Ascii(a) && Ascii(b)
    ensures HashOf(Encode(Trim(a))) == HashOf(Encode(Trim(b)))
  {
    CaseKeepsTrim(a, b);
    var x, y := Trim(a), Trim(b);
    AsciiEncodes(x);
    AsciiEncodes(y);
    hide Trim, Encode, Fold;
    forall k: nat | k < |x|
      ensures Digit(Encode(x)[k]) == Digit(Encode(y)[k]) && (Encode(x)[k] == PLUS <==> Encode(y)[k] == PLUS)
    {
      assert x[k] in x && y[k] in y;
      FoldKeepsDigit(x[k], y[k]);
    }
    hide Digit;
    forall i: nat | 2 * i + 1 < |x|
      ensures Pair(Encode(x)[2 * i], Encode(x)[2 * i + 1]) == Pair(Encode(y)[2 * i], Encode(y)[2 * i + 1])
    {
    }
    hide Pair;
    SamePairsSameHash(Encode(x), Encode(y));
  }

  lemma SamePairsSameHash(a: seq<byte>, b: seq<byte>)
    requires |a| == |b|
    requires forall i: nat | 2 * i + 1 < |a| :: Pair(a[2 * i], a[2 * i + 1]) == Pair(b[2 * i], b[2 * i + 1])
    ensures HashOf(a) == HashOf(b)
  {
    hide Pair;
    if |a| == 64 {
      assert forall i: nat | i < 32 :: PairOk(a, i) <==> PairOk(b, i);
      assert forall i: nat | i < 32 :: PairValue(a, i) == PairValue(b, i);
      if HashOf(a).Some? {
        assert HashOf(a).value == HashOf(b).value;
      }
    }
  }

  /** An `a`, `n` times an `e` with an accent, and another `a`. */
  function PanickingText(n: nat): string {
    if n == 0 then "aa" else "a" + Accents(n) + "a"
  }

  function Accents(n: nat): string {
    if n == 0 then [] else [0xE9 as char] + Accents(n - 1)
  }

  lemma {:induction false} AccentsEncode(n: nat)
    ensures |Encode(Accents(n))| == 2 * n
    ensures n > 0 ==> Encode(Accents(n))[0] == 0xC3 && Encode(Accents(n))[1] == 0xA9
  {
    if n > 0 {
      AccentsEncode(n - 1);
      EncodeCons(0xE9 as char, Accents(n - 1));
    }
  }

  lemma PanickingTextIs(n: nat)
    requires n > 0
    ensures |Encode(PanickingText(n))| == 2 * n + 2 && Encode(PanickingText(n))[2] == 0xA9
    ensures Trim(PanickingText(n)) == PanickingText(n)
  {
    AccentsEncode(n);
    EncodeJoins("a" + Accents(n), "a");
    EncodeJoins("a", Accents(n));
    EncodeCons('a', []);
    assert ['a'] + [] == "a";
    var text := PanickingText(n);
    assert [] + text + [] == text;
    TrimCuts([], text, []);
  }

  /** Not every refusal is a sentence: 64 bytes whose third continues a character make the parser panic. */
  lemma SomeTextPanics()
    ensures exists text: string :: Jams(text)
  {
    var n: nat :| n == 31;
    PanickingTextIs(n);
    assert !Boundary(Encode(Trim(PanickingText(n))), 2);
    assert !Cuttable(Encode(Trim(PanickingText(n))), 0);
    assert Jams(PanickingText(n));
  }

  // --- what else it accepts ---------------------------------------------------------------

  /** 32 times a plus sign and an `a`. */
  function Pluses(n: nat): string {
    if n == 0 then [] else "+a" + Pluses(n - 1)
  }

  lemma {:induction false} PlusesAre(n: nat)
    ensures |Pluses(n)| == 2 * n
    ensures forall i: nat | i < n :: Pluses(n)[2 * i] == '+' && Pluses(n)[2 * i + 1] == 'a'
  {
    if n > 0 {
      PlusesAre(n - 1);
      forall i: nat | i < n
        ensures Pluses(n)[2 * i] == '+' && Pluses(n)[2 * i + 1] == 'a'
      {
        if i > 0 {
          assert Pluses(n)[2 * i] == Pluses(n - 1)[2 * (i - 1)];
          assert Pluses(n)[2 * i + 1] == Pluses(n - 1)[2 * (i - 1) + 1];
        }
      }
    }
  }

  /** The text is nothing but those characters, so nothing is trimmed off and each is one byte. */
  lemma PlusesEncode(n: nat)
    requires n > 0
    ensures var b := Encode(Trim(Pluses(n)));
            && |b| == 2 * n
            && forall i: nat | i < n :: b[2 * i] == PLUS && b[2 * i + 1] == 'a' as int
  {
    var text := Pluses(n);
    PlusesAre(n);
    hide Pluses, Encode, Trim;
    assert text[2 * 0] == '+' && text[2 * (n - 1) + 1] == 'a';
    assert [] + text + [] == text;
    TrimCuts([], text, []);
    forall k: nat | k < 2 * n
      ensures text[k] == '+' || text[k] == 'a'
    {
      assert k == 2 * (k / 2) || k == 2 * (k / 2) + 1;
    }
    AsciiEncodes(text);
  }

  /** So the documented "64 hex characters" is not quite what the code asks for. */
  lemma PlusIsAccepted()
    ensures exists text: string :: Accepted(text) && !AllHex(Encode(Trim(text)))
  {
    var n: nat :| n == 32;
    PlusesEncode(n);
    hide Pluses, Trim, Encode;
    var b := Encode(Trim(Pluses(n)));
    forall i: nat | i < 32
      ensures PairOk(b, i)
    {
      assert b[2 * i] == PLUS && b[2 * i + 1] == 'a' as int;
    }
    assert b[2 * 0] in b && Digit(b[2 * 0]).None?;
    assert Accepted(Pluses(n)) && !AllHex(Encode(Trim(Pluses(n))));
  }
}
