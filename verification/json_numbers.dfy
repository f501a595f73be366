/** Numbers: section 6 of RFC 8259, against the reader. */
module JsonNumbers {
  import opened Events
  import opened Json

  /** What may stand behind a number, or any other value: the end, a blank, or the sign that goes on or ends a list. */
  predicate Stops(rest: string) {
    rest == [] || rest[0] in ",]} \t\n\r"
  }

  datatype Numeral = Numeral(minus: bool, whole: string, fraction: string, exponent: string)

  predicate Digits(s: string) {
    s != [] && forall i | 0 <= i < |s| :: '0' <= s[i] <= '9'
  }

  predicate NumeralOk(n: Numeral) {
    && Digits(n.whole) && (|n.whole| > 1 ==> n.whole[0] != '0')
    && (n.fraction == [] || (n.fraction[0] == '.' && Digits(n.fraction[1..])))
    && ExponentOk(n.exponent)
  }

  predicate ExponentOk(e: string) {
    e == [] ||
    (&& (e[0] == 'e' || e[0] == 'E')
     && (Digits(e[1..]) || (|e| > 1 && (e[1] == '+' || e[1] == '-') && Digits(e[2..]))))
  }

  function Sign(n: Numeral): string {
    if n.minus then "-" else ""
  }

  function NumeralText(n: Numeral): string {
    Sign(n) + (n.whole + (n.fraction + n.exponent))
  }

  /** A whole number of 64 bits is an integer; any other is kept as its text. */
  function NumeralValue(n: Numeral): Value {
    var size := if n.minus then -NatOf(n.whole) else NatOf(n.whole);
    if n.fraction == [] && n.exponent == [] && -0x8000_0000_0000_0000 <= size < 0x8000_0000_0000_0000
    then Int(size)
    else Double(NumeralText(n))
  }

  /** Digits are worth what they say: ten times what stands before, and the last. */
  lemma DigitsAreWorth(before: string, last: nat)
    requires last < 10
    ensures NatOf([]) == 0
    ensures NatOf(before + ["0123456789"[last]]) == 10 * NatOf(before) + last
  {
    assert (before + ["0123456789"[last]])[..|before|] == before;
  }

  lemma DigitsStop(digits: string, rest: string)
    requires Digits(digits) && (rest == [] || !IsDigit(rest[0]))
    ensures DigitRun(digits + rest) == |digits|
  {
    assert AllDigits(digits);
    hide Digits, IsDigit, DigitRun;
    DigitRunStops(digits, rest);
  }

  lemma FractionStops(fraction: string, rest: string)
    requires fraction == [] || (fraction[0] == '.' && Digits(fraction[1..]))
    requires rest == [] || (!IsDigit(rest[0]) && rest[0] != '.')
    ensures FractionRun(fraction + rest) == Some(|fraction|)
  {
    if fraction == [] {
      assert fraction + rest == rest;
    } else {
      assert (fraction + rest)[1..] == fraction[1..] + rest;
      DigitsStop(fraction[1..], rest);
    }
  }

  lemma ExponentStops(e: string, rest: string)
    requires ExponentOk(e) && Stops(rest)
    ensures ExponentRun(e + rest) == Some(|e|)
  {
    if e == [] {
      assert e + rest == rest;
    } else if |e| > 1 && (e[1] == '+' || e[1] == '-') {
      assert (e + rest)[2..] == e[2..] + rest;
      DigitsStop(e[2..], rest);
    } else {
      assert (e + rest)[1..] == e[1..] + rest;
      DigitsStop(e[1..], rest);
    }
  }

  /** The cuts the reader makes in a number. */
  lemma Cuts(sign: string, whole: string, fraction: string, exponent: string, rest: string)
    ensures var s := sign + (whole + (fraction + (exponent + rest)));
            var end := |sign| + |whole| + (|fraction| + |exponent|);
            && |s| == end + |rest|
            && s[|sign|..] == whole + (fraction + (exponent + rest))
            && s[|sign|..|sign| + |whole|] == whole
            && s[|sign| + |whole|..] == fraction + (exponent + rest)
            && s[..end] == sign + (whole + (fraction + exponent)) && s[end..] == rest
    ensures (fraction + (exponent + rest))[|fraction|..] == exponent + rest
  {
  }

  /** What the reader makes of a number once its four parts are measured. */
  lemma Measured(s: string, minus: bool, whole: nat, f: nat, x: nat)
    requires minus <==> s != [] && s[0] == '-'
    requires var sign := if minus then 1 else 0;
             && DigitRun(s[sign..]) == whole > 0 && (whole > 1 ==> s[sign] != '0')
             && FractionRun(s[sign + whole..]) == Some(f)
             && ExponentRun(s[sign + whole..][f..]) == Some(x)
    ensures var sign, end := if minus then 1 else 0, (if minus then 1 else 0) + whole + (f + x);
            var n := NatOf(s[sign..sign + whole]);
            var size := if minus then -n else n;
            end <= |s| &&
            ReadNumber(s) ==
              Some((if f == 0 && x == 0 && -0x8000_0000_0000_0000 <= size < 0x8000_0000_0000_0000
                    then Int(size) else Double(s[..end]), s[end..]))
  {
    hide DigitRun, FractionRun, ExponentRun, NatOf, IsDigit;
  }

  /** A text that begins with a numeral, measured as the reader measures it. */
  predicate BeginsAs(s: string, n: Numeral, rest: string) {
    var sign, w, f, x := if n.minus then 1 else 0, |n.whole|, |n.fraction|, |n.exponent|;
    && (n.minus <==> s != [] && s[0] == '-')
    && |s| == sign + w + (f + x) + |rest|
    && DigitRun(s[sign..]) == w > 0 && (w > 1 ==> s[sign] != '0')
    && FractionRun(s[sign + w..]) == Some(f)
    && ExponentRun(s[sign + w..][f..]) == Some(x)
    && s[sign..sign + w] == n.whole && s[..sign + w + (f + x)] == NumeralText(n) && s[sign + w + (f + x)..] == rest
  }

  lemma BeginningReads(s: string, n: Numeral, rest: string)
    requires BeginsAs(s, n, rest)
    ensures ReadNumber(s) == Some((NumeralValue(n), rest))
  {
    hide DigitRun, FractionRun, ExponentRun, NatOf, ReadNumber, NumeralText;
    Measured(s, n.minus, |n.whole|, |n.fraction|, |n.exponent|);
  }

  lemma FromCuts(s: string, n: Numeral, rest: string, after: string, behind: string)
    requires n.minus <==> s != [] && s[0] == '-'
    requires |s| == |Sign(n)| + |n.whole| + (|n.fraction| + |n.exponent|) + |rest|
    requires s[|Sign(n)|..] == n.whole + after && s[|Sign(n)| + |n.whole|..] == after && after[|n.fraction|..] == behind
    requires DigitRun(n.whole + after) == |n.whole| > 0 && (|n.whole| > 1 ==> s[|Sign(n)|] != '0')
    requires FractionRun(after) == Some(|n.fraction|) && ExponentRun(behind) == Some(|n.exponent|)
    requires s[|Sign(n)|..|Sign(n)| + |n.whole|] == n.whole
    requires var end := |Sign(n)| + |n.whole| + (|n.fraction| + |n.exponent|);
             s[..end] == NumeralText(n) && s[end..] == rest
    ensures BeginsAs(s, n, rest)
  {
    hide DigitRun, FractionRun, ExponentRun, NumeralText;
  }

  lemma NumeralBegins(n: Numeral, rest: string)
    requires NumeralOk(n) && Stops(rest)
    ensures BeginsAs(Sign(n) + (n.whole + (n.fraction + (n.exponent + rest))), n, rest)
  {
    var behind := n.exponent + rest;
    var after := n.fraction + behind;
    Beginnings(n, rest);
    DigitsStop(n.whole, after);
    FractionStops(n.fraction, behind);
    ExponentStops(n.exponent, rest);
    hide *;
    AllCuts(n, rest, after, behind, Sign(n) + (n.whole + after));
    FromCuts(Sign(n) + (n.whole + after), n, rest, after, behind);
  }

  lemma AllCuts(n: Numeral, rest: string, after: string, behind: string, s: string)
    requires behind == n.exponent + rest && after == n.fraction + behind && s == Sign(n) + (n.whole + after)
    ensures |s| == |Sign(n)| + |n.whole| + (|n.fraction| + |n.exponent|) + |rest|
    ensures s[|Sign(n)|..] == n.whole + after && s[|Sign(n)| + |n.whole|..] == after && after[|n.fraction|..] == behind
    ensures s[|Sign(n)|..|Sign(n)| + |n.whole|] == n.whole
    ensures var end := |Sign(n)| + |n.whole| + (|n.fraction| + |n.exponent|);
            s[..end] == NumeralText(n) && s[end..] == rest
  {
    hide Sign;
    Cuts(Sign(n), n.whole, n.fraction, n.exponent, rest);
    Spelling(n);
  }

  lemma Spelling(n: Numeral)
    ensures NumeralText(n) == Sign(n) + (n.whole + (n.fraction + n.exponent))
  {
  }

  lemma NumeralReads(n: Numeral, rest: string)
    requires NumeralOk(n) && Stops(rest)
    ensures ReadNumber(NumeralText(n) + rest) == Some((NumeralValue(n), rest))
  {
    hide BeginsAs, NumeralOk, NumeralValue, ReadNumber, Stops;
    NumeralBegins(n, rest);
    BeginningReads(Sign(n) + (n.whole + (n.fraction + (n.exponent + rest))), n, rest);
    Regroup(Sign(n), n.whole, n.fraction, n.exponent, rest);
  }

  lemma Beginnings(n: Numeral, rest: string)
    requires NumeralOk(n) && Stops(rest)
    ensures var behind := n.exponent + rest;
            var after := n.fraction + behind;
            var s := Sign(n) + (n.whole + after);
            && (n.minus <==> s != [] && s[0] == '-')
            && |n.whole| > 0 && |s| > |Sign(n)| && (|n.whole| > 1 ==> s[|Sign(n)|] != '0')
            && (behind == [] || (!IsDigit(behind[0]) && behind[0] != '.'))
            && (after == [] || !IsDigit(after[0]))
  {
    var behind := n.exponent + rest;
    var after := n.fraction + behind;
    var s := Sign(n) + (n.whole + after);
    assert s[|Sign(n)|] == n.whole[0];
    assert behind == if n.exponent == [] then rest else behind;
    assert after == if n.fraction == [] then behind else after;
  }

  lemma Regroup(a: string, b: string, c: string, d: string, e: string)
    ensures a + (b + (c + d)) + e == a + (b + (c + (d + e)))
  {
  }

  // --- the other way --------------------------------------------------------------------

  lemma {:induction false} RunIsDigits(s: string)
    ensures forall i | 0 <= i < DigitRun(s) :: '0' <= s[i] <= '9'
  {
    if s != [] && IsDigit(s[0]) {
      RunIsDigits(s[1..]);
      assert forall i | 1 <= i < |s| :: s[i] == s[1..][i - 1];
    }
  }

  lemma FractionIsSpelt(s: string)
    requires FractionRun(s).Some?
    ensures var f := s[..FractionRun(s).value]; f == [] || (f[0] == '.' && Digits(f[1..]))
  {
    if s != [] && s[0] == '.' {
      WholeIsSpelt(s[1..]);
      var f := s[..FractionRun(s).value];
      assert f[1..] == s[1..][..|f| - 1];
    }
  }

  lemma ExponentIsSpelt(s: string)
    requires ExponentRun(s).Some?
    ensures ExponentOk(s[..ExponentRun(s).value])
  {
    if s != [] && (s[0] == 'e' || s[0] == 'E') {
      var e := s[..ExponentRun(s).value];
      var sign := if |s| > 1 && (s[1] == '+' || s[1] == '-') then 1 else 0;
      WholeIsSpelt(s[1 + sign..]);
      assert e[1 + sign..] == s[1 + sign..][..|e| - 1 - sign];
    }
  }

  /** Whatever the reader takes for a number is spelt as one. */
  lemma NumberIsSpelt(s: string) returns (n: Numeral)
    requires ReadNumber(s).Some?
    ensures NumeralOk(n) && NumeralValue(n) == ReadNumber(s).value.0
    ensures s == NumeralText(n) + ReadNumber(s).value.1
  {
    n := PartsFrom(s);
    PartsAreOk(s, n.minus, n);
    NumberBegins(s, n);
    hide *;
    var end := (if n.minus then 1 else 0) + |n.whole| + (|n.fraction| + |n.exponent|);
    BeginningReads(s, n, s[end..]);
    BeginningIsText(s, n, s[end..]);
  }

  lemma BeginningIsText(s: string, n: Numeral, rest: string)
    requires BeginsAs(s, n, rest)
    ensures s == NumeralText(n) + rest
  {
    hide DigitRun, FractionRun, ExponentRun, NumeralText;
    var end := (if n.minus then 1 else 0) + |n.whole| + (|n.fraction| + |n.exponent|);
    assert s == s[..end] + s[end..];
  }

  lemma PartsAreThere(s: string)
    requires ReadNumber(s).Some?
    ensures var sign := if s != [] && s[0] == '-' then 1 else 0;
            var whole := DigitRun(s[sign..]);
            && FractionRun(s[sign + whole..]).Some?
            && ExponentRun(s[sign + whole..][FractionRun(s[sign + whole..]).value..]).Some?
  {
    hide IsDigit, DigitRun, FractionRun, ExponentRun, NatOf;
  }

  lemma PartsFrom(s: string) returns (n: Numeral)
    requires ReadNumber(s).Some?
    ensures PartsOf(s, n.minus, n)
  {
    PartsAreThere(s);
    hide IsDigit, DigitRun, FractionRun, ExponentRun, ReadNumber;
    var minus := s != [] && s[0] == '-';
    var sign := if minus then 1 else 0;
    var whole := DigitRun(s[sign..]);
    var after := s[sign + whole..];
    var f := FractionRun(after).value;
    var x := ExponentRun(after[f..]).value;
    n := Numeral(minus, s[sign..][..whole], after[..f], after[f..][..x]);
    assert |n.whole| == whole && |n.fraction| == f;
    hide *;
    Takes(s, n, sign, whole, after, f, x);
  }

  /** What the reader takes, piece by piece. */
  lemma Takes(s: string, n: Numeral, sign: nat, whole: nat, after: string, f: nat, x: nat)
    requires ReadNumber(s).Some? && (n.minus <==> s != [] && s[0] == '-') && sign == if n.minus then 1 else 0
    requires sign <= |s| && whole == DigitRun(s[sign..]) && n.whole == s[sign..][..whole] && |n.whole| == whole
    requires sign + whole <= |s| && after == s[sign + whole..]
    requires FractionRun(after) == Some(f) && n.fraction == after[..f] && |n.fraction| == f
    requires ExponentRun(after[f..]) == Some(x) && n.exponent == after[f..][..x]
    ensures PartsOf(s, n.minus, n)
  {
    hide IsDigit, DigitRun, FractionRun, ExponentRun, ReadNumber;
  }

  predicate PartsOf(s: string, minus: bool, n: Numeral) {
    var sign := if minus then 1 else 0;
    && ReadNumber(s).Some? && (minus <==> s != [] && s[0] == '-') && n.minus == minus
    && n.whole == s[sign..][..DigitRun(s[sign..])]
    && var after := s[sign + |n.whole|..];
    && FractionRun(after).Some? && n.fraction == after[..FractionRun(after).value]
    && ExponentRun(after[|n.fraction|..]).Some?
    && n.exponent == after[|n.fraction|..][..ExponentRun(after[|n.fraction|..]).value]
  }

  lemma PartsAreOk(s: string, minus: bool, n: Numeral)
    requires PartsOf(s, minus, n)
    ensures NumeralOk(n)
  {
    var sign := if minus then 1 else 0;
    var after := s[sign + |n.whole|..];
    WholeIsSpelt(s[sign..]);
    FractionIsSpelt(after);
    ExponentIsSpelt(after[|n.fraction|..]);
    assert |n.whole| > 0 ==> n.whole[0] == s[sign];
    hide Digits, IsDigit, DigitRun, FractionRun, ExponentRun, ExponentOk;
  }

  lemma NumberBegins(s: string, n: Numeral)
    requires PartsOf(s, n.minus, n)
    ensures var end := (if n.minus then 1 else 0) + |n.whole| + (|n.fraction| + |n.exponent|);
            end <= |s| && BeginsAs(s, n, s[end..])
  {
    var sign := if n.minus then 1 else 0;
    hide IsDigit, DigitRun, FractionRun, ExponentRun;
    Pieces(s, sign, |n.whole|, |n.fraction|, |n.exponent|);
    assert s[..sign] == Sign(n) && s[sign..sign + |n.whole|] == n.whole;
  }

  lemma WholeIsSpelt(s: string)
    ensures DigitRun(s) > 0 ==> Digits(s[..DigitRun(s)])
  {
    RunIsDigits(s);
  }

  lemma Pieces(s: string, sign: nat, whole: nat, f: nat, x: nat)
    requires sign + whole + f + x <= |s|
    ensures var after := s[sign + whole..];
            && s[..sign + whole + (f + x)] == s[..sign] + (s[sign..sign + whole] + (after[..f] + after[f..][..x]))
            && s == s[..sign] + (s[sign..sign + whole] + (after[..f] + after[f..][..x])) + s[sign + whole + (f + x)..]
  {
  }
}
