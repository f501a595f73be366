/** UTF-8 as RFC 3629, section 4, lays it down: the encoder, the well-formed byte table, the decoder. */
module Utf8 {
  import opened Events

  type byte = b: int | 0 <= b < 256

  function EncodeChar(c: char): (bytes: seq<byte>)
    ensures bytes != []
  {
    var n := c as int;
    if n < 0x80 then [n]
    else if n < 0x800 then [0xC0 + n / 64, 0x80 + n % 64]
    else if n < 0x1_0000 then [0xE0 + n / 64 / 64, 0x80 + n / 64 % 64, 0x80 + n % 64]
    else [0xF0 + n / 64 / 64 / 64, 0x80 + n / 64 / 64 % 64, 0x80 + n / 64 % 64, 0x80 + n % 64]
  }

  function Encode(text: string): seq<byte> {
    if text == [] then [] else EncodeChar(text[0]) + Encode(text[1..])
  }

  /** The encoding, read off its bytes: section 3 of RFC 3629. */
  lemma EncodedForm(c: char)
    ensures var n, b := c as int, EncodeChar(c);
            && (|b| == 1 <==> n < 0x80) && (|b| == 2 <==> 0x80 <= n < 0x800)
            && (|b| == 3 <==> 0x800 <= n < 0x1_0000) && (|b| == 4 <==> 0x1_0000 <= n)
            && (|b| == 1 ==> b[0] == n)
            && (|b| == 2 ==> 0xC0 <= b[0] < 0xE0 && n == (b[0] as int - 0xC0) * 64 + (b[1] as int - 0x80))
            && (|b| == 3 ==>
                  && 0xE0 <= b[0] < 0xF0
                  && n == (b[0] as int - 0xE0) * 4096 + (b[1] as int - 0x80) * 64 + (b[2] as int - 0x80))
            && (|b| == 4 ==>
                  && 0xF0 <= b[0] < 0xF8
                  && n == (b[0] as int - 0xF0) * 262144 + (b[1] as int - 0x80) * 4096
                          + (b[2] as int - 0x80) * 64 + (b[3] as int - 0x80))
            && forall i | 1 <= i < |b| :: 0x80 <= b[i] < 0xC0
  {
  }

  predicate Tail(b: byte) {
    0x80 <= b <= 0xBF
  }

  /** How many bytes the first character takes, or zero where the table has no such beginning. */
  function FirstLength(b: seq<byte>): (n: nat)
    ensures n <= 4 && n <= |b|
  {
    if |b| >= 1 && b[0] <= 0x7F then 1
    else if |b| >= 2 && 0xC2 <= b[0] <= 0xDF && Tail(b[1]) then 2
    else if |b| >= 3 && Tail(b[2]) &&
            (   (b[0] == 0xE0 && 0xA0 <= b[1] <= 0xBF)
             || (0xE1 <= b[0] <= 0xEC && Tail(b[1]))
             || (b[0] == 0xED && 0x80 <= b[1] <= 0x9F)
             || (0xEE <= b[0] <= 0xEF && Tail(b[1]))) then 3
    else if |b| >= 4 && Tail(b[2]) && Tail(b[3]) &&
            (   (b[0] == 0xF0 && 0x90 <= b[1] <= 0xBF)
             || (0xF1 <= b[0] <= 0xF3 && Tail(b[1]))
             || (b[0] == 0xF4 && 0x80 <= b[1] <= 0x8F)) then 4
    else 0
  }

  /** The value of a lead byte and `n - 1` tail bytes, six bits a tail byte. */
  function Scalar(b: seq<byte>, n: nat): int
    requires 1 <= n <= 4 && n <= |b|
  {
    var lead := b[0] as int;
    match n
    case 1 => lead
    case 2 => (lead - 0xC0) * 64 + Six(b[1])
    case 3 => ((lead - 0xE0) * 64 + Six(b[1])) * 64 + Six(b[2])
    case _ => (((lead - 0xF0) * 64 + Six(b[1])) * 64 + Six(b[2])) * 64 + Six(b[3])
  }

  function Six(b: byte): int {
    b as int - 0x80
  }

  function FirstScalar(b: seq<byte>): (n: int)
    requires FirstLength(b) > 0
    ensures 0 <= n < 0xD800 || 0xE000 <= n < 0x11_0000
  {
    Scalar(b, FirstLength(b))
  }

  /** `String::from_utf8`. */
  function Decode(b: seq<byte>): Option<string>
    decreases |b|
  {
    if b == [] then Some([])
    else if FirstLength(b) == 0 then None
    else
      match Decode(b[FirstLength(b)..])
      case None => None
      case Some(rest) => Some([FirstScalar(b) as char] + rest)
  }

  lemma EncodedIsWellFormed(c: char)
    ensures FirstLength(EncodeChar(c)) == |EncodeChar(c)|
    ensures Scalar(EncodeChar(c), |EncodeChar(c)|) == c as int
  {
    var n := c as int;
    assert n < 0xD800 || 0xE000 <= n < 0x11_0000;
    var q := n / 64;
    var p := q / 64;
    assert n == q * 64 + n % 64 && q == p * 64 + q % 64;
  }

  /** Only the first character's own bytes decide it. */
  lemma FirstIsLocal(b: seq<byte>, rest: seq<byte>)
    requires FirstLength(b) == |b| > 0
    ensures FirstLength(b + rest) == |b| && Scalar(b + rest, |b|) == Scalar(b, |b|)
  {
    assert forall i | 0 <= i < |b| :: (b + rest)[i] == b[i];
  }

  lemma FirstOfEncoded(c: char, rest: seq<byte>)
    ensures FirstLength(EncodeChar(c) + rest) == |EncodeChar(c)|
    ensures FirstScalar(EncodeChar(c) + rest) as char == c
  {
    hide EncodeChar, FirstLength, Scalar;
    EncodedIsWellFormed(c);
    FirstIsLocal(EncodeChar(c), rest);
  }

  lemma Digits(high: int, low: int)
    requires 0 <= low < 64
    ensures (high * 64 + low) / 64 == high && (high * 64 + low) % 64 == low
  {
  }

  lemma EncodedFirst(b: seq<byte>)
    requires FirstLength(b) > 0
    ensures EncodeChar(FirstScalar(b) as char) == b[..FirstLength(b)]
  {
    match FirstLength(b)
    case 1 =>
    case 2 =>
      Digits(b[0] as int - 0xC0, Six(b[1]));
    case 3 =>
      ThreeBytes(b);
    case _ =>
      FourBytes(b);
  }

  lemma ThreeBytes(b: seq<byte>)
    requires FirstLength(b) == 3
    ensures EncodeChar(FirstScalar(b) as char) == b[..3]
  {
    var high := (b[0] as int - 0xE0) * 64 + Six(b[1]);
    Digits(high, Six(b[2]));
    Digits(b[0] as int - 0xE0, Six(b[1]));
    assert FirstScalar(b) == high * 64 + Six(b[2]) >= 0x800;
  }

  lemma FourBytes(b: seq<byte>)
    requires FirstLength(b) == 4
    ensures EncodeChar(FirstScalar(b) as char) == b[..4]
  {
    var higher := (b[0] as int - 0xF0) * 64 + Six(b[1]);
    var high := higher * 64 + Six(b[2]);
    Digits(high, Six(b[3]));
    Digits(higher, Six(b[2]));
    Digits(b[0] as int - 0xF0, Six(b[1]));
    assert FirstScalar(b) == high * 64 + Six(b[3]) >= 0x1_0000;
  }

  lemma EncodeCons(c: char, text: string)
    ensures Encode([c] + text) == EncodeChar(c) + Encode(text)
  {
    assert ([c] + text)[1..] == text;
  }

  lemma DecodeCons(c: char, rest: seq<byte>)
    ensures Decode(EncodeChar(c) + rest) ==
            match Decode(rest) case None => None case Some(text) => Some([c] + text)
  {
    var b := EncodeChar(c) + rest;
    assert b != [];
    FirstOfEncoded(c, rest);
    assert b[|EncodeChar(c)|..] == rest;
  }

  lemma {:induction false} DecodeEncoded(text: string)
    ensures Decode(Encode(text)) == Some(text)
  {
    if text != [] {
      DecodeEncoded(text[1..]);
      DecodeCons(text[0], Encode(text[1..]));
      assert [text[0]] + text[1..] == text;
    }
  }

  lemma DecodeFirst(b: seq<byte>)
    requires b != [] && Decode(b).Some?
    ensures FirstLength(b) > 0 && Decode(b[FirstLength(b)..]).Some?
    ensures Decode(b).value == [FirstScalar(b) as char] + Decode(b[FirstLength(b)..]).value
  {
  }

  lemma {:induction false} EncodeDecoded(b: seq<byte>)
    requires Decode(b).Some?
    ensures Encode(Decode(b).value) == b
    decreases |b|
  {
    if b == [] {
      assert Encode([]) == [];
    } else {
      hide *;
      DecodeFirst(b);
      var n := FirstLength(b);
      EncodeDecoded(b[n..]);
      EncodedFirst(b);
      EncodeCons(FirstScalar(b) as char, Decode(b[n..]).value);
      HeadAndRest(b, n);
    }
  }

  lemma HeadAndRest(b: seq<byte>, n: nat)
    requires n <= |b|
    ensures b[..n] + b[n..] == b
  {
  }

  lemma Associative(a: seq<byte>, b: seq<byte>, c: seq<byte>)
    ensures (a + b) + c == a + (b + c)
  {
  }

  lemma JoinFirst(a: string, b: string)
    requires a != []
    ensures [a[0]] + a[1..] == a && [a[0]] + (a[1..] + b) == a + b
  {
  }

  lemma {:induction false} EncodeJoins(a: string, b: string)
    ensures Encode(a + b) == Encode(a) + Encode(b)
  {
    hide EncodeChar;
    if a == [] {
      assert a + b == b;
    } else {
      hide Encode;
      var rest := a[1..];
      EncodeJoins(rest, b);
      EncodeCons(a[0], rest);
      EncodeCons(a[0], rest + b);
      JoinFirst(a, b);
      Associative(EncodeChar(a[0]), Encode(rest), Encode(b));
    }
  }

  /** Well-formed text stays well-formed when joined, and says both parts in order. */
  lemma DecodeJoins(a: seq<byte>, b: seq<byte>)
    requires Decode(a).Some? && Decode(b).Some?
    ensures Decode(a + b) == Some(Decode(a).value + Decode(b).value)
  {
    EncodeDecoded(a);
    EncodeDecoded(b);
    EncodeJoins(Decode(a).value, Decode(b).value);
    DecodeEncoded(Decode(a).value + Decode(b).value);
  }
}
