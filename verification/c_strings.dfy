/** Native strings: bytes up to a zero, handed out by rust/src/ffi.rs and read by Dart. */
module CStrings {
  import opened Events
  import opened Utf8

  /** What is handed out instead of a text that holds a NUL. */
  const LOSSY := "<string contained a NUL>"

  const NUL: char := 0 as char

  /** The bytes of a native string, its terminator included. */
  function IntoCString(text: string): seq<byte> {
    if NUL in text then Encode(LOSSY) + [0] else Encode(text) + [0]
  }

  /** `toDartString`: decodes up to the first zero byte. */
  function UntilZero(b: seq<byte>): seq<byte> {
    if b == [] || b[0] == 0 then [] else [b[0]] + UntilZero(b[1..])
  }

  function FromCString(b: seq<byte>): Option<string> {
    Decode(UntilZero(b))
  }

  lemma {:induction false} EncodedHasNoZero(text: string)
    requires NUL !in text
    ensures 0 !in Encode(text)
  {
    if text != [] {
      EncodedHasNoZero(text[1..]);
      assert text[0] != NUL;
    }
  }

  /** What is read ends at the first zero, whatever stands behind it. */
  lemma {:induction false} UntilTerminator(b: seq<byte>, behind: seq<byte>)
    requires 0 !in b
    ensures UntilZero(b + ([0] + behind)) == b
  {
    if b != [] {
      UntilTerminator(b[1..], behind);
      assert (b + ([0] + behind))[1..] == b[1..] + ([0] + behind);
    }
  }

  lemma CStringCarries(text: string)
    requires NUL !in text
    ensures FromCString(IntoCString(text)) == Some(text)
  {
    hide Encode, Decode;
    EncodedHasNoZero(text);
    UntilTerminator(Encode(text), []);
    assert [0] + [] == [0 as byte];
    DecodeEncoded(text);
  }

  /** What the other side reads of a text: the text, or the lossy one in its place. */
  function Received(text: string): string {
    if NUL in text then LOSSY else text
  }

  lemma StringArrives(text: string)
    ensures FromCString(IntoCString(text)) == Some(Received(text))
    ensures NUL !in text ==> FromCString(IntoCString(text)) == Some(text)
    ensures NUL in text ==> FromCString(IntoCString(text)) == Some("<string contained a NUL>")
  {
    if NUL in text {
      CStringCarries(LOSSY);
      assert IntoCString(text) == IntoCString(LOSSY);
      hide FromCString, IntoCString;
    } else {
      CStringCarries(text);
    }
  }

  /** A text is received as it was sent if and only if it holds no NUL. */
  lemma ReceivedIsSent(text: string)
    ensures Received(text) == text <==> NUL !in text
  {
    assert NUL !in LOSSY;
  }
}
