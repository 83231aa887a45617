/** packages/core/extraction.py: bytes to text, cacheable by the bytes alone. */
module Extraction {
  import opened Wrappers
  import opened Text

  newtype byte = x: int | 0 <= x < 256
  type Bytes = seq<byte>

  const SUPPORTED_SUFFIXES := {".md", ".markdown", ".txt", ".text"}

  function LowerAscii(s: string): string {
    seq(|s|, i requires 0 <= i < |s| =>
      if 'A' <= s[i] <= 'Z' then (s[i] as int + 32) as char else s[i])
  }

  function Suffix(key: string): string {
    var name := key[LastIndex(key, '/') + 1..];
    var dot := LastIndex(name, '.');
    if dot < 0 then "" else "." + LowerAscii(name[dot + 1..])
  }

  predicate Supported(key: string) {
    Suffix(key) in SUPPORTED_SUFFIXES
  }

  function CrLfToLf(s: string): string {
    if s == "" then ""
    else if |s| >= 2 && s[0] == '\r' && s[1] == '\n' then "\n" + CrLfToLf(s[2..])
    else [s[0]] + CrLfToLf(s[1..])
  }

  function CrToLf(s: string): string {
    seq(|s|, i requires 0 <= i < |s| => if s[i] == '\r' then '\n' else s[i])
  }

  /** replace("\r\n", "\n") then replace("\r", "\n"). */
  function NormaliseNewlines(s: string): string {
    CrToLf(CrLfToLf(s))
  }

  /** The parser: decoding is a parameter, everything after it is written out. */
  function TextOf(decode: Bytes -> Option<string>, data: Bytes): Option<string> {
    match decode(data)
    case None => None
    case Some(raw) =>
      var text := Strip(NormaliseNewlines(raw));
      if text == "" then None else Some(text)
  }

  /** None stands for a raised ExtractionError. */
  function Extract(decode: Bytes -> Option<string>, key: string, data: Bytes): Option<string> {
    if Supported(key) then TextOf(decode, data) else None
  }

  // --- newline normalisation ----------------------------------------------------

  function WithCrLf(s: string): string {
    if s == "" then ""
    else (if s[0] == '\n' then "\r\n" else [s[0]]) + WithCrLf(s[1..])
  }

  function WithCr(s: string): string {
    seq(|s|, i requires 0 <= i < |s| => if s[i] == '\n' then '\r' else s[i])
  }

  lemma {:induction false} CrLfToLfSkipsBareText(s: string)
    requires '\n' !in s || '\r' !in s
    ensures CrLfToLf(s) == s
  {
    if s != "" {
      assert s[0] in s && (|s| >= 2 ==> s[1] in s);
      assert forall c :: c in s[1..] ==> c in s;
      CrLfToLfSkipsBareText(s[1..]);
    }
  }

  lemma {:induction false} CrLfToLfUndoesWithCrLf(s: string)
    requires '\r' !in s
    ensures CrLfToLf(WithCrLf(s)) == s
  {
    if s != "" {
      assert s[0] in s && forall c :: c in s[1..] ==> c in s;
      CrLfToLfUndoesWithCrLf(s[1..]);
      var rest := WithCrLf(s[1..]);
      if s[0] == '\n' {
        assert WithCrLf(s)[2..] == rest;
      } else {
        assert WithCrLf(s)[1..] == rest;
      }
    }
  }

  /** A document saved with CRLF or CR line ends extracts to its LF twin's text. */
  lemma LineEndTwinsExtractAlike(decode: Bytes -> Option<string>, lf: Bytes, twin: Bytes, text: string)
    requires decode(lf) == Some(text) && '\r' !in text
    requires decode(twin) == Some(WithCrLf(text)) || decode(twin) == Some(WithCr(text))
    ensures TextOf(decode, twin) == TextOf(decode, lf)
    ensures NormaliseNewlines(text) == text
  {
    CrLfToLfSkipsBareText(text);
    assert CrToLf(text) == text;
    if decode(twin) == Some(WithCrLf(text)) {
      CrLfToLfUndoesWithCrLf(text);
    } else {
      CrLfToLfSkipsBareText(WithCr(text));
      assert CrToLf(WithCr(text)) == text;
    }
  }

  /** Extracted text is never blank, has no carriage return and no blank ends. */
  lemma ExtractedTextIsClean(decode: Bytes -> Option<string>, data: Bytes)
    requires TextOf(decode, data).Some?
    ensures var text := TextOf(decode, data).value;
      && text != "" && !IsSpace(text[0]) && !IsSpace(text[|text| - 1])
      && '\r' !in text
      && NormaliseNewlines(text) == text && Strip(text) == text
  {
    var normal := NormaliseNewlines(decode(data).value);
    var text := Strip(normal);
    assert '\r' !in normal;
    hide CrLfToLf, CrToLf;
    StripOf(normal);
    NothingToNormalise(text);
  }

  lemma StripOf(s: string)
    ensures var text := Strip(s);
      && (text != "" ==> !IsSpace(text[0]) && !IsSpace(text[|text| - 1]))
      && Strip(text) == text
      && forall c :: c in text ==> c in s
  {
    TrimEnds(s, IsSpace);
    TrimLeftIsSuffix(s, IsSpace);
    TrimRightIsPrefix(TrimLeft(s, IsSpace), IsSpace);
    hide TrimLeft, TrimRight, IsSpace;
    TrimFixed(Strip(s), IsSpace);
  }

  lemma NothingToNormalise(text: string)
    requires '\r' !in text
    ensures NormaliseNewlines(text) == text
  {
    CrLfToLfSkipsBareText(text);
    assert CrToLf(text) == text;
  }
}
