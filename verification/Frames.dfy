/**
 * services/api/app/rag/routes.py prints a stream of frames; apps/web/src/api.ts takes it
 * apart again, however the network cuts it.
 */
module Frames {
  import opened Wrappers
  import opened Text
  import Json
  import JsonReader

  const BREAK := "\n\n"

  // --- String.prototype.split on a blank line -----------------------------------------------------

  predicate BreakAt(s: string, i: int) {
    0 <= i && i + 2 <= |s| && s[i] == '\n' && s[i + 1] == '\n'
  }

  /** Where the first blank line starts, or -1. */
  function FindBreak(s: string): (i: int)
    ensures if i < 0 then i == -1 else BreakAt(s, i)
    ensures forall j :: BreakAt(s, j) ==> 0 <= i <= j
  {
    if |s| < 2 then -1
    else if BreakAt(s, 0) then 0
    else
      var i := FindBreak(s[1..]);
      assert forall j :: BreakAt(s, j) ==> BreakAt(s[1..], j - 1);
      if i < 0 then -1 else i + 1
  }

  function Split(s: string): (parts: seq<string>)
    ensures parts != []
    decreases |s|
  {
    var i := FindBreak(s);
    if i < 0 then [s] else [s[..i]] + Split(s[i + 2..])
  }

  function Last(parts: seq<string>): string
    requires parts != []
  {
    parts[|parts| - 1]
  }

  function Front(parts: seq<string>): seq<string>
    requires parts != []
  {
    parts[..|parts| - 1]
  }

  /** Splitting what arrives onto the carried part is splitting the whole. */
  lemma {:induction false} SplitIncrementally(a: string, b: string)
    ensures Split(a + b) == Front(Split(a)) + Split(Last(Split(a)) + b)
    decreases |a|
  {
    hide Split, FindBreak;
    SplitStep(a);
    SplitStep(a + b);
    var i := FindBreak(a);
    if i >= 0 {
      BreakStays(a, b);
      assert (a + b)[..i] == a[..i] && (a + b)[i + 2..] == a[i + 2..] + b;
      SplitIncrementally(a[i + 2..], b);
      ConsParts(a[..i], Split(a[i + 2..]));
      ConsAssociates(a[..i], Front(Split(a[i + 2..])), Split(Last(Split(a[i + 2..])) + b));
    }
  }

  lemma SplitStep(s: string)
    ensures var i := FindBreak(s);
      if i < 0 then Split(s) == [s]
      else BreakAt(s, i) && Split(s) == [s[..i]] + Split(s[i + 2..])
  {
  }

  lemma ConsParts(first: string, rest: seq<string>)
    requires rest != []
    ensures Front([first] + rest) == [first] + Front(rest) && Last([first] + rest) == Last(rest)
  {
  }

  lemma ConsAssociates(first: string, a: seq<string>, b: seq<string>)
    ensures [first] + (a + b) == ([first] + a) + b
  {
  }

  /** The first blank line of a is the first of a + b. */
  lemma BreakStays(a: string, b: string)
    requires FindBreak(a) >= 0
    ensures FindBreak(a + b) == FindBreak(a)
  {
    var i := FindBreak(a);
    assert BreakAt(a + b, i);
    assert forall j :: BreakAt(a + b, j) && j < i ==> BreakAt(a, j);
  }

  /** No part holds a blank line, and joining the parts gives the stream back. */
  lemma {:induction false} SplitParts(s: string)
    ensures forall k :: 0 <= k < |Split(s)| ==> FindBreak(Split(s)[k]) < 0
    ensures Join(Split(s)) == s
    decreases |s|
  {
    hide Split, FindBreak;
    SplitStep(s);
    var i := FindBreak(s);
    if i >= 0 {
      SplitParts(s[i + 2..]);
      NoBreakBefore(s, i);
      var rest := Split(s[i + 2..]);
      assert Split(s)[1..] == rest;
      assert forall k :: 0 < k < |Split(s)| ==> Split(s)[k] == rest[k - 1];
      assert s == s[..i] + BREAK + s[i + 2..];
    }
  }

  lemma NoBreakBefore(s: string, i: int)
    requires i == FindBreak(s) >= 0
    ensures FindBreak(s[..i]) < 0
  {
    assert forall j :: BreakAt(s[..i], j) ==> BreakAt(s, j);
  }

  function Join(parts: seq<string>): string {
    if parts == [] then ""
    else if |parts| == 1 then parts[0]
    else parts[0] + BREAK + Join(parts[1..])
  }

  // --- streamChat ------------------------------------------------------------------------------------

  function Concat(pieces: seq<string>): string {
    if pieces == [] then "" else Concat(pieces[..|pieces| - 1]) + pieces[|pieces| - 1]
  }

  /** What one frame hands to JSON.parse, if it is a data frame. */
  function DataOf(part: string): Option<string> {
    var line := Trim(part, IsTrimmed);
    if "data:" <= line then Some(Trim(line[5..], IsTrimmed)) else None
  }

  /** Frames without data, and frames that do not parse, are passed over. */
  function Delivered<T>(parts: seq<string>, parse: string -> Option<T>): seq<T> {
    if parts == [] then []
    else
      Delivered(parts[..|parts| - 1], parse)
      + match DataOf(parts[|parts| - 1])
        case None => []
        case Some(text) => if parse(text).Some? then [parse(text).value] else []
  }

  lemma {:induction false} DeliveredConcat<T>(a: seq<string>, b: seq<string>, parse: string -> Option<T>)
    ensures Delivered(a + b, parse) == Delivered(a, parse) + Delivered(b, parse)
  {
    if b == [] {
      assert a + b == a;
    } else {
      assert (a + b)[..|a + b| - 1] == a + b[..|b| - 1];
      DeliveredConcat(a, b[..|b| - 1], parse);
    }
  }

  /**
   * pieces is the stream as it is read and decoded, cut anywhere. Whatever the stream holds, the
   * frames delivered are those of the whole stream, and what is left is its last part.
   */
  method StreamChat<T>(pieces: seq<string>, parse: string -> Option<T>)
    returns (delivered: seq<T>, buffer: string)
    ensures delivered == Delivered(Front(Split(Concat(pieces))), parse)
    ensures buffer == Last(Split(Concat(pieces)))
  {
    hide Split, Delivered, DataOf;
    delivered, buffer := [], "";
    SplitShort("");
    DeliveredNone(parse);
    assert pieces[..0] == [];
    for r := 0 to |pieces|
      invariant delivered == Delivered(Front(Split(Concat(pieces[..r]))), parse)
      invariant buffer == Last(Split(Concat(pieces[..r])))
    {
      ghost var soFar := Concat(pieces[..r]);
      assert pieces[..r + 1][..r] == pieces[..r];
      SplitIncrementally(soFar, pieces[r]);
      DeliveredConcat(Front(Split(soFar)), Front(Split(buffer + pieces[r])), parse);
      buffer := buffer + pieces[r];
      var parts := Split(buffer);
      assert Front(Front(Split(soFar)) + parts) == Front(Split(soFar)) + Front(parts);
      buffer, parts := parts[|parts| - 1], parts[..|parts| - 1];
      var more := DeliverParts(parts, parse);
      delivered := delivered + more;
    }
    assert pieces[..|pieces|] == pieces;
  }

  /** The inner loop: one callback for each frame that parses. */
  method DeliverParts<T>(parts: seq<string>, parse: string -> Option<T>) returns (delivered: seq<T>)
    ensures delivered == Delivered(parts, parse)
  {
    delivered := [];
    for p := 0 to |parts|
      invariant delivered == Delivered(parts[..p], parse)
    {
      assert parts[..p + 1][..p] == parts[..p];
      var line := Trim(parts[p], IsTrimmed);
      if !("data:" <= line) {
        continue;
      }
      var parsed := parse(Trim(line[5..], IsTrimmed));
      if parsed.Some? {
        delivered := delivered + [parsed.value];
      }
    }
    assert parts[..|parts|] == parts;
  }

  lemma SplitShort(s: string)
    requires |s| < 2
    ensures Split(s) == [s]
  {
  }

  lemma DeliveredNone<T>(parse: string -> Option<T>)
    ensures Delivered([], parse) == []
  {
  }

  // --- _sse -----------------------------------------------------------------------------------------------

  /** payload is a dict; its fields in insertion order. */
  function Sse(payload: seq<Json.Field>): string {
    "data: " + Json.Dumps(Json.Dict(payload)) + BREAK
  }

  function Printed(payloads: seq<seq<Json.Field>>): string {
    if payloads == [] then "" else Sse(payloads[0]) + Printed(payloads[1..])
  }

  /** A printed frame is one part: its JSON text holds no line break. */
  lemma FrameIsOnePart(payload: seq<Json.Field>, rest: string)
    ensures Split(Sse(payload) + rest) == ["data: " + Json.Dumps(Json.Dict(payload))] + Split(rest)
  {
    var line := "data: " + Json.Dumps(Json.Dict(payload));
    var s := Sse(payload) + rest;
    Json.DumpsIsPrintable(Json.Dict(payload));
    hide Json.Dumps;
    assert forall k :: 0 <= k < |line| ==> s[k] == line[k] && line[k] != '\n';
    assert BreakAt(s, |line|);
    assert forall j :: BreakAt(s, j) ==> j >= |line|;
    var i := FindBreak(s);
    assert i == |line| && s[..i] == line && s[i + 2..] == rest;
  }

  /** Trimming and slicing a printed frame leaves its JSON text. */
  lemma FrameData(payload: seq<Json.Field>)
    ensures DataOf("data: " + Json.Dumps(Json.Dict(payload))) == Some(Json.Dumps(Json.Dict(payload)))
  {
    var text := Json.Dumps(Json.Dict(payload));
    assert text[0] == '{' && text[|text| - 1] == '}';
    hide Json.Dumps;
    TrimFixed("data: " + text, IsTrimmed);
    assert ("data: " + text)[5..] == " " + text;
    assert (" " + text)[1..] == text;
    assert TrimLeft(" " + text, IsTrimmed) == TrimLeft(text, IsTrimmed) == text;
    TrimFixed(text, IsTrimmed);
  }

  lemma {:induction false} PrintedParts(payloads: seq<seq<Json.Field>>)
    ensures |Split(Printed(payloads))| == |payloads| + 1
    ensures Last(Split(Printed(payloads))) == ""
    ensures forall i :: 0 <= i < |payloads| ==>
      Split(Printed(payloads))[i] == "data: " + Json.Dumps(Json.Dict(payloads[i]))
  {
    if payloads == [] {
      SplitShort("");
    } else {
      FrameIsOnePart(payloads[0], Printed(payloads[1..]));
      PrintedParts(payloads[1..]);
    }
  }

  lemma {:induction false} AllDelivered<T>(parts: seq<string>, parse: string -> Option<T>, values: seq<T>)
    requires |parts| == |values|
    requires forall i :: 0 <= i < |parts| ==>
      DataOf(parts[i]).Some? && parse(DataOf(parts[i]).value) == Some(values[i])
    ensures Delivered(parts, parse) == values
  {
    hide DataOf;
    if parts != [] {
      var last := |parts| - 1;
      AllDelivered(parts[..last], parse, values[..last]);
      assert values == values[..last] + [values[last]];
    }
  }

  /** The payloads as the client's reader gives them back. */
  function Objects(payloads: seq<seq<Json.Field>>): (values: seq<Json.Value>)
    ensures |values| == |payloads|
  {
    seq(|payloads|, i requires 0 <= i < |payloads| => Json.Dict(payloads[i]))
  }

  /**
   * The round trip. The server prints payloads and the network cuts the text anywhere:
   * the client delivers exactly the payloads, in order, and carries nothing over.
   */
  lemma RoundTrip(payloads: seq<seq<Json.Field>>, pieces: seq<string>)
    requires Concat(pieces) == Printed(payloads)
    ensures Delivered(Front(Split(Concat(pieces))), JsonReader.Parse) == Objects(payloads)
    ensures Last(Split(Concat(pieces))) == ""
  {
    var parts := Split(Printed(payloads));
    PrintedParts(payloads);
    hide Json.Dumps, JsonReader.Parse;
    forall i | 0 <= i < |payloads|
      ensures DataOf(parts[i]).Some? && JsonReader.Parse(DataOf(parts[i]).value) == Some(Json.Dict(payloads[i]))
    {
      FrameData(payloads[i]);
      JsonReader.DumpsRoundTrip(Json.Dict(payloads[i]));
    }
    AllDelivered(Front(parts), JsonReader.Parse, Objects(payloads));
  }

  /** A stream cut off inside a frame delivers the frames before it and keeps the rest unread. */
  lemma CutShort(payloads: seq<seq<Json.Field>>, next: seq<Json.Field>, cut: nat, pieces: seq<string>)
    requires cut < |Sse(next)|
    requires Concat(pieces) == Printed(payloads) + Sse(next)[..cut]
    ensures Delivered(Front(Split(Concat(pieces))), JsonReader.Parse) == Objects(payloads)
    ensures Last(Split(Concat(pieces))) == Sse(next)[..cut]
  {
    var head, tail := Printed(payloads), Sse(next)[..cut];
    PrintedParts(payloads);
    SplitIncrementally(head, tail);
    assert "" + tail == tail;
    PartOfFrame(next, cut);
    assert Split(head + tail) == Front(Split(head)) + [tail];
    assert Front(Split(head + tail)) == Front(Split(head));
    assert Concat([head]) == head by {
      assert [head][..0] == [];
    }
    RoundTrip(payloads, [head]);
  }

  lemma PartOfFrame(payload: seq<Json.Field>, cut: nat)
    requires cut < |Sse(payload)|
    ensures Split(Sse(payload)[..cut]) == [Sse(payload)[..cut]]
  {
    Json.DumpsIsPrintable(Json.Dict(payload));
    hide Json.Dumps;
    var s := Sse(payload)[..cut];
    assert forall k :: 0 <= k < |s| - 1 ==> s[k] != '\n';
    assert forall j :: !BreakAt(s, j);
  }
}
