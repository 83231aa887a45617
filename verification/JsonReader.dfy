/**
 * JSON.parse on what json.dumps prints: the grammar of RFC 8259 without fractions and
 * exponents, and the proof that every printed value reads back.
 */
module JsonReader {
  import opened Wrappers
  import opened Text
  import opened Json

  // --- the reader -----------------------------------------------------------------------------

  /** Section 2 of RFC 8259. */
  predicate IsBlank(c: char) {
    c == ' ' || c == '\t' || c == '\n' || c == '\r'
  }

  function SkipBlanks(t: string): (rest: string)
    ensures |rest| <= |t|
  {
    if t != "" && IsBlank(t[0]) then SkipBlanks(t[1..]) else t
  }

  /** How many digits t starts with. */
  function DigitCount(t: string): (n: nat)
    ensures n <= |t| && forall c :: c in t[..n] ==> IsDigit(c)
    ensures n < |t| ==> !IsDigit(t[n])
  {
    if t == "" || !IsDigit(t[0]) then 0
    else
      var n := DigitCount(t[1..]);
      assert t[..n + 1] == [t[0]] + t[1..][..n];
      n + 1
  }

  predicate ContinuesNumber(t: string) {
    t != "" && (t[0] == '.' || t[0] == 'e' || t[0] == 'E')
  }

  /** An integer numeral; no leading zeros, and no fraction or exponent after it. */
  function ReadNatural(t: string): (r: Option<(nat, string)>)
    ensures r.Some? ==> |r.value.1| < |t|
  {
    var n := DigitCount(t);
    if n == 0 || (n > 1 && t[0] == '0') || ContinuesNumber(t[n..]) then None
    else Some((DigitsValue(t[..n]), t[n..]))
  }

  function ReadNumber(t: string): (r: Option<(Value, string)>)
    requires t != ""
    ensures r.Some? ==> |r.value.1| < |t|
  {
    if t[0] == '-' then
      match ReadNatural(t[1..])
      case None => None
      case Some((n, rest)) => Some((Int(0 - n as int), rest))
    else
      match ReadNatural(t)
      case None => None
      case Some((n, rest)) => Some((Int(n), rest))
  }

  function ReadStringValue(t: string): (r: Option<(string, string)>)
    ensures r.Some? ==> |r.value.1| < |t|
    decreases |t|
  {
    ReadStringShrinks(t);
    ReadString(t)
  }

  lemma {:induction false} ReadStringShrinks(t: string)
    ensures ReadString(t).Some? ==> |ReadString(t).value.1| < |t|
    decreases |t|
  {
    if t != "" && t[0] == '"' {
    } else if ReadChar(t).Some? {
      ReadStringShrinks(ReadChar(t).value.1);
    }
  }

  /** One value, blanks before it skipped, and what follows it. */
  function ReadValue(t: string): (r: Option<(Value, string)>)
    ensures r.Some? ==> |r.value.1| < |t|
    decreases |t|, 1
  {
    var s := SkipBlanks(t);
    if s == "" then None
    else if s[0] == '"' then
      match ReadStringValue(s[1..])
      case None => None
      case Some((str, rest)) => Some((Str(str), rest))
    else if s[0] == '[' then
      var u := SkipBlanks(s[1..]);
      if u != "" && u[0] == ']' then Some((List([]), u[1..]))
      else
        match ReadItems(s[1..])
        case None => None
        case Some((items, rest)) => Some((List(items), rest))
    else if s[0] == '{' then
      var u := SkipBlanks(s[1..]);
      if u != "" && u[0] == '}' then Some((Dict([]), u[1..]))
      else
        match ReadFields(s[1..])
        case None => None
        case Some((fields, rest)) => Some((Dict(fields), rest))
    else ReadAtom(s)
  }

  function ReadAtom(s: string): (r: Option<(Value, string)>)
    requires s != ""
    ensures r.Some? ==> |r.value.1| < |s|
  {
    if "null" <= s then Some((Null, s[4..]))
    else if "true" <= s then Some((Bool(true), s[4..]))
    else if "false" <= s then Some((Bool(false), s[5..]))
    else ReadNumber(s)
  }

  /** The items up to the closing bracket, at least one. */
  function ReadItems(t: string): (r: Option<(seq<Value>, string)>)
    ensures r.Some? ==> |r.value.1| < |t|
    decreases |t|, 2
  {
    match ReadValue(t)
    case None => None
    case Some((v, after)) =>
      var u := SkipBlanks(after);
      if u == "" then None
      else if u[0] == ']' then Some(([v], u[1..]))
      else if u[0] != ',' then None
      else
        match ReadItems(u[1..])
        case None => None
        case Some((items, rest)) => Some(([v] + items, rest))
  }

  /** One name, the colon and its value. */
  function ReadField(t: string): (r: Option<(Field, string)>)
    ensures r.Some? ==> |r.value.1| < |t|
    decreases |t|, 2
  {
    var s := SkipBlanks(t);
    if s == "" || s[0] != '"' then None
    else
      match ReadStringValue(s[1..])
      case None => None
      case Some((name, after)) =>
        var u := SkipBlanks(after);
        if u == "" || u[0] != ':' then None
        else
          match ReadValue(u[1..])
          case None => None
          case Some((v, rest)) => Some((Field(name, v), rest))
  }

  /** The members up to the closing brace, at least one. */
  function ReadFields(t: string): (r: Option<(seq<Field>, string)>)
    ensures r.Some? ==> |r.value.1| < |t|
    decreases |t|, 3
  {
    match ReadField(t)
    case None => None
    case Some((field, after)) =>
      var u := SkipBlanks(after);
      if u == "" then None
      else if u[0] == '}' then Some(([field], u[1..]))
      else if u[0] != ',' then None
      else
        match ReadFields(u[1..])
        case None => None
        case Some((fields, rest)) => Some(([field] + fields, rest))
  }

  /** The whole text is one value, blanks around it aside. */
  function Parse(t: string): Option<Value> {
    match ReadValue(t)
    case None => None
    case Some((v, rest)) => if SkipBlanks(rest) == "" then Some(v) else None
  }

  // --- it reads back what is printed --------------------------------------------------------------

  /** What may follow a printed value for it to end there. */
  predicate Ends(rest: string) {
    rest == "" || (!IsDigit(rest[0]) && !ContinuesNumber(rest))
  }

  lemma NoBlanks(t: string)
    requires t != "" && !IsBlank(t[0])
    ensures SkipBlanks(t) == t
  {
  }

  lemma OneBlank(t: string)
    requires t != "" && !IsBlank(t[0])
    ensures SkipBlanks(" " + t) == t
  {
    assert (" " + t)[1..] == t;
  }

  lemma {:induction false} CountDigits(digits: string, rest: string)
    requires forall c :: c in digits ==> IsDigit(c)
    requires rest == "" || !IsDigit(rest[0])
    ensures DigitCount(digits + rest) == |digits|
  {
    if digits == "" {
      assert digits + rest == rest;
    } else {
      assert (digits + rest)[1..] == digits[1..] + rest;
      assert forall c :: c in digits[1..] ==> c in digits;
      assert digits[0] in digits;
      CountDigits(digits[1..], rest);
    }
  }

  lemma {:induction false} NoLeadingZero(n: nat)
    ensures |Decimal(n)| > 1 ==> Decimal(n)[0] != '0'
    ensures n > 0 ==> Decimal(n)[0] != '0'
  {
    if n >= 10 {
      NoLeadingZero(n / 10);
    }
  }

  lemma NaturalRoundTrip(n: nat, rest: string)
    requires Ends(rest)
    ensures ReadNatural(Decimal(n) + rest) == Some((n, rest))
  {
    var t := Decimal(n) + rest;
    CountDigits(Decimal(n), rest);
    NoLeadingZero(n);
    DecimalRoundTrip(n);
    hide Decimal;
    assert t[..|Decimal(n)|] == Decimal(n) && t[|Decimal(n)|..] == rest;
    assert t[0] == Decimal(n)[0];
  }

  lemma AtomRoundTrip(v: Value, rest: string)
    requires v.Null? || v.Bool? || v.Int?
    requires Ends(rest)
    ensures ReadAtom(Dumps(v) + rest) == Some((v, rest))
    ensures !IsBlank(Dumps(v)[0]) && Dumps(v)[0] != '"' && Dumps(v)[0] != '[' && Dumps(v)[0] != '{'
  {
    assert "null"[0] == 'n' && "true"[0] == 't' && "false"[0] == 'f';
    if v.Int? {
      IntRoundTrip(v.n, rest);
    } else if v.Null? {
      assert ("null" + rest)[4..] == rest;
    } else if v.b {
      assert ("true" + rest)[4..] == rest;
    } else {
      assert ("false" + rest)[5..] == rest;
    }
  }

  lemma IntRoundTrip(n: int, rest: string)
    requires Ends(rest)
    ensures ReadAtom(Dumps(Int(n)) + rest) == Some((Int(n), rest))
    ensures Dumps(Int(n))[0] == '-' || IsDigit(Dumps(Int(n))[0])
  {
    var digits := Decimal(if n < 0 then -n else n);
    NaturalRoundTrip(if n < 0 then -n else n, rest);
    assert digits[0] in digits;
    hide Decimal, ReadNatural;
    if n < 0 {
      var t := "-" + digits + rest;
      assert t[1..] == digits + rest;
      NumberIsNoWord(t);
    } else {
      NumberIsNoWord(digits + rest);
    }
  }

  lemma NumberIsNoWord(t: string)
    requires t != "" && (t[0] == '-' || IsDigit(t[0]))
    ensures !("null" <= t) && !("true" <= t) && !("false" <= t)
  {
    assert "null"[0] == 'n' && "true"[0] == 't' && "false"[0] == 'f';
  }

  lemma {:induction false} ValueRoundTrip(v: Value, rest: string)
    requires Ends(rest)
    ensures ReadValue(Dumps(v) + rest) == Some((v, rest))
    ensures !IsBlank(Dumps(v)[0])
    decreases v, 1
  {
    hide ReadItems, ReadFields, ReadAtom, DumpsItems, DumpsFields, EscapeAll, ReadString, Ends;
    var t := Dumps(v) + rest;
    match v
    case Str(s) =>
      NoBlanks(t);
      assert t[1..] == EscapeAll(s) + "\"" + rest;
      StringRoundTrip(s, rest);
    case List(items) =>
      NoBlanks(t);
      assert t[1..] == DumpsItems(items) + "]" + rest;
      ItemsRoundTrip(items, rest);
    case Dict(fields) =>
      NoBlanks(t);
      assert t[1..] == DumpsFields(fields) + "}" + rest;
      FieldsRoundTrip(fields, rest);
    case _ =>
      AtomRoundTrip(v, rest);
      assert t[0] == Dumps(v)[0];
      NoBlanks(t);
  }

  lemma {:induction false} ItemsRoundTrip(items: seq<Value>, rest: string)
    ensures var t := DumpsItems(items) + "]" + rest;
      if items == [] then t == "]" + rest && SkipBlanks(t) == t && t[1..] == rest
      else SkipBlanks(t) == t && t[0] != ']' && ReadItems(t) == Some((items, rest))
    decreases items, 0
  {
    hide ReadValue, Dumps, ReadItems;
    var t := DumpsItems(items) + "]" + rest;
    if items == [] {
      assert t[1..] == rest;
    } else if |items| == 1 {
      assert t == Dumps(items[0]) + ("]" + rest);
      assert ("]" + rest)[1..] == rest;
      ValueRoundTrip(items[0], "]" + rest);
      FirstChars(items[0]);
      NoBlanks(t);
      ReadLastItem(t, items[0], "]" + rest);
      assert items == [items[0]];
    } else {
      var tail := DumpsItems(items[1..]) + "]" + rest;
      assert t == Dumps(items[0]) + (", " + tail);
      ValueRoundTrip(items[0], ", " + tail);
      FirstChars(items[0]);
      NoBlanks(t);
      ItemsRoundTrip(items[1..], rest);
      ReadNextItem(t, items[0], tail, items[1..], rest);
      assert items == [items[0]] + items[1..];
    }
  }

  lemma FirstChars(v: Value)
    ensures var c := Dumps(v)[0]; c != ']' && c != '}'
  {
    if v.Int? {
      IntStart(v.n);
    }
  }

  lemma IntStart(n: int)
    ensures Dumps(Int(n))[0] == '-' || IsDigit(Dumps(Int(n))[0])
  {
    var digits := Decimal(if n < 0 then -n else n);
    assert digits[0] in digits;
  }

  lemma ReadLastItem(t: string, v: Value, after: string)
    requires ReadValue(t) == Some((v, after)) && after != "" && after[0] == ']'
    ensures ReadItems(t) == Some(([v], after[1..]))
  {
    hide ReadValue;
    NoBlanks(after);
  }

  lemma ReadNextItem(t: string, v: Value, tail: string, items: seq<Value>, rest: string)
    requires ReadValue(t) == Some((v, ", " + tail))
    requires tail != "" && SkipBlanks(tail) == tail && ReadItems(tail) == Some((items, rest))
    ensures ReadItems(t) == Some(([v] + items, rest))
  {
    var after := ", " + tail;
    assert after[1..] == " " + tail;
    NoBlanks(after);
    ItemsSkipBlank(tail);
    hide ReadValue, SkipBlanks;
  }

  lemma ItemsSkipBlank(t: string)
    requires t != "" && SkipBlanks(t) == t
    ensures ReadItems(" " + t) == ReadItems(t)
  {
    ValueSkipsBlank(t);
    hide ReadValue, SkipBlanks;
  }

  lemma ValueSkipsBlank(t: string)
    requires t != "" && SkipBlanks(t) == t
    ensures ReadValue(" " + t) == ReadValue(t)
  {
    FixedStart(t);
    OneBlank(t);
    hide ReadItems, ReadFields, ReadAtom, ReadStringValue, SkipBlanks;
  }

  lemma FixedStart(t: string)
    requires t != "" && SkipBlanks(t) == t
    ensures !IsBlank(t[0])
  {
    assert IsBlank(t[0]) ==> |SkipBlanks(t)| < |t|;
  }

  lemma {:induction false} FieldsRoundTrip(fields: seq<Field>, rest: string)
    ensures var t := DumpsFields(fields) + "}" + rest;
      if fields == [] then t == "}" + rest && SkipBlanks(t) == t && t[1..] == rest
      else SkipBlanks(t) == t && t[0] == '"' && ReadFields(t) == Some((fields, rest))
    decreases fields, 0
  {
    hide Dumps, ReadFields, ReadField, Quoted;
    var t := DumpsFields(fields) + "}" + rest;
    if fields == [] {
      assert t[1..] == rest;
    } else if |fields| == 1 {
      assert t == Quoted(fields[0].name) + ": " + Dumps(fields[0].value) + ("}" + rest);
      assert ("}" + rest)[1..] == rest;
      FieldRoundTrip(fields[0], "}" + rest);
      ReadLastField(t, fields[0], "}" + rest);
      assert fields == [fields[0]];
    } else {
      var tail := DumpsFields(fields[1..]) + "}" + rest;
      assert t == Quoted(fields[0].name) + ": " + Dumps(fields[0].value) + (", " + tail);
      FieldRoundTrip(fields[0], ", " + tail);
      FieldsRoundTrip(fields[1..], rest);
      ReadNextField(t, fields[0], tail, fields[1..], rest);
      assert fields == [fields[0]] + fields[1..];
    }
  }

  lemma FieldRoundTrip(field: Field, rest: string)
    requires Ends(rest)
    ensures var t := Quoted(field.name) + ": " + Dumps(field.value) + rest;
      t[0] == '"' && SkipBlanks(t) == t && ReadField(t) == Some((field, rest))
    decreases field, 1
  {
    hide ReadValue, Dumps, EscapeAll, ReadString;
    var after := ": " + Dumps(field.value) + rest;
    var t := Quoted(field.name) + ": " + Dumps(field.value) + rest;
    assert t[1..] == EscapeAll(field.name) + "\"" + after;
    NoBlanks(t);
    NoBlanks(after);
    StringRoundTrip(field.name, after);
    var printed := Dumps(field.value) + rest;
    assert after[1..] == " " + printed;
    ValueRoundTrip(field.value, rest);
    assert printed[0] == Dumps(field.value)[0];
    NoBlanks(printed);
    ValueSkipsBlank(printed);
  }

  lemma ReadLastField(t: string, field: Field, after: string)
    requires ReadField(t) == Some((field, after)) && after != "" && after[0] == '}'
    ensures ReadFields(t) == Some(([field], after[1..]))
  {
    hide ReadField;
    NoBlanks(after);
  }

  lemma ReadNextField(t: string, field: Field, tail: string, fields: seq<Field>, rest: string)
    requires ReadField(t) == Some((field, ", " + tail))
    requires tail != "" && SkipBlanks(tail) == tail && ReadFields(tail) == Some((fields, rest))
    ensures ReadFields(t) == Some(([field] + fields, rest))
  {
    var after := ", " + tail;
    assert after[1..] == " " + tail;
    NoBlanks(after);
    FieldSkipsBlank(tail);
    hide ReadField, SkipBlanks;
  }

  lemma FieldSkipsBlank(t: string)
    requires t != "" && SkipBlanks(t) == t
    ensures ReadFields(" " + t) == ReadFields(t)
  {
    FixedStart(t);
    OneBlank(t);
    assert ReadField(" " + t) == ReadField(t) by {
      hide ReadValue, ReadStringValue, SkipBlanks;
    }
    hide ReadField, SkipBlanks;
  }

  /** The round trip: every printed value is parsed back, whole. */
  lemma DumpsRoundTrip(v: Value)
    ensures Parse(Dumps(v)) == Some(v)
  {
    ValueRoundTrip(v, "");
    assert Dumps(v) + "" == Dumps(v);
    hide Dumps, ReadValue;
  }
}
