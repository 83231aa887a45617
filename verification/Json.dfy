/**
 * json.dumps with its defaults: ASCII only, ", " and ": " as separators. Numbers are
 * integers; lone surrogates do not exist in Dafny's strings.
 */
module Json {
  import opened Wrappers
  import opened Text

  datatype Value =
    | Null
    | Bool(b: bool)
    | Int(n: int)
    | Str(s: string)
    | List(items: seq<Value>)
    | Dict(fields: seq<Field>)

  datatype Field = Field(name: string, value: Value)

  function HexDigit(n: nat): char
    requires n < 16
  {
    if n < 10 then ('0' as int + n) as char else ('a' as int + n - 10) as char
  }

  function Hex4(n: nat): (h: string)
    requires n < 0x10000
    ensures |h| == 4
  {
    [HexDigit(n / 0x1000), HexDigit(n / 0x100 % 16), HexDigit(n / 16 % 16), HexDigit(n % 16)]
  }

  function EscapeUnit(n: nat): string
    requires n < 0x10000
  {
    "\\u" + Hex4(n)
  }

  function Escape(c: char): string {
    var n := c as int;
    if c == '"' then "\\\""
    else if c == '\\' then "\\\\"
    else if c == '\n' then "\\n"
    else if c == '\r' then "\\r"
    else if c == '\t' then "\\t"
    else if n == 8 then "\\b"
    else if n == 12 then "\\f"
    else if ' ' <= c <= '~' then [c]
    else if n < 0x10000 then EscapeUnit(n)
    else EscapeUnit(0xD800 + (n - 0x10000) / 0x400) + EscapeUnit(0xDC00 + (n - 0x10000) % 0x400)
  }

  function EscapeAll(s: string): string {
    if s == "" then "" else Escape(s[0]) + EscapeAll(s[1..])
  }

  function Quoted(s: string): string {
    "\"" + EscapeAll(s) + "\""
  }

  function Dumps(v: Value): (text: string)
    ensures text != ""
    decreases v
  {
    match v
    case Null => "null"
    case Bool(b) => if b then "true" else "false"
    case Int(n) => if n < 0 then "-" + Decimal(-n) else Decimal(n)
    case Str(s) => Quoted(s)
    case List(items) => "[" + DumpsItems(items) + "]"
    case Dict(fields) => "{" + DumpsFields(fields) + "}"
  }

  function DumpsItems(items: seq<Value>): string
    decreases items
  {
    if items == [] then ""
    else if |items| == 1 then Dumps(items[0])
    else Dumps(items[0]) + ", " + DumpsItems(items[1..])
  }

  function DumpsFields(fields: seq<Field>): string
    decreases fields
  {
    if fields == [] then ""
    else
      var field := Quoted(fields[0].name) + ": " + Dumps(fields[0].value);
      if |fields| == 1 then field else field + ", " + DumpsFields(fields[1..])
  }

  // --- printed text is one printable line --------------------------------------------------------

  predicate Printable(text: string) {
    forall i :: 0 <= i < |text| ==> ' ' <= text[i] <= '~'
  }

  lemma DecimalIsPrintable(n: nat)
    ensures Printable(Decimal(n))
  {
    forall i | 0 <= i < |Decimal(n)| ensures ' ' <= Decimal(n)[i] <= '~' {
      assert Decimal(n)[i] in Decimal(n);
    }
  }

  lemma {:induction false} EscapedIsPrintable(s: string)
    ensures Printable(EscapeAll(s))
  {
    hide Escape, Printable;
    if s == "" {
      NothingIsPrintable();
    } else {
      EscapedIsPrintable(s[1..]);
      EscapeIsPrintable(s[0]);
      PrintableConcat(Escape(s[0]), EscapeAll(s[1..]));
    }
  }

  lemma NothingIsPrintable()
    ensures Printable("")
  {
  }

  lemma PrintableConcat(a: string, b: string)
    requires Printable(a) && Printable(b)
    ensures Printable(a + b)
  {
  }

  lemma EscapeIsPrintable(c: char)
    ensures Printable(Escape(c))
  {
    var n := c as int;
    hide Hex4;
    if n >= 0x10000 {
      UnitIsPrintable(0xD800 + (n - 0x10000) / 0x400);
      UnitIsPrintable(0xDC00 + (n - 0x10000) % 0x400);
    } else {
      UnitIsPrintable(n);
    }
  }

  lemma UnitIsPrintable(n: nat)
    requires n < 0x10000
    ensures Printable(EscapeUnit(n))
  {
    HexIsPrintable(n / 0x1000);
    HexIsPrintable(n / 0x100 % 16);
    HexIsPrintable(n / 16 % 16);
    HexIsPrintable(n % 16);
    hide HexDigit;
  }

  lemma HexIsPrintable(n: nat)
    requires n < 16
    ensures ' ' <= HexDigit(n) <= '~'
  {
  }

  /** Section 7 of RFC 8259: a control character is always escaped, so no line break is printed. */
  lemma {:induction false} DumpsIsPrintable(v: Value)
    ensures Printable(Dumps(v))
    decreases v
  {
    hide EscapeAll, DumpsItems, DumpsFields, Decimal;
    match v
    case Null =>
    case Bool(b) =>
    case Int(n) => DecimalIsPrintable(if n < 0 then -n else n);
    case Str(s) => QuotedIsPrintable(s);
    case List(items) => ItemsArePrintable(items);
    case Dict(fields) => FieldsArePrintable(fields);
  }

  lemma {:induction false} ItemsArePrintable(items: seq<Value>)
    ensures Printable(DumpsItems(items))
    decreases items
  {
    hide Dumps, Printable;
    Separators();
    if items != [] {
      DumpsIsPrintable(items[0]);
      ItemsArePrintable(items[1..]);
      PrintableConcat(Dumps(items[0]), ", ");
      PrintableConcat(Dumps(items[0]) + ", ", DumpsItems(items[1..]));
    }
  }

  lemma Separators()
    ensures Printable("") && Printable(", ") && Printable(": ") && Printable("\"")
  {
  }

  lemma QuotedIsPrintable(s: string)
    ensures Printable(Quoted(s))
  {
    EscapedIsPrintable(s);
    hide EscapeAll;
  }

  lemma {:induction false} FieldsArePrintable(fields: seq<Field>)
    ensures Printable(DumpsFields(fields))
    decreases fields
  {
    hide Dumps, Quoted, Printable;
    Separators();
    if fields != [] {
      var name, value := Quoted(fields[0].name), Dumps(fields[0].value);
      QuotedIsPrintable(fields[0].name);
      DumpsIsPrintable(fields[0].value);
      FieldsArePrintable(fields[1..]);
      PrintableConcat(name, ": ");
      PrintableConcat(name + ": ", value);
      PrintableConcat(name + ": " + value, ", ");
      PrintableConcat(name + ": " + value + ", ", DumpsFields(fields[1..]));
    }
  }

  // --- reading a string literal back ----------------------------------------------------------------

  function HexValue(c: char): Option<nat> {
    if '0' <= c <= '9' then Some(c as int - '0' as int)
    else if 'a' <= c <= 'f' then Some(c as int - 'a' as int + 10)
    else if 'A' <= c <= 'F' then Some(c as int - 'A' as int + 10)
    else None
  }

  /** The four digits after \u. */
  function ReadHex4(t: string): (n: Option<nat>)
    ensures n.Some? ==> n.value < 0x10000 && |t| >= 4
  {
    if |t| < 4 then None
    else
      match (HexValue(t[0]), HexValue(t[1]), HexValue(t[2]), HexValue(t[3]))
      case (Some(a), Some(b), Some(c), Some(d)) =>
        if a < 16 && b < 16 && c < 16 && d < 16 then Some(a * 0x1000 + b * 0x100 + c * 16 + d) else None
      case _ => None
  }

  /** One character of a string literal and what follows it: section 7 of RFC 8259. */
  function ReadChar(t: string): (r: Option<(char, string)>)
    ensures r.Some? ==> |r.value.1| < |t|
  {
    if t == "" || t[0] == '"' || t[0] < ' ' then None
    else if t[0] != '\\' then Some((t[0], t[1..]))
    else if |t| < 2 then None
    else
      match t[1]
      case '"' => Some(('"', t[2..]))
      case '\\' => Some(('\\', t[2..]))
      case '/' => Some(('/', t[2..]))
      case 'b' => Some((8 as char, t[2..]))
      case 'f' => Some((12 as char, t[2..]))
      case 'n' => Some(('\n', t[2..]))
      case 'r' => Some(('\r', t[2..]))
      case 't' => Some(('\t', t[2..]))
      case 'u' => ReadUnit(t)
      case _ => None
  }

  function ReadUnit(t: string): (r: Option<(char, string)>)
    requires |t| >= 2
    ensures r.Some? ==> |r.value.1| < |t|
  {
    match ReadHex4(t[2..])
    case None => None
    case Some(n) =>
      if n < 0xD800 || 0xE000 <= n then Some((n as char, t[6..]))
      else if 0xDC00 <= n || |t| < 8 || t[6] != '\\' || t[7] != 'u' then None
      else
        match ReadHex4(t[8..])
        case None => None
        case Some(low) =>
          if low < 0xDC00 || 0xE000 <= low then None
          else Some(((0x10000 + (n - 0xD800) * 0x400 + (low - 0xDC00)) as char, t[12..]))
  }

  /** The characters up to the closing quote, and what follows it. */
  function ReadString(t: string): Option<(string, string)>
    decreases |t|
  {
    if t != "" && t[0] == '"' then Some(("", t[1..]))
    else
      match ReadChar(t)
      case None => None
      case Some((c, rest)) =>
        match ReadString(rest)
        case None => None
        case Some((s, after)) => Some(([c] + s, after))
  }

  lemma HexRoundTrip(n: nat, rest: string)
    requires n < 0x10000
    ensures ReadHex4(Hex4(n) + rest) == Some(n)
    ensures (Hex4(n) + rest)[4..] == rest
  {
    var a, b, c, d := n / 0x1000, n / 0x100 % 16, n / 16 % 16, n % 16;
    var t := Hex4(n) + rest;
    assert t[0] == HexDigit(a) && t[1] == HexDigit(b) && t[2] == HexDigit(c) && t[3] == HexDigit(d);
    DigitRoundTrip(a);
    DigitRoundTrip(b);
    DigitRoundTrip(c);
    DigitRoundTrip(d);
    DigitsOf(n);
    hide HexDigit, HexValue, Hex4;
  }

  lemma DigitsOf(n: nat)
    requires n < 0x10000
    ensures n == n / 0x1000 * 0x1000 + n / 0x100 % 16 * 0x100 + n / 16 % 16 * 16 + n % 16
    ensures n / 0x1000 < 16
  {
    assert n / 0x100 == n / 0x1000 * 16 + n / 0x100 % 16;
    assert n / 16 == n / 0x100 * 16 + n / 16 % 16;
  }

  lemma DigitRoundTrip(n: nat)
    requires n < 16
    ensures HexValue(HexDigit(n)) == Some(n)
  {
  }

  lemma CharRoundTrip(c: char, rest: string)
    ensures ReadChar(Escape(c) + rest) == Some((c, rest))
    ensures (Escape(c) + rest)[0] != '"'
  {
    hide ReadUnit, Hex4;
    var n := c as int;
    var t := Escape(c) + rest;
    if |Escape(c)| == 1 {
      assert t[1..] == rest;
    } else if |Escape(c)| == 2 {
      assert t[2..] == rest;
    } else {
      EscapeUnitStart(n);
      LongRoundTrip(c, rest);
    }
  }

  lemma EscapeUnitStart(n: nat)
    ensures forall u: nat :: u < 0x10000 ==> |EscapeUnit(u)| == 6 && EscapeUnit(u)[..2] == "\\u"
  {
  }

  lemma LongRoundTrip(c: char, rest: string)
    requires |Escape(c)| > 2
    ensures var t := Escape(c) + rest; t[..2] == "\\u" && ReadUnit(t) == Some((c, rest))
  {
    hide ReadUnit;
    var n := c as int;
    if n < 0x10000 {
      UnitRoundTrip(n, rest);
    } else {
      PairRoundTrip(n, rest);
    }
  }

  lemma UnitRoundTrip(n: nat, rest: string)
    requires n < 0xD800 || 0xE000 <= n < 0x10000
    ensures ReadUnit(EscapeUnit(n) + rest) == Some((n as char, rest))
  {
    var t := EscapeUnit(n) + rest;
    assert t[2..] == Hex4(n) + rest;
    HexRoundTrip(n, rest);
    assert t[6..] == rest;
  }

  lemma PairRoundTrip(n: nat, rest: string)
    requires 0x10000 <= n < 0x110000
    ensures ReadUnit(
      EscapeUnit(0xD800 + (n - 0x10000) / 0x400) + EscapeUnit(0xDC00 + (n - 0x10000) % 0x400) + rest)
      == Some((n as char, rest))
  {
    var high, low := 0xD800 + (n - 0x10000) / 0x400, 0xDC00 + (n - 0x10000) % 0x400;
    Surrogates(n);
    PairSlices(high, low, rest);
    HexRoundTrip(high, EscapeUnit(low) + rest);
    HexRoundTrip(low, rest);
    hide EscapeUnit, Hex4, ReadHex4;
  }

  lemma PairSlices(high: nat, low: nat, rest: string)
    requires high < 0x10000 && low < 0x10000
    ensures var t := EscapeUnit(high) + EscapeUnit(low) + rest;
      && |t| >= 12 && t[6] == '\\' && t[7] == 'u'
      && t[2..] == Hex4(high) + (EscapeUnit(low) + rest)
      && t[8..] == Hex4(low) + rest && t[12..] == rest
  {
    hide Hex4;
  }

  lemma Surrogates(n: nat)
    requires 0x10000 <= n < 0x110000
    ensures var high, low := 0xD800 + (n - 0x10000) / 0x400, 0xDC00 + (n - 0x10000) % 0x400;
      0xD800 <= high < 0xDC00 <= low < 0xE000 && 0x10000 + (high - 0xD800) * 0x400 + (low - 0xDC00) == n
  {
  }

  /** What is printed for a string is read back as that string. */
  lemma {:induction false} StringRoundTrip(s: string, rest: string)
    ensures ReadString(EscapeAll(s) + "\"" + rest) == Some((s, rest))
  {
    hide Escape, ReadChar, ReadString;
    if s == "" {
      assert EscapeAll(s) + "\"" + rest == "\"" + rest;
      ReadQuote(rest);
    } else {
      var tail := EscapeAll(s[1..]) + "\"" + rest;
      assert EscapeAll(s) + "\"" + rest == Escape(s[0]) + tail;
      CharRoundTrip(s[0], tail);
      StringRoundTrip(s[1..], rest);
      ReadOneMore(Escape(s[0]) + tail, s[0], tail, s[1..], rest);
      assert s == [s[0]] + s[1..];
    }
  }

  lemma ReadQuote(rest: string)
    ensures ReadString("\"" + rest) == Some(("", rest))
  {
    assert ("\"" + rest)[1..] == rest;
  }

  lemma ReadOneMore(t: string, c: char, tail: string, s: string, rest: string)
    requires t != "" && t[0] != '"' && ReadChar(t) == Some((c, tail))
    requires ReadString(tail) == Some((s, rest))
    ensures ReadString(t) == Some(([c] + s, rest))
  {
    hide ReadChar;
  }
}
