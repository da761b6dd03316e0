/**
 * A reader for the JSON text the generation server writes for an event, and the
 * proof that it reads every `json.dumps` encoding back: `Decode(Encode(e)) ==
 * Some(e)`. The client's `JSON.parse` accepts far more than this reader does; what
 * matters here is that such a parser exists, so the encoding loses nothing and two
 * different events never share a line.
 */
module EventDecoding {
  import opened Wrappers
  import opened Text
  import opened GenerationServer

  /** What a reader returns: the value read and the text after it. */
  type Read<T> = Option<(T, string)>

  // ---------------------------------------------------------------------------
  // Strings
  // ---------------------------------------------------------------------------

  /** Four hexadecimal digits, most significant first. */
  function ReadHex4(t: string): (r: Read<nat>)
    ensures r.Some? ==> |t| >= 4 && r.value.0 < 0x1_0000 && r.value.1 == t[4..]
  {
    if |t| >= 4 && IsHexDigit(t[0]) && IsHexDigit(t[1]) && IsHexDigit(t[2]) && IsHexDigit(t[3]) then
      Some((HexValue(t[0]) * 0x1000 + HexValue(t[1]) * 0x100 + HexValue(t[2]) * 16 + HexValue(t[3]), t[4..]))
    else None
  }

  /**
   * One character of a string body: a character other than a backslash stands for
   * itself; a backslash starts a two-character escape or a `\uXXXX` escape, and a
   * high surrogate must be followed by a `\uXXXX` low surrogate.
   */
  function ReadChar(t: string): (r: Read<char>)
    ensures r.Some? ==> |r.value.1| < |t|
  {
    if |t| == 0 then None
    else if t[0] != '\\' then Some((t[0], t[1..]))
    else if |t| < 2 then None
    else if t[1] == '"' then Some(('"', t[2..]))
    else if t[1] == '\\' then Some(('\\', t[2..]))
    else if t[1] == 'n' then Some(('\n', t[2..]))
    else if t[1] == 'r' then Some(('\r', t[2..]))
    else if t[1] == 't' then Some(('\t', t[2..]))
    else if t[1] == 'b' then Some(('\U{0008}', t[2..]))
    else if t[1] == 'f' then Some(('\U{000C}', t[2..]))
    else if t[1] != 'u' then None
    else match ReadHex4(t[2..])
      case None => None
      case Some((hi, r1)) =>
        if hi < 0xD800 || 0xE000 <= hi then Some((hi as char, r1))
        else if 0xDC00 <= hi then None
        else if |r1| < 2 || r1[0] != '\\' || r1[1] != 'u' then None
        else match ReadHex4(r1[2..])
          case None => None
          case Some((lo, r2)) =>
            if lo < 0xDC00 || 0xE000 <= lo then None
            else Some(((0x1_0000 + (hi - 0xD800) * 0x400 + (lo - 0xDC00)) as char, r2))
  }

  /** The characters of a string body up to its closing quote, which is consumed. */
  function ReadChars(t: string): (r: Read<string>)
    ensures r.Some? ==> |r.value.1| < |t|
    decreases |t|
  {
    if |t| == 0 then None
    else if t[0] == '"' then Some(([], t[1..]))
    else match ReadChar(t)
      case None => None
      case Some((c, r1)) =>
        match ReadChars(r1)
          case None => None
          case Some((s, r2)) => Some(([c] + s, r2))
  }

  /** A quoted JSON string. */
  function ReadString(t: string): (r: Read<string>)
    ensures r.Some? ==> |r.value.1| < |t|
  {
    if |t| >= 1 && t[0] == '"' then ReadChars(t[1..]) else None
  }

  /** `(n/0x1000, n/0x100 % 16, n/16 % 16, n % 16)` are the base-16 digits of `n`. */
  lemma Hex4Digits(n: nat)
    requires n < 0x1_0000
    ensures (n / 0x1000) * 0x1000 + (n / 0x100 % 16) * 0x100 + (n / 16 % 16) * 16 + n % 16 == n
  {
    var a, b := n / 16, n / 0x100;
    assert a / 16 == b;
    assert b / 16 == n / 0x1000;
  }

  lemma ReadHex4Of(n: nat, rest: string)
    requires n < 0x1_0000
    ensures ReadHex4(Hex4(n) + rest) == Some((n, rest))
  {
    var t := Hex4(n) + rest;
    assert t[..4] == Hex4(n) && t[4..] == rest;
    Hex4Digits(n);
  }

  /** Characters `json.dumps` writes as a backslash and one letter or symbol. */
  predicate ShortEscaped(c: char) {
    c == '"' || c == '\\' || c == '\n' || c == '\r' || c == '\t' || c == '\U{0008}' || c == '\U{000C}'
  }

  lemma ReadShortEscape(c: char, rest: string)
    requires ShortEscaped(c)
    ensures EscapeChar(c)[0] != '"'
    ensures ReadChar(EscapeChar(c) + rest) == Some((c, rest))
  {
    assert (EscapeChar(c) + rest)[2..] == rest;
  }

  lemma ReadPrintable(c: char, rest: string)
    requires !ShortEscaped(c) && ' ' <= c <= '~'
    ensures EscapeChar(c)[0] != '"'
    ensures ReadChar(EscapeChar(c) + rest) == Some((c, rest))
  {
    assert EscapeChar(c) + rest == [c] + rest;
  }

  lemma ReadBmpEscape(c: char, rest: string)
    requires !ShortEscaped(c) && !(' ' <= c <= '~') && (c as int) < 0x1_0000
    ensures EscapeChar(c)[0] != '"'
    ensures ReadChar(EscapeChar(c) + rest) == Some((c, rest))
  {
    var t := EscapeChar(c) + rest;
    assert t == "\\u" + (Hex4(c as int) + rest);
    assert t[2..] == Hex4(c as int) + rest;
    ReadHex4Of(c as int, rest);
  }

  /** The two halves of a character above U+FFFF and how they recombine. */
  lemma SurrogateHalves(c: char)
    requires (c as int) >= 0x1_0000
    ensures var v := c as int - 0x1_0000;
      var hi, lo := 0xD800 + v / 0x400, 0xDC00 + v % 0x400;
      && 0xD800 <= hi < 0xDC00 && 0xDC00 <= lo < 0xE000
      && 0x1_0000 + (hi - 0xD800) * 0x400 + (lo - 0xDC00) == c as int
  {
  }

  /** A `\u` escape holding a high surrogate, then one holding a low surrogate. */
  lemma ReadPairStep(t: string, hi: nat, r1: string, lo: nat, r2: string)
    requires |t| >= 2 && t[0] == '\\' && t[1] == 'u' && ReadHex4(t[2..]) == Some((hi, r1))
    requires 0xD800 <= hi < 0xDC00
    requires |r1| >= 2 && r1[0] == '\\' && r1[1] == 'u' && ReadHex4(r1[2..]) == Some((lo, r2))
    requires 0xDC00 <= lo < 0xE000
    ensures ReadChar(t) == Some(((0x1_0000 + (hi - 0xD800) * 0x400 + (lo - 0xDC00)) as char, r2))
  {
  }

  /** Text after a two-character prefix. */
  lemma AfterTwo(a: string, x: string)
    requires |a| == 2
    ensures (a + x)[2..] == x && (a + x)[0] == a[0] && (a + x)[1] == a[1]
  {
  }

  /** A `\uXXXX\uXXXX` pair of a high and a low surrogate reads as one character. */
  lemma ReadPair(hi: nat, lo: nat, rest: string)
    requires 0xD800 <= hi < 0xDC00 <= lo < 0xE000
    ensures ReadChar("\\u" + Hex4(hi) + "\\u" + Hex4(lo) + rest) ==
      Some(((0x1_0000 + (hi - 0xD800) * 0x400 + (lo - 0xDC00)) as char, rest))
  {
    var r1 := "\\u" + Hex4(lo) + rest;
    Regroup5("\\u", Hex4(hi), "\\u", Hex4(lo), rest);
    Regroup3("\\u", Hex4(lo), rest);
    AfterTwo("\\u", Hex4(hi) + r1);
    AfterTwo("\\u", Hex4(lo) + rest);
    ReadHex4Of(hi, r1);
    ReadHex4Of(lo, rest);
    ReadPairStep("\\u" + (Hex4(hi) + r1), hi, r1, lo, rest);
  }


  lemma ReadSurrogatePair(c: char, rest: string)
    requires (c as int) >= 0x1_0000
    ensures EscapeChar(c)[0] != '"'
    ensures ReadChar(EscapeChar(c) + rest) == Some((c, rest))
  {
    var v := c as int - 0x1_0000;
    var hi, lo := 0xD800 + v / 0x400, 0xDC00 + v % 0x400;
    SurrogateHalves(c);
    assert EscapeChar(c) == "\\u" + Hex4(hi) + "\\u" + Hex4(lo);
    ReadPair(hi, lo, rest);
  }





  /** Every escape reads back as the character it encodes, and none starts with a quote. */
  lemma ReadEscapeChar(c: char, rest: string)
    ensures EscapeChar(c)[0] != '"'
    ensures ReadChar(EscapeChar(c) + rest) == Some((c, rest))
  {
    if ShortEscaped(c) {
      ReadShortEscape(c, rest);
    } else if ' ' <= c <= '~' {
      ReadPrintable(c, rest);
    } else if (c as int) < 0x1_0000 {
      ReadBmpEscape(c, rest);
    } else {
      ReadSurrogatePair(c, rest);
    }
  }

  /** One step of `ReadChars` over a character that is not the closing quote. */
  lemma ReadCharsStep(t: string, c: char, tail: string, more: string, rest: string)
    requires |t| >= 1 && t[0] != '"'
    requires ReadChar(t) == Some((c, tail))
    requires ReadChars(tail) == Some((more, rest))
    ensures ReadChars(t) == Some(([c] + more, rest))
  {
  }

  lemma {:induction false} ReadEscapedChars(s: string, rest: string)
    ensures ReadChars(EscapeChars(s) + "\"" + rest) == Some((s, rest))
    decreases |s|
  {
    var t := EscapeChars(s) + "\"" + rest;
    if s == [] {
      assert t == "\"" + rest;
    } else {
      var tail := EscapeChars(s[1..]) + "\"" + rest;
      assert EscapeChars(s) == EscapeChar(s[0]) + EscapeChars(s[1..]);
      Regroup4(EscapeChar(s[0]), EscapeChars(s[1..]), "\"", rest);
      ReadEscapeChar(s[0], tail);
      ReadEscapedChars(s[1..], rest);
      ReadCharsStep(t, s[0], tail, s[1..], rest);
      assert [s[0]] + s[1..] == s;
    }
  }


  /** `ReadString` inverts `JsonString`, whatever follows the closing quote. */
  lemma ReadJsonString(s: string, rest: string)
    ensures ReadString(JsonString(s) + rest) == Some((s, rest))
  {
    var t := JsonString(s) + rest;
    assert t[1..] == EscapeChars(s) + "\"" + rest;
    ReadEscapedChars(s, rest);
  }

  // ---------------------------------------------------------------------------
  // Integers
  // ---------------------------------------------------------------------------

  /** How many decimal digits `t` starts with. */
  function LeadingDigits(t: string): (k: nat)
    ensures k <= |t|
    ensures forall i | 0 <= i < k :: IsDigit(t[i])
    ensures k < |t| ==> !IsDigit(t[k])
  {
    if t == [] || !IsDigit(t[0]) then 0 else 1 + LeadingDigits(t[1..])
  }

  /** A non-empty run of digits, read as much as there is. */
  function ReadNat(t: string): (r: Read<nat>)
    ensures r.Some? ==> |r.value.1| < |t|
  {
    var k := LeadingDigits(t);
    if k == 0 then None else Some((DecimalValue(t[..k]), t[k..]))
  }

  /** An optional minus sign and a run of digits. */
  function ReadInt(t: string): (r: Read<int>)
    ensures r.Some? ==> |r.value.1| < |t|
  {
    if |t| >= 1 && t[0] == '-' then
      match ReadNat(t[1..])
        case None => None
        case Some((m, r1)) => Some((-(m as int), r1))
    else
      match ReadNat(t)
        case None => None
        case Some((m, r1)) => Some((m as int, r1))
  }

  /** Whether `t` does not go on with a digit. */
  predicate Delimited(t: string) {
    t == [] || !IsDigit(t[0])
  }

  lemma {:induction false} LeadingDigitsOf(d: string, rest: string)
    requires forall i | 0 <= i < |d| :: IsDigit(d[i])
    requires Delimited(rest)
    ensures LeadingDigits(d + rest) == |d|
    decreases |d|
  {
    if d != [] {
      assert (d + rest)[1..] == d[1..] + rest;
      LeadingDigitsOf(d[1..], rest);
    } else {
      assert d + rest == rest;
    }
  }

  lemma ReadNatOf(n: nat, rest: string)
    requires Delimited(rest)
    ensures ReadNat(NatToString(n) + rest) == Some((n, rest))
  {
    var d := NatToString(n);
    LeadingDigitsOf(d, rest);
    assert (d + rest)[..|d|] == d && (d + rest)[|d|..] == rest;
    NatToStringValue(n);
  }

  lemma NegativeText(i: int)
    requires i < 0
    ensures IntToString(i) == "-" + NatToString(-i)
  {
    var s := IntToString(i);
    assert s == [s[0]] + s[1..];
  }

  /** A minus sign before a number is read as its negation. */
  lemma ReadMinus(x: string, m: nat, rest: string)
    requires ReadNat(x) == Some((m, rest))
    ensures ReadInt("-" + x) == Some((-(m as int), rest))
  {
    assert ("-" + x)[1..] == x;
  }

  lemma ReadNegative(i: int, rest: string)
    requires i < 0 && Delimited(rest)
    ensures ReadInt(IntToString(i) + rest) == Some((i, rest))
  {
    var d := NatToString(-i);
    NegativeText(i);
    Regroup3("-", d, rest);
    ReadNatOf(-i, rest);
    ReadMinus(d + rest, -i, rest);
  }



  lemma ReadNonNegative(i: int, rest: string)
    requires i >= 0 && Delimited(rest)
    ensures ReadInt(IntToString(i) + rest) == Some((i, rest))
  {
    var d := NatToString(i);
    assert IntToString(i) + rest == d + rest;
    assert IsDigit(d[0]);
    assert (d + rest)[0] == d[0];
    ReadNatOf(i, rest);
  }

  /** `ReadInt` inverts `IntToString` when no digit follows. */
  lemma ReadIntOf(i: int, rest: string)
    requires Delimited(rest)
    ensures ReadInt(IntToString(i) + rest) == Some((i, rest))
  {
    if i < 0 {
      ReadNegative(i, rest);
    } else {
      ReadNonNegative(i, rest);
    }
  }



  // ---------------------------------------------------------------------------
  // Lists of strings
  // ---------------------------------------------------------------------------

  /** The items of a non-empty list, separated by `", "`, and its closing bracket. */
  function ReadItems(t: string): (r: Read<seq<string>>)
    ensures r.Some? ==> |r.value.1| < |t|
    decreases |t|
  {
    match ReadString(t)
      case None => None
      case Some((s, r1)) =>
        if |r1| >= 1 && r1[0] == ']' then Some(([s], r1[1..]))
        else if |r1| >= 2 && r1[0] == ',' && r1[1] == ' ' then
          match ReadItems(r1[2..])
            case None => None
            case Some((items, r2)) => Some(([s] + items, r2))
        else None
  }

  /** A JSON array of strings. */
  function ReadList(t: string): (r: Read<seq<string>>)
    ensures r.Some? ==> |r.value.1| < |t|
  {
    if |t| >= 2 && t[0] == '[' then
      if t[1] == ']' then Some(([], t[2..])) else ReadItems(t[1..])
    else None
  }

  /** A string followed by the closing bracket ends the items. */
  lemma ReadItemsLast(t: string, s: string, rest: string)
    requires ReadString(t) == Some((s, "]" + rest))
    ensures ReadItems(t) == Some(([s], rest))
  {
    assert ("]" + rest)[1..] == rest;
  }

  /** A string followed by `", "` is read, then the items after it. */
  lemma ReadItemsCons(t: string, s: string, more: string, items: seq<string>, rest: string)
    requires ReadString(t) == Some((s, ", " + more))
    requires ReadItems(more) == Some((items, rest))
    ensures ReadItems(t) == Some(([s] + items, rest))
  {
    assert (", " + more)[2..] == more;
  }

  /** `a + b + c + d + e` regrouped as `a + (b + (c + d + e))`. */
  lemma Regroup5(a: string, b: string, c: string, d: string, e: string)
    ensures a + b + c + d + e == a + (b + (c + d + e))
  {
  }

  lemma {:induction false} ReadItemsOf(items: seq<string>, rest: string)
    requires items != []
    ensures ReadItems(JsonListItems(items) + "]" + rest) == Some((items, rest))
    decreases |items|
  {
    var t := JsonListItems(items) + "]" + rest;
    if |items| == 1 {
      assert JsonListItems(items) == JsonString(items[0]);
      Regroup3(JsonString(items[0]), "]", rest);
      ReadJsonString(items[0], "]" + rest);
      ReadItemsLast(t, items[0], rest);
      assert [items[0]] == items;
    } else {
      var more := JsonListItems(items[1..]) + "]" + rest;
      assert JsonListItems(items) == JsonString(items[0]) + ", " + JsonListItems(items[1..]);
      Regroup5(JsonString(items[0]), ", ", JsonListItems(items[1..]), "]", rest);
      ReadJsonString(items[0], ", " + more);
      ReadItemsOf(items[1..], rest);
      ReadItemsCons(t, items[0], more, items[1..], rest);
      assert [items[0]] + items[1..] == items;
    }
  }

  /** `ReadList` inverts `JsonStringList`, whatever follows the closing bracket. */
  lemma ReadListOf(items: seq<string>, rest: string)
    ensures ReadList(JsonStringList(items) + rest) == Some((items, rest))
  {
    var t := JsonStringList(items) + rest;
    if items == [] {
      assert t == "[]" + rest;
    } else {
      assert t[1..] == JsonListItems(items) + "]" + rest;
      assert JsonListItems(items)[0] == '"';
      ReadItemsOf(items, rest);
    }
  }

  // ---------------------------------------------------------------------------
  // Events
  // ---------------------------------------------------------------------------

  /** The value of one member, of the type its key carries. */
  datatype Value = Text(s: string) | Number(n: int) | Texts(items: seq<string>)

  function ReadValue(t: string, i: nat): (r: Read<Value>)
    requires i < 6
  {
    if i == 1 then
      match ReadInt(t) case None => None case Some((n, r1)) => Some((Number(n), r1))
    else if i == 4 then
      match ReadList(t) case None => None case Some((l, r1)) => Some((Texts(l), r1))
    else
      match ReadString(t) case None => None case Some((s, r1)) => Some((Text(s), r1))
  }

  /** `e` with member `i` set to `v`, when `v` has that member's type. */
  function SetMember(e: Event, i: nat, v: Value): Option<Event>
    requires i < 6
  {
    if i == 0 && v.Text? then Some(e.(stage := Some(v.s)))
    else if i == 1 && v.Number? then Some(e.(progress := Some(v.n)))
    else if i == 2 && v.Text? then Some(e.(message := Some(v.s)))
    else if i == 3 && v.Text? then Some(e.(file := Some(v.s)))
    else if i == 4 && v.Texts? then Some(e.(files := Some(v.items)))
    else if i == 5 && v.Text? then Some(e.(error := Some(v.s)))
    else None
  }

  /** What comes before a member's key: nothing for the first member, `", "` after. */
  function Separator(first: bool): string {
    if first then "" else ", "
  }

  /** Whether `t` begins with `p`. */
  predicate StartsWith(t: string, p: string) {
    |p| <= |t| && t[..|p|] == p
  }

  /** The text that opens member `i`: its separator, quoted key and `": "`. */
  function Head(i: nat, first: bool): string
    requires i < 6
  {
    Separator(first) + JsonString(MemberKey(i)) + ": "
  }

  /**
   * The members from key `i` on, then the closing brace. A key is present when its
   * head comes next; otherwise the reader goes on with the following key.
   */
  function ReadMembers(t: string, i: nat, first: bool): Option<Event>
    requires i <= 6
    decreases |t|, 6 - i
  {
    if i == 6 then
      if t == "}" then Some(Event(None, None, None, None, None, None)) else None
    else
      var head := Head(i, first);
      if StartsWith(t, head) then
        match ReadValue(t[|head|..], i)
          case None => None
          case Some((v, r1)) =>
            if |r1| >= |t| then None
            else
              match ReadMembers(r1, i + 1, false)
                case None => None
                case Some(e) => SetMember(e, i, v)
      else ReadMembers(t, i + 1, first)
  }

  /** The reader of one line: a JSON object holding the event's members. */
  function Decode(t: string): Option<Event> {
    if |t| >= 1 && t[0] == '{' then ReadMembers(t[1..], 0, true) else None
  }

  /** The members `AddFrom` appends from key `i` on; `first` when none was written before. */
  function Members(e: Event, i: nat, first: bool): string
    requires i <= 6
    decreases 6 - i
  {
    if i == 6 then []
    else match MemberValue(e, i)
      case None => Members(e, i + 1, first)
      case Some(v) => Head(i, first) + v + Members(e, i + 1, false)
  }

  /** `e` with the members before key `i` removed. */
  function From(e: Event, i: nat): Event {
    Event(
      if i <= 0 then e.stage else None,
      if i <= 1 then e.progress else None,
      if i <= 2 then e.message else None,
      if i <= 3 then e.file else None,
      if i <= 4 then e.files else None,
      if i <= 5 then e.error else None)
  }

  /** `Add` of a present value appends its separator, quoted key and value. */
  lemma AddSome(body: string, key: string, v: string)
    requires '\n' !in body && '\n' !in v
    ensures Add(body, key, Some(v)) == body + (Separator(body == []) + JsonString(key) + ": ") + v
  {
    var q := JsonString(key);
    if body == [] {
      assert Add(body, key, Some(v)) == q + ": " + v;
      assert body + (Separator(body == []) + q + ": ") == q + ": ";
    } else {
      assert Add(body, key, Some(v)) == body + ", " + q + ": " + v;
      Regroup4(body, ", ", q, ": ");
    }
  }

  /** `a + b + c` regrouped as `a + (b + c)`. */
  lemma Regroup3(a: string, b: string, c: string)
    ensures a + b + c == a + (b + c)
  {
  }

  /** `a + b + c + d` regrouped as `a + (b + c + d)`. */
  lemma Regroup4(a: string, b: string, c: string, d: string)
    ensures a + b + c + d == a + (b + c + d)
  {
  }

  /** `Add` of a present member appends its head and value. */
  lemma AddPresent(body: string, e: Event, i: nat)
    requires i < 6 && '\n' !in body && MemberValue(e, i).Some?
    ensures Add(body, MemberKey(i), MemberValue(e, i)) == body + Head(i, body == []) + MemberValue(e, i).value
  {
    AddSome(body, MemberKey(i), MemberValue(e, i).value);
  }

  lemma AddFromPresent(body: string, e: Event, i: nat)
    requires i < 6 && '\n' !in body && MemberValue(e, i).Some?
    requires var next := Add(body, MemberKey(i), MemberValue(e, i));
      AddFrom(next, e, i + 1) == next + Members(e, i + 1, next == [])
    ensures AddFrom(body, e, i) == body + Members(e, i, body == [])
  {
    var v := MemberValue(e, i).value;
    var h := Head(i, body == []);
    var m := Members(e, i + 1, false);
    AddPresent(body, e, i);
    assert Members(e, i, body == []) == h + v + m;
    Regroup4(body, h, v, m);
  }


  lemma AddFromAbsent(body: string, e: Event, i: nat)
    requires i < 6 && '\n' !in body && MemberValue(e, i).None?
    requires AddFrom(body, e, i + 1) == body + Members(e, i + 1, body == [])
    ensures AddFrom(body, e, i) == body + Members(e, i, body == [])
  {
  }

  lemma {:induction false} AddFromMembers(body: string, e: Event, i: nat)
    requires i <= 6 && '\n' !in body
    ensures AddFrom(body, e, i) == body + Members(e, i, body == [])
    decreases 6 - i
  {
    if i < 6 {
      var next := Add(body, MemberKey(i), MemberValue(e, i));
      AddFromMembers(next, e, i + 1);
      if MemberValue(e, i).Some? {
        AddFromPresent(body, e, i);
      } else {
        AddFromAbsent(body, e, i);
      }
    }
  }




  /** After the first member, the rest is empty or starts with a comma. */
  lemma {:induction false} MembersStart(e: Event, i: nat)
    requires i <= 6
    ensures Members(e, i, false) == [] || Members(e, i, false)[0] == ','
    decreases 6 - i
  {
    if i < 6 && MemberValue(e, i).None? {
      MembersStart(e, i + 1);
    }
  }

  /** The member texts are written without any character needing an escape. */
  lemma {:induction false} PlainEscape(s: string)
    requires forall k | 0 <= k < |s| :: 'a' <= s[k] <= 'z'
    ensures EscapeChars(s) == s
    decreases |s|
  {
    if s != [] {
      PlainEscape(s[1..]);
      assert [s[0]] + s[1..] == s;
    }
  }

  /** The quoted key of member `i` is the key between two quotes. */
  lemma QuotedKey(i: nat)
    requires i < 6
    ensures JsonString(MemberKey(i)) == "\"" + MemberKey(i) + "\""
  {
    PlainEscape(MemberKey(i));
  }

  /**
   * A later member never starts with an earlier member's head: the keys differ in
   * their first letter, except `file` and `files`, where the quote after `file`
   * meets the `s`.
   */
  /** The characters of a head after its separator: a quote, the key, a quote. */
  lemma HeadChars(i: nat, first: bool)
    requires i < 6
    ensures var p, key := |Separator(first)| + 1, MemberKey(i);
      && |Head(i, first)| > p + |key|
      && (forall q | 0 <= q < |key| :: Head(i, first)[p + q] == key[q])
      && Head(i, first)[p + |key|] == '"'
  {
    QuotedKey(i);
  }

  /** Texts that differ at a position before either ends do not start one another. */
  lemma DifferAt(head: string, other: string, x: string, p: nat)
    requires p < |head| && p < |other| && head[p] != other[p]
    ensures !StartsWith(other + x, head)
  {
  }

  /** The keys start with different letters, apart from `file` and `files`. */
  lemma KeyInitials(i: nat, k: nat)
    requires i < k < 6 && !(i == 3 && k == 4)
    ensures MemberKey(i)[0] != MemberKey(k)[0]
  {
  }

  lemma HeadMismatch(i: nat, k: nat, first: bool, x: string)
    requires i < k < 6
    ensures !StartsWith(Head(k, first) + x, Head(i, first))
  {
    HeadChars(i, first);
    HeadChars(k, first);
    var p := |Separator(first)| + 1;
    if i == 3 && k == 4 {
      assert Head(i, first)[p + |MemberKey(i)|] == '"';
      assert Head(k, first)[p + 4] == MemberKey(k)[4];
      DifferAt(Head(i, first), Head(k, first), x, p + 4);
    } else {
      KeyInitials(i, k);
      assert Head(i, first)[p + 0] == MemberKey(i)[0];
      assert Head(k, first)[p + 0] == MemberKey(k)[0];
      DifferAt(Head(i, first), Head(k, first), x, p);
    }
  }




  /** When member `i` is absent, its head does not start the rest of the text. */
  lemma {:induction false} AbsentHead(e: Event, i: nat, j: nat, first: bool)
    requires i < j <= 6
    ensures !StartsWith(Members(e, j, first) + "}", Head(i, first))
    decreases 6 - j
  {
    if j == 6 {
      assert |Members(e, j, first) + "}"| == 1;
    } else if MemberValue(e, j).None? {
      assert Members(e, j, first) == Members(e, j + 1, first);
      AbsentHead(e, i, j + 1, first);
    } else {
      AbsentBeforePresent(e, i, j, first);
    }
  }

  lemma AbsentBeforePresent(e: Event, i: nat, j: nat, first: bool)
    requires i < j < 6 && MemberValue(e, j).Some?
    ensures !StartsWith(Members(e, j, first) + "}", Head(i, first))
  {
    MembersPresent(e, j, first);
    HeadMismatch(i, j, first, MemberValue(e, j).value + (Members(e, j + 1, false) + "}"));
  }




  /** A member's encoded value reads back as itself, given what can follow it. */
  lemma ReadMemberValue(e: Event, i: nat, rest: string)
    requires i < 6 && MemberValue(e, i).Some?
    requires Delimited(rest)
    ensures ReadValue(MemberValue(e, i).value + rest, i).Some?
    ensures var (v, r) := ReadValue(MemberValue(e, i).value + rest, i).value;
      r == rest && SetMember(From(e, i + 1), i, v) == Some(From(e, i))
  {
    var t := MemberValue(e, i).value + rest;
    if i == 1 {
      ReadIntOf(e.progress.value, rest);
    } else if i == 4 {
      ReadListOf(e.files.value, rest);
    } else if i == 0 {
      ReadJsonString(e.stage.value, rest);
    } else if i == 2 {
      ReadJsonString(e.message.value, rest);
    } else if i == 3 {
      ReadJsonString(e.file.value, rest);
    } else {
      ReadJsonString(e.error.value, rest);
    }
  }

  /** A present member's text: its head, its value, then the members after it. */
  lemma MembersPresent(e: Event, i: nat, first: bool)
    requires i < 6 && MemberValue(e, i).Some?
    ensures Members(e, i, first) + "}" ==
      Head(i, first) + (MemberValue(e, i).value + (Members(e, i + 1, false) + "}"))
  {
  }

  /** One step of `ReadMembers` on a text that starts with member `i`'s head. */
  lemma ReadMembersStep(t: string, x: string, i: nat, first: bool, v: Value, r: string, e: Event)
    requires i < 6 && t == Head(i, first) + x
    requires ReadValue(x, i) == Some((v, r)) && |r| < |t|
    requires ReadMembers(r, i + 1, false) == Some(e)
    ensures ReadMembers(t, i, first) == SetMember(e, i, v)
  {
    var head := Head(i, first);
    assert t[..|head|] == head && t[|head|..] == x;
  }

  /** A present member is read, then the members after it. */
  lemma ReadPresentMember(e: Event, i: nat, first: bool)
    requires i < 6 && MemberValue(e, i).Some?
    requires ReadMembers(Members(e, i + 1, false) + "}", i + 1, false) == Some(From(e, i + 1))
    ensures ReadMembers(Members(e, i, first) + "}", i, first) == Some(From(e, i))
  {
    var x := MemberValue(e, i).value + (Members(e, i + 1, false) + "}");
    MembersPresent(e, i, first);
    MembersStart(e, i + 1);
    ReadMemberValue(e, i, Members(e, i + 1, false) + "}");
    var (v, r) := ReadValue(x, i).value;
    ReadMembersStep(Members(e, i, first) + "}", x, i, first, v, r, From(e, i + 1));
  }

  /** An absent member is skipped: the members after it are read from the same place. */
  /** One step of `ReadMembers` on a text that does not start with member `i`'s head. */
  lemma ReadMembersSkip(t: string, i: nat, first: bool, e: Event)
    requires i < 6 && !StartsWith(t, Head(i, first))
    requires ReadMembers(t, i + 1, first) == Some(e)
    ensures ReadMembers(t, i, first) == Some(e)
  {
  }

  /** Removing an absent member changes nothing. */
  lemma FromAbsent(e: Event, i: nat)
    requires i < 6 && MemberValue(e, i).None?
    ensures From(e, i + 1) == From(e, i)
  {
  }

  lemma ReadAbsentMember(e: Event, i: nat, first: bool)
    requires i < 6 && MemberValue(e, i).None?
    requires ReadMembers(Members(e, i + 1, first) + "}", i + 1, first) == Some(From(e, i + 1))
    ensures ReadMembers(Members(e, i, first) + "}", i, first) == Some(From(e, i))
  {
    AbsentHead(e, i, i + 1, first);
    assert Members(e, i, first) == Members(e, i + 1, first);
    ReadMembersSkip(Members(e, i + 1, first) + "}", i, first, From(e, i + 1));
    FromAbsent(e, i);
  }


  /** `ReadMembers` reads the members from key `i` on back. */
  lemma {:induction false} ReadMembersOf(e: Event, i: nat, first: bool)
    requires i <= 6
    ensures ReadMembers(Members(e, i, first) + "}", i, first) == Some(From(e, i))
    decreases 6 - i
  {
    if i == 6 {
      assert Members(e, i, first) + "}" == "}";
    } else if MemberValue(e, i).None? {
      ReadMembersOf(e, i + 1, first);
      ReadAbsentMember(e, i, first);
    } else {
      ReadMembersOf(e, i + 1, false);
      ReadPresentMember(e, i, first);
    }
  }

  /** `Decode` inverts `json.dumps` on every event. */
  lemma DecodeEncode(e: Event)
    ensures Decode(Encode(e)) == Some(e)
  {
    var m := Members(e, 0, true);
    AddFromMembers([], e, 0);
    assert Body(e) == m;
    Regroup3("{", m, "}");
    AfterOne("{", m + "}");
    ReadMembersOf(e, 0, true);
    FromAll(e);
  }

  /** Text after a one-character prefix. */
  lemma AfterOne(a: string, x: string)
    requires |a| == 1
    ensures (a + x)[1..] == x && (a + x)[0] == a[0]
  {
  }

  lemma FromAll(e: Event)
    ensures From(e, 0) == e
  {
  }


  /** Two events never have the same line. */
  lemma EncodeInjective(a: Event, b: Event)
    requires Encode(a) == Encode(b)
    ensures a == b
  {
    DecodeEncode(a);
    DecodeEncode(b);
  }
}
