/**
 * String helpers shared by the front end and the back end: decimal rendering
 * (Python's `str(int)` and `f"{i:02d}"`, JavaScript's number-to-string for
 * non-negative integers), hexadecimal digits, JavaScript's `String.prototype.split` on a one-character
 * separator, `trim()`-emptiness, and the last `/`-segment of a path.
 */
module Text {

  // ---------------------------------------------------------------------------
  // Decimal numbers
  // ---------------------------------------------------------------------------

  predicate IsDigit(c: char) {
    '0' <= c <= '9'
  }

  function DigitChar(d: nat): (c: char)
    requires d < 10
    ensures IsDigit(c) && c as int - '0' as int == d
  {
    (d + '0' as int) as char
  }

  /** The value of a string of decimal digits (the empty string reads as 0). */
  function DecimalValue(s: string): nat
    requires forall i :: 0 <= i < |s| ==> IsDigit(s[i])
  {
    if s == [] then 0
    else
      assert IsDigit(s[|s| - 1]);
      10 * DecimalValue(s[..|s| - 1]) + (s[|s| - 1] as int - '0' as int)
  }

  /** Shortest decimal rendering of `n`, as Python's `str` and JavaScript's `String` give it. */
  function NatToString(n: nat): (s: string)
    ensures 1 <= |s|
    ensures forall i :: 0 <= i < |s| ==> IsDigit(s[i])
    ensures |s| > 1 ==> s[0] != '0'
    ensures n < 10 <==> |s| == 1
    ensures '\n' !in s && '/' !in s && '_' !in s
  {
    if n < 10 then [DigitChar(n)] else NatToString(n / 10) + [DigitChar(n % 10)]
  }

  lemma {:induction false} NatToStringValue(n: nat)
    ensures DecimalValue(NatToString(n)) == n
  {
    if n >= 10 {
      NatToStringValue(n / 10);
      var s := NatToString(n);
      assert s[..|s| - 1] == NatToString(n / 10);
    }
  }

  /** Python's `str(i)` / f-string `{i}` for any integer. */
  function IntToString(i: int): (s: string)
    ensures 1 <= |s|
    ensures i >= 0 ==> s == NatToString(i)
    ensures i < 0 ==> s[0] == '-' && s[1..] == NatToString(-i)
    ensures '\n' !in s
  {
    if i < 0 then "-" + NatToString(-i) else NatToString(i)
  }

  /** Python's `f"{i:02d}"` for a non-negative `i`: zero-padded to at least two digits. */
  function Pad2(i: nat): (s: string)
    ensures |s| >= 2
    ensures forall k :: 0 <= k < |s| ==> IsDigit(s[k])
    ensures i >= 10 ==> s == NatToString(i)
  {
    if i < 10 then "0" + NatToString(i) else NatToString(i)
  }

  lemma Pad2Value(i: nat)
    ensures DecimalValue(Pad2(i)) == i
  {
    NatToStringValue(i);
    if i < 10 {
      assert Pad2(i) == ['0', DigitChar(i)];
      assert Pad2(i)[..1] == "0";
    }
  }

  /** Distinct numbers get distinct padded renderings. */
  lemma Pad2Injective(i: nat, j: nat)
    requires Pad2(i) == Pad2(j)
    ensures i == j
  {
    Pad2Value(i);
    Pad2Value(j);
  }

  // ---------------------------------------------------------------------------
  // Hexadecimal digits
  // ---------------------------------------------------------------------------

  predicate IsHexDigit(c: char) {
    '0' <= c <= '9' || 'a' <= c <= 'f' || 'A' <= c <= 'F'
  }

  /** The value of a hexadecimal digit, either case. */
  function HexValue(c: char): (d: nat)
    requires IsHexDigit(c)
    ensures d < 16
  {
    if c <= '9' then c as int - '0' as int
    else if c <= 'F' then c as int - 'A' as int + 10
    else c as int - 'a' as int + 10
  }

  /** The lower-case hexadecimal digit of `d`. */
  function HexDigit(d: nat): (c: char)
    requires d < 16
    ensures IsHexDigit(c) && HexValue(c) == d && c != '\n' && !('A' <= c <= 'Z')
  {
    if d < 10 then (d + '0' as int) as char else (d - 10 + 'a' as int) as char
  }

  /** A lower-case digit is the rendering of its own value. */
  lemma HexDigitOfValue(c: char)
    requires IsHexDigit(c) && !('A' <= c <= 'F')
    ensures HexDigit(HexValue(c)) == c
  {
  }

  // ---------------------------------------------------------------------------
  // JavaScript `split` on a single character, and its inverse `join`
  // ---------------------------------------------------------------------------

  /** `s.split(sep)`: the maximal runs between separators, in order; never empty. */
  function Split(s: string, sep: char): (pieces: seq<string>)
    ensures |pieces| >= 1
    ensures forall k :: 0 <= k < |pieces| ==> sep !in pieces[k]
  {
    if s == [] then [""]
    else if s[0] == sep then [""] + Split(s[1..], sep)
    else
      var rest := Split(s[1..], sep);
      [[s[0]] + rest[0]] + rest[1..]
  }

  /** `pieces.join(sep)` for a non-empty list. */
  function Join(pieces: seq<string>, sep: char): string
    requires |pieces| >= 1
  {
    if |pieces| == 1 then pieces[0] else pieces[0] + [sep] + Join(pieces[1..], sep)
  }

  /** Splitting loses nothing: joining the pieces back gives the original string. */
  lemma {:induction false} JoinSplit(s: string, sep: char)
    ensures Join(Split(s, sep), sep) == s
  {
    if s != [] {
      JoinSplit(s[1..], sep);
      var rest := Split(s[1..], sep);
      if s[0] != sep {
        if |rest| == 1 {
          assert Join(Split(s, sep), sep) == [s[0]] + rest[0];
        } else {
          calc {
            Join(Split(s, sep), sep);
            ([s[0]] + rest[0]) + [sep] + Join(rest[1..], sep);
            [s[0]] + (rest[0] + [sep] + Join(rest[1..], sep));
            [s[0]] + Join(rest, sep);
          }
        }
      }
    }
  }

  /** Splitting a piece free of the separator, followed by the separator, peels it off. */
  lemma {:induction false} SplitCons(a: string, sep: char, b: string)
    requires sep !in a
    ensures Split(a + [sep] + b, sep) == [a] + Split(b, sep)
  {
    if a == [] {
      assert a + [sep] + b == [sep] + b;
      assert ([sep] + b)[1..] == b;
    } else {
      var s := a + [sep] + b;
      assert s[0] == a[0];
      assert s[1..] == a[1..] + [sep] + b;
      SplitCons(a[1..], sep, b);
      assert [a[0]] + a[1..] == a;
    }
  }

  /** The other direction of `JoinSplit`: pieces without the separator are recovered by a split. */
  lemma {:induction false} SplitJoin(pieces: seq<string>, sep: char)
    requires |pieces| >= 1
    requires forall k :: 0 <= k < |pieces| ==> sep !in pieces[k]
    ensures Split(Join(pieces, sep), sep) == pieces
  {
    if |pieces| == 1 {
      SplitNoSeparator(pieces[0], sep);
    } else {
      SplitJoin(pieces[1..], sep);
      SplitCons(pieces[0], sep, Join(pieces[1..], sep));
    }
  }

  /** Splitting around one separator splits each side independently. */
  lemma {:induction false} SplitAppend(a: string, sep: char, b: string)
    ensures Split(a + [sep] + b, sep) == Split(a, sep) + Split(b, sep)
  {
    if a == [] {
      assert a + [sep] + b == [sep] + b;
      assert ([sep] + b)[1..] == b;
    } else {
      var s := a + [sep] + b;
      assert s[0] == a[0];
      assert s[1..] == a[1..] + [sep] + b;
      SplitAppend(a[1..], sep, b);
      if a[0] != sep {
        var rest := Split(a[1..], sep);
        assert Split(s[1..], sep) == rest + Split(b, sep);
        assert (rest + Split(b, sep))[1..] == rest[1..] + Split(b, sep);
      }
    }
  }

  lemma {:induction false} SplitNoSeparator(s: string, sep: char)
    requires sep !in s
    ensures Split(s, sep) == [s]
  {
    if s != [] {
      assert s[0] != sep;
      SplitNoSeparator(s[1..], sep);
      assert [s[0]] + s[1..] == s;
    }
  }

  // ---------------------------------------------------------------------------
  // Paths
  // ---------------------------------------------------------------------------

  /** `s.split('/').pop()`: what follows the last `/`, or all of `s` when there is none. */
  function LastSegment(s: string): (r: string)
    ensures '/' !in r
  {
    var pieces := Split(s, '/');
    pieces[|pieces| - 1]
  }

  /** The segment after a directory prefix is the file name, when the name holds no `/`. */
  lemma LastSegmentOfJoin(dir: string, name: string)
    requires '/' !in dir && '/' !in name
    ensures LastSegment(dir + "/" + name) == name
  {
    SplitCons(dir, '/', name);
    SplitNoSeparator(name, '/');
  }

  // ---------------------------------------------------------------------------
  // JavaScript `trim()`
  // ---------------------------------------------------------------------------

  /** ECMAScript WhiteSpace and LineTerminator code points: what `trim()` removes. */
  predicate IsJsWhitespace(c: char) {
    c == '\t' || c == '\n' || c == '\U{000B}' || c == '\U{000C}' || c == '\r' || c == ' '
    || c == '\U{00A0}' || c == '\U{1680}' || ('\U{2000}' <= c <= '\U{200A}')
    || c == '\U{2028}' || c == '\U{2029}' || c == '\U{202F}' || c == '\U{205F}'
    || c == '\U{3000}' || c == '\U{FEFF}'
  }

  /** `s.trim()` is empty (falsy) exactly when every character is trimmed whitespace. */
  predicate IsBlank(s: string) {
    forall i :: 0 <= i < |s| ==> IsJsWhitespace(s[i])
  }
}
