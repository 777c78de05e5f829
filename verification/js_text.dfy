/** String behaviour of the JavaScript built-ins the dashboard relies on: `Array.join`,
    `String.split`, `toLowerCase`, `includes`, `trim`, `parseInt`, number-to-text
    conversion in template literals, and the `||` fallback on strings. */
module JsText {
  import opened Wrappers

  /** What a template literal prints for a possibly missing string: `undefined` shows
      up literally. */
  function Show(s: Option<string>): (r: string)
    ensures s.Some? ==> r == s.value
    ensures s.None? ==> r == "undefined"
  {
    match s
    case Some(v) => v
    case None => "undefined"
  }

  /** `s || fallback` on a possibly missing string: both `undefined` and `""` are falsy. */
  function OrElse(s: Option<string>, fallback: string): (r: string)
    ensures r == fallback || (s == Some(r) && r != "")
    ensures s.Some? && s.value != "" ==> r == s.value
  {
    if s.Some? && s.value != "" then s.value else fallback
  }

  // ---------------------------------------------------------------- join / split

  /** `parts.join(sep)`. */
  function Join(parts: seq<string>, sep: string): (r: string)
    ensures |parts| == 0 ==> r == ""
    ensures |parts| == 1 ==> r == parts[0]
    ensures |parts| >= 1 ==> |r| >= |parts[0]| && r[..|parts[0]|] == parts[0]
    decreases |parts|
  {
    if |parts| == 0 then ""
    else if |parts| == 1 then parts[0]
    else parts[0] + sep + Join(parts[1..], sep)
  }

  /** Joining one more part adds the separator and that part at the end. */
  lemma {:induction false} JoinSnoc(parts: seq<string>, p: string, sep: string)
    requires |parts| >= 1
    ensures Join(parts + [p], sep) == Join(parts, sep) + sep + p
    decreases |parts|
  {
    if |parts| == 1 {
      assert parts + [p] == [parts[0], p];
      assert [parts[0], p][1..] == [p];
    } else {
      assert (parts + [p])[1..] == parts[1..] + [p];
      JoinSnoc(parts[1..], p, sep);
    }
  }

  /** Prefixing the first part prefixes the whole joined text. */
  lemma {:induction false} JoinConsHead(x: string, parts: seq<string>, sep: string)
    requires |parts| >= 1
    ensures Join([x + parts[0]] + parts[1..], sep) == x + Join(parts, sep)
  {
    var ps := [x + parts[0]] + parts[1..];
    assert ps[1..] == parts[1..];
  }

  /** `s.split(c)` for a one-character separator: the pieces between separators. */
  function Split(s: string, c: char): (r: seq<string>)
    ensures |r| >= 1
    ensures forall i :: 0 <= i < |r| ==> c !in r[i]
    decreases |s|
  {
    if |s| == 0 then [""]
    else
      var rest := Split(s[1..], c);
      if s[0] == c then [""] + rest
      else [[s[0]] + rest[0]] + rest[1..]
  }

  /** Splitting and joining back with the same separator gives the original text. */
  lemma {:induction false} JoinSplit(s: string, c: char)
    ensures Join(Split(s, c), [c]) == s
    decreases |s|
  {
    if |s| > 0 {
      var rest := Split(s[1..], c);
      JoinSplit(s[1..], c);
      if s[0] == c {
        assert Split(s, c) == [""] + rest;
        if |rest| == 1 {
          assert Join([""] + rest, [c]) == "" + [c] + rest[0];
        } else {
          assert ([""] + rest)[1..] == rest;
        }
        assert s == [c] + s[1..];
      } else {
        JoinConsHead([s[0]], rest, [c]);
        assert s == [s[0]] + s[1..];
      }
    }
  }

  /** A text without the separator splits into itself alone. */
  lemma {:induction false} SplitAbsent(s: string, c: char)
    requires c !in s
    ensures Split(s, c) == [s]
    decreases |s|
  {
    if |s| > 0 {
      SplitAbsent(s[1..], c);
      assert s == [s[0]] + s[1..];
    }
  }

  /** The first piece of a split is the text before the first separator, the second
      piece (if any) starts right after it. */
  lemma {:induction false} SplitAround(a: string, c: char, b: string)
    requires c !in a
    ensures Split(a + [c] + b, c) == [a] + Split(b, c)
    decreases |a|
  {
    if |a| == 0 {
      assert a + [c] + b == [c] + b;
      assert ([c] + b)[1..] == b;
    } else {
      assert (a + [c] + b)[1..] == a[1..] + [c] + b;
      SplitAround(a[1..], c, b);
      assert a == [a[0]] + a[1..];
    }
  }

  /** `s.split(c)[0]`: the text before the first occurrence of `c` (all of `s` when it
      does not occur). */
  function BeforeFirst(s: string, c: char): (r: string)
    ensures c !in r
    ensures |r| <= |s| && s[..|r|] == r
    ensures |r| < |s| ==> s[|r|] == c
  {
    JoinSplit(s, c);
    Split(s, c)[0]
  }

  // ---------------------------------------------------------------- case and search

  /** `toLowerCase` on the ASCII letters (other characters are kept). */
  function LowerChar(ch: char): (r: char)
    ensures 'A' <= ch <= 'Z' ==> 'a' <= r <= 'z' && r as int - ch as int == 32
    ensures !('A' <= ch <= 'Z') ==> r == ch
  {
    if 'A' <= ch <= 'Z' then (ch as int + 32) as char else ch
  }

  function ToLower(s: string): (r: string)
    ensures |r| == |s|
    ensures forall i :: 0 <= i < |s| ==> r[i] == LowerChar(s[i])
  {
    seq(|s|, i requires 0 <= i < |s| => LowerChar(s[i]))
  }

  /** Lower-casing twice is lower-casing once. */
  lemma ToLowerIdempotent(s: string)
    ensures ToLower(ToLower(s)) == ToLower(s)
  {
  }

  /** `s.includes(t)`: `t` occurs as a contiguous piece of `s`. */
  predicate Includes(s: string, t: string) {
    exists i :: 0 <= i <= |s| - |t| && PieceAt(s, t, i)
  }

  /** `t` occurs in `s` starting at position `i`. */
  predicate PieceAt(s: string, t: string, i: int) {
    0 <= i <= |s| - |t| && s[i..i + |t|] == t
  }

  /** Every text includes the empty text, and every text includes itself. */
  lemma IncludesTrivial(s: string)
    ensures Includes(s, "")
    ensures Includes(s, s)
  {
    assert PieceAt(s, "", 0);
    assert PieceAt(s, s, 0);
  }

  // ---------------------------------------------------------------- trim

  /** The characters `trim` removes: the WhiteSpace and LineTerminator code points of
      section 12.2 and 12.3 of ECMA-262 (tab, vertical tab, form feed, space, no-break
      space, the byte-order mark, the Unicode space separators, line feed, carriage return,
      and the line and paragraph separators). */
  predicate IsSpace(ch: char) {
    ch == ' ' || ch == '\t' || ch == '\n' || ch == '\r' || ch == '\U{000B}' || ch == '\U{000C}'
    || ch == '\U{00A0}' || ch == '\U{FEFF}' || ch == '\U{1680}'
    || ('\U{2000}' <= ch <= '\U{200A}')
    || ch == '\U{2028}' || ch == '\U{2029}' || ch == '\U{202F}' || ch == '\U{205F}' || ch == '\U{3000}'
  }

  function TrimStart(s: string): (r: string)
    ensures |r| <= |s| && r == s[|s| - |r|..]
    ensures forall i :: 0 <= i < |s| - |r| ==> IsSpace(s[i])
    ensures |r| > 0 ==> !IsSpace(r[0])
    decreases |s|
  {
    if |s| > 0 && IsSpace(s[0]) then TrimStart(s[1..]) else s
  }

  function TrimEnd(s: string): (r: string)
    ensures |r| <= |s| && r == s[..|r|]
    ensures forall i :: |r| <= i < |s| ==> IsSpace(s[i])
    ensures |r| > 0 ==> !IsSpace(r[|r| - 1])
    decreases |s|
  {
    if |s| > 0 && IsSpace(s[|s| - 1]) then TrimEnd(s[..|s| - 1]) else s
  }

  /** `s.trim()`. */
  function Trim(s: string): (r: string) {
    TrimEnd(TrimStart(s))
  }

  /** `s.trim()` is empty exactly when `s` is all white space; otherwise it is a piece of
      `s` that neither starts nor ends with white space. */
  lemma TrimSpec(s: string)
    ensures Trim(s) == "" <==> forall i :: 0 <= i < |s| ==> IsSpace(s[i])
    ensures Trim(s) != "" ==> !IsSpace(Trim(s)[0]) && !IsSpace(Trim(s)[|Trim(s)| - 1])
    ensures Includes(s, Trim(s))
  {
    var a := TrimStart(s);
    var r := TrimEnd(a);
    var k := |s| - |a|;
    assert PieceAt(s, r, k);
  }

  // ---------------------------------------------------------------- decimal numbers

  predicate IsDigit(ch: char) {
    '0' <= ch <= '9'
  }

  function DigitChar(d: int): (ch: char)
    requires 0 <= d < 10
    ensures IsDigit(ch) && ch as int - '0' as int == d
  {
    ('0' as int + d) as char
  }

  /** How a non-negative integer prints (no leading zeros). */
  function NatToString(n: nat): (r: string)
    ensures |r| >= 1
    ensures forall i :: 0 <= i < |r| ==> IsDigit(r[i])
    decreases n
  {
    if n < 10 then [DigitChar(n)] else NatToString(n / 10) + [DigitChar(n % 10)]
  }

  /** How an integer prints in a template literal. */
  function IntToString(n: int): (r: string)
    ensures |r| >= 1
    ensures n >= 0 ==> r == NatToString(n)
    ensures n < 0 ==> r == "-" + NatToString(-n)
  {
    if n >= 0 then NatToString(n) else "-" + NatToString(-n)
  }

  /** The value of a run of decimal digits. */
  function DigitsValue(s: string): (v: nat)
    requires forall i :: 0 <= i < |s| ==> IsDigit(s[i])
    decreases |s|
  {
    if |s| == 0 then 0
    else
      assert IsDigit(s[|s| - 1]);
      DigitsValue(s[..|s| - 1]) * 10 + (s[|s| - 1] as int - '0' as int) as nat
  }

  /** Reading back a printed natural number gives that number. */
  lemma {:induction false} DigitsValueNatToString(n: nat)
    ensures DigitsValue(NatToString(n)) == n
    decreases n
  {
    if n >= 10 {
      var s := NatToString(n);
      assert s[..|s| - 1] == NatToString(n / 10);
      DigitsValueNatToString(n / 10);
    }
  }

  /** The longest run of digits at the start of `s`. */
  function DigitPrefix(s: string): (r: string)
    ensures |r| <= |s| && s[..|r|] == r
    ensures forall i :: 0 <= i < |r| ==> IsDigit(r[i])
    ensures |r| < |s| ==> !IsDigit(s[|r|])
    decreases |s|
  {
    if |s| > 0 && IsDigit(s[0]) then [s[0]] + DigitPrefix(s[1..]) else ""
  }

  lemma {:induction false} DigitPrefixAllDigits(s: string)
    requires forall i :: 0 <= i < |s| ==> IsDigit(s[i])
    ensures DigitPrefix(s) == s
    decreases |s|
  {
    if |s| > 0 {
      DigitPrefixAllDigits(s[1..]);
    }
  }

  /** `TrimStart` leaves a text that does not start with white space alone. */
  lemma TrimStartNoSpace(s: string)
    requires |s| == 0 || !IsSpace(s[0])
    ensures TrimStart(s) == s
  {
  }

  /** The signed digit run of `parseInt(s, 10)` after the sign: `None` is NaN. */
  function ParseUnsigned(s: string): (r: Option<nat>)
    ensures r.None? <==> (|s| == 0 || !IsDigit(s[0]))
  {
    var d := DigitPrefix(s);
    if |d| == 0 then None else Some(DigitsValue(d))
  }

  /** `parseInt(s, 10)`: skip leading white space, read an optional sign and the longest
      run of digits; no digit at all gives NaN (`None`). */
  function ParseInt(s: string): (r: Option<int>)
    ensures |s| > 0 && IsDigit(s[0]) ==> r.Some? && r.value >= 0
  {
    var t := TrimStart(s);
    if |t| > 0 && t[0] == '-' then
      match ParseUnsigned(t[1..])
      case Some(v) => Some(-(v as int))
      case None => None
    else if |t| > 0 && t[0] == '+' then
      match ParseUnsigned(t[1..])
      case Some(v) => Some(v as int)
      case None => None
    else
      match ParseUnsigned(t)
      case Some(v) => Some(v as int)
      case None => None
  }

  /** Reading back the digits of a natural number. */
  lemma ParseUnsignedNatToString(m: nat)
    ensures ParseUnsigned(NatToString(m)) == Some(m)
  {
    var digits := NatToString(m);
    DigitsValueNatToString(m);
    DigitPrefixAllDigits(digits);
  }

  lemma ParseIntNatToString(m: nat)
    ensures ParseInt(NatToString(m)) == Some(m as int)
  {
    var s := NatToString(m);
    assert IsDigit(s[0]);
    TrimStartNoSpace(s);
    ParseUnsignedNatToString(m);
  }

  lemma ParseIntNegative(m: nat)
    ensures ParseInt("-" + NatToString(m)) == Some(-(m as int))
  {
    var s := "-" + NatToString(m);
    assert s[0] == '-';
    TrimStartNoSpace(s);
    assert s[1..] == NatToString(m);
    ParseUnsignedNatToString(m);
  }

  /** `parseInt` reads back every printed integer. */
  lemma ParseIntIntToString(n: int)
    ensures ParseInt(IntToString(n)) == Some(n)
  {
    if n >= 0 {
      ParseIntNatToString(n);
    } else {
      ParseIntNegative(-n);
    }
  }

  /** `parseInt` of a text with stuff after the digits reads only the digits; a leading
      zero does not change the value. */
  lemma ParseIntDigitsThenOther(d: string, rest: string)
    requires |d| >= 1 && forall i :: 0 <= i < |d| ==> IsDigit(d[i])
    requires |rest| == 0 || !IsDigit(rest[0])
    ensures ParseInt(d + rest) == Some(DigitsValue(d) as int)
  {
    var s := d + rest;
    assert s[0] == d[0];
    ParseIntDigitStart(s);
    DigitPrefixConcat(d, rest);
    assert ParseUnsigned(s) == Some(DigitsValue(d));
  }

  /** A text that starts with a digit is read without trimming or a sign. */
  lemma ParseIntDigitStart(s: string)
    requires |s| > 0 && IsDigit(s[0])
    ensures ParseUnsigned(s).Some? && ParseInt(s) == Some(ParseUnsigned(s).value as int)
  {
    assert !IsSpace(s[0]) && s[0] != '-' && s[0] != '+';
    TrimStartNoSpace(s);
  }

  lemma {:induction false} DigitPrefixConcat(d: string, rest: string)
    requires forall i :: 0 <= i < |d| ==> IsDigit(d[i])
    requires |rest| == 0 || !IsDigit(rest[0])
    ensures DigitPrefix(d + rest) == d
    decreases |d|
  {
    if |d| > 0 {
      assert (d + rest)[1..] == d[1..] + rest;
      DigitPrefixConcat(d[1..], rest);
      assert d == [d[0]] + d[1..];
    } else {
      assert d + rest == rest;
    }
  }
}
