/** The JavaScript string built-ins the application relies on: `trim` and the
    regular-expression class `\s`, `split` on one character,
    `Number.prototype.toString` on whole numbers and `parseInt`.
    A JavaScript string is a sequence of UTF-16 code units; here it is a `string`. */
module JsText {
  import opened Wrappers

  /** White space as `String.prototype.trim`, `parseInt` and the class `\s` see it:
      the WhiteSpace and LineTerminator code points of ECMAScript. */
  predicate IsSpace(c: char) {
    || c == '\t' || c == '\n' || c == '\U{B}' || c == '\U{C}' || c == '\r' || c == ' '
    || c == '\U{A0}' || c == '\U{1680}' || ('\U{2000}' <= c <= '\U{200A}')
    || c == '\U{2028}' || c == '\U{2029}' || c == '\U{202F}' || c == '\U{205F}'
    || c == '\U{3000}' || c == '\U{FEFF}'
  }

  predicate AllSpace(s: string) {
    forall i :: 0 <= i < |s| ==> IsSpace(s[i])
  }

  /** `s.trimStart()`: the suffix left after dropping leading white space. */
  function TrimStart(s: string): (r: string)
    ensures |r| <= |s| && r == s[|s| - |r|..]
    ensures forall i :: 0 <= i < |s| - |r| ==> IsSpace(s[i])
    ensures r == [] || !IsSpace(r[0])
  {
    if |s| > 0 && IsSpace(s[0]) then TrimStart(s[1..]) else s
  }

  /** `s.trimEnd()`: the prefix left after dropping trailing white space. */
  function TrimEnd(s: string): (r: string)
    ensures |r| <= |s| && r == s[..|r|]
    ensures forall i :: |r| <= i < |s| ==> IsSpace(s[i])
    ensures r == [] || !IsSpace(r[|r| - 1])
  {
    if |s| > 0 && IsSpace(s[|s| - 1]) then TrimEnd(s[..|s| - 1]) else s
  }

  /** `s.trim()`: the longest infix that neither starts nor ends with white space. */
  function Trim(s: string): (r: string)
    ensures r == [] || (!IsSpace(r[0]) && !IsSpace(r[|r| - 1]))
  {
    TrimEnd(TrimStart(s))
  }

  /** `r` sits in `s` at offset `k`, with only white space before and after it. */
  predicate SpaceFramedAt(s: string, k: nat, r: string) {
    && k + |r| <= |s|
    && r == s[k..k + |r|]
    && AllSpace(s[..k])
    && AllSpace(s[k + |r|..])
  }

  /** `s.trim()` is the infix of `s` left between a white-space prefix and a
      white-space suffix; the prefix is what `s.trimStart()` drops. */
  lemma {:induction false} TrimIsInfix(s: string)
    ensures SpaceFramedAt(s, |s| - |TrimStart(s)|, Trim(s))
  {
    var t := TrimStart(s);
    var r := TrimEnd(t);
    assert r == Trim(s);
    TrimmedPartsAreInfix(s, t, r);
  }

  /** A suffix `t` of `s` after white space, cut down to a prefix `r` before white
      space, is the infix of `s` between a white-space prefix and suffix. */
  lemma TrimmedPartsAreInfix(s: string, t: string, r: string)
    requires |t| <= |s| && t == s[|s| - |t|..]
    requires forall i :: 0 <= i < |s| - |t| ==> IsSpace(s[i])
    requires |r| <= |t| && r == t[..|r|]
    requires forall i :: |r| <= i < |t| ==> IsSpace(t[i])
    ensures SpaceFramedAt(s, |s| - |t|, r)
  {
    var k := |s| - |t|;
    assert forall i :: 0 <= i < |s[..k]| ==> s[..k][i] == s[i];
    var w := s[k + |r|..];
    assert w == t[|r|..];
    assert forall i :: 0 <= i < |w| ==> w[i] == t[|r| + i];
  }

  /** A trimmed string is empty exactly when the original is all white space. */
  lemma TrimEmptyIffAllSpace(s: string)
    ensures Trim(s) == [] <==> AllSpace(s)
  {
    var t := TrimStart(s);
    var k := |s| - |t|;
    if Trim(s) != [] {
      assert Trim(s)[0] == t[0] && t[0] == s[k];
    }
  }

  /** A string split as `w + r` with `w` all white space and `r` starting with a
      non-space character (or empty) is trimmed at the start to exactly `r`. */
  lemma TrimStartUnique(s: string, w: string, r: string)
    requires s == w + r && AllSpace(w) && (r == [] || !IsSpace(r[0]))
    ensures TrimStart(s) == r
  {
    var t := TrimStart(s);
    var k := |s| - |t|;
    assert forall i :: 0 <= i < |w| ==> IsSpace(s[i]);
    assert r != [] ==> !IsSpace(s[|w|]);
    assert t != [] ==> !IsSpace(s[k]);
  }

  /** Dually: `r + w` with `w` all white space and `r` ending in a non-space
      character (or empty) is trimmed at the end to exactly `r`. */
  lemma TrimEndUnique(s: string, r: string, w: string)
    requires s == r + w && AllSpace(w) && (r == [] || !IsSpace(r[|r| - 1]))
    ensures TrimEnd(s) == r
  {
    var t := TrimEnd(s);
    assert forall i :: |r| <= i < |s| ==> IsSpace(s[i]);
    assert r != [] ==> !IsSpace(s[|r| - 1]);
    assert t != [] ==> !IsSpace(s[|t| - 1]);
  }

  /** Trimming twice changes nothing. */
  lemma TrimIdempotent(s: string)
    ensures Trim(Trim(s)) == Trim(s)
  {
    var r := Trim(s);
    assert [] + r == r && r + [] == r;
    TrimStartUnique(r, [], r);
    TrimEndUnique(r, r, []);
    assert Trim(r) == TrimEnd(TrimStart(r));
  }

  /** `s.indexOf(c, from)` for one character, with `|s|` standing for -1. */
  function IndexFrom(s: string, c: char, from: nat): (i: nat)
    requires from <= |s|
    ensures from <= i <= |s|
    ensures forall k :: from <= k < i ==> s[k] != c
    ensures i < |s| ==> s[i] == c
    decreases |s| - from
  {
    if from == |s| || s[from] == c then from else IndexFrom(s, c, from + 1)
  }

  /** `s.split(sep)` for a one-character separator: the text before the first
      separator, then the pieces of the rest. */
  function Split(s: string, sep: char): (parts: seq<string>)
    ensures |parts| >= 1
    ensures forall k :: 0 <= k < |parts| ==> sep !in parts[k]
    decreases |s|
  {
    var i := IndexFrom(s, sep, 0);
    if i == |s| then [s] else [s[..i]] + Split(s[i + 1..], sep)
  }

  /** `parts.join(sep)`. */
  function Join(parts: seq<string>, sep: char): string
    requires |parts| >= 1
  {
    if |parts| == 1 then parts[0] else parts[0] + [sep] + Join(parts[1..], sep)
  }

  /** Splitting loses nothing: joining the pieces back gives the original string. */
  lemma {:induction false} JoinSplit(s: string, sep: char)
    ensures Join(Split(s, sep), sep) == s
    decreases |s|
  {
    var i := IndexFrom(s, sep, 0);
    if i < |s| {
      var rest := Split(s[i + 1..], sep);
      var parts := [s[..i]] + rest;
      assert Split(s, sep) == parts;
      assert parts[0] == s[..i] && parts[1..] == rest;
      JoinSplit(s[i + 1..], sep);
      assert Join(parts, sep) == s[..i] + [sep] + s[i + 1..];
      assert s == s[..i] + [sep] + s[i + 1..];
    }
  }

  /** A string without the separator is one piece. */
  lemma SplitWithoutSeparator(s: string, sep: char)
    requires sep !in s
    ensures Split(s, sep) == [s]
  {
    var i := IndexFrom(s, sep, 0);
    assert forall k :: 0 <= k < |s| ==> s[k] in s;
  }

  /** Splitting at the first separator: the text before it is the first piece, and
      the pieces of the text after it follow. */
  lemma SplitAtSeparator(a: string, sep: char, b: string)
    requires sep !in a
    ensures Split(a + [sep] + b, sep) == [a] + Split(b, sep)
  {
    var s := a + [sep] + b;
    assert forall k :: 0 <= k < |a| ==> s[k] == a[k] && a[k] in a;
    assert s[|a|] == sep;
    assert IndexFrom(s, sep, 0) == |a|;
    assert s[..|a|] == a && s[|a| + 1..] == b;
  }

  /** The character spelling decimal digit `d`. */
  function DigitChar(d: nat): (c: char)
    requires d < 10
    ensures '0' <= c <= '9'
  {
    (48 + d) as char
  }

  /** `n.toString()` for a whole number: its decimal digits, with no leading zero
      unless the number is zero. */
  function NatToString(n: nat): (r: string)
    ensures |r| >= 1
    ensures forall i :: 0 <= i < |r| ==> '0' <= r[i] <= '9'
    ensures |r| > 1 ==> r[0] != '0'
    decreases n
  {
    if n < 10 then [DigitChar(n)] else NatToString(n / 10) + [DigitChar(n % 10)]
  }

  /** The value of `c` as a digit in `radix` (10 or 16 here), if it is one. */
  function DigitValue(c: char, radix: nat): (r: Option<nat>)
    ensures r.Some? ==> r.value < radix
  {
    var v :=
      if '0' <= c <= '9' then (c as int) - 48
      else if 'a' <= c <= 'z' then (c as int) - 97 + 10
      else if 'A' <= c <= 'Z' then (c as int) - 65 + 10
      else radix;
    if 0 <= v < radix then Some(v) else None
  }

  /** The length of the longest prefix of `s` made of `radix` digits. */
  function DigitRun(s: string, radix: nat): (n: nat)
    ensures n <= |s|
    ensures forall i :: 0 <= i < n ==> DigitValue(s[i], radix).Some?
    ensures n == |s| || DigitValue(s[n], radix).None?
  {
    if |s| > 0 && DigitValue(s[0], radix).Some? then 1 + DigitRun(s[1..], radix) else 0
  }

  /** The value of `v`'s digits followed by the digit `d`. */
  function AppendDigit(v: nat, radix: nat, d: nat): nat {
    v * radix + d
  }

  /** The number a string of `radix` digits spells, most significant digit first. */
  function DigitsValue(ds: string, radix: nat): nat
    requires forall i :: 0 <= i < |ds| ==> DigitValue(ds[i], radix).Some?
  {
    if |ds| == 0 then 0
    else
      AppendDigit(DigitsValue(ds[..|ds| - 1], radix), radix, DigitValue(ds[|ds| - 1], radix).value)
  }

  /** The digits after the sign: a `0x`/`0X` prefix switches to base 16, and the
      longest run of digits that follows is the value; no digit at all is `None`. */
  function ParseUnsigned(u: string): Option<nat>
  {
    var hex := |u| >= 2 && u[0] == '0' && (u[1] == 'x' || u[1] == 'X');
    var radix := if hex then 16 else 10;
    var body := if hex then u[2..] else u;
    var n := DigitRun(body, radix);
    if n == 0 then None else Some(DigitsValue(body[..n], radix))
  }

  /** `parseInt(s)` with no radix argument, `None` standing for `NaN`: leading white
      space is skipped and one sign is read before the digits. (`-0` is modelled as 0.) */
  function ParseInt(s: string): (r: Option<int>)
    ensures AllSpace(s) ==> r.None?
    ensures r.Some? && r.value < 0 ==> TrimStart(s)[0] == '-'
  {
    var t := TrimStart(s);
    if |t| > 0 && t[0] == '-' then
      var magnitude := ParseUnsigned(t[1..]);
      if magnitude.Some? then Some(-(magnitude.value as int)) else None
    else if |t| > 0 && t[0] == '+' then ParseUnsigned(t[1..])
    else ParseUnsigned(t)
  }

  lemma {:induction false} NatToStringValue(n: nat)
    ensures forall i :: 0 <= i < |NatToString(n)| ==> DigitValue(NatToString(n)[i], 10).Some?
    ensures DigitsValue(NatToString(n), 10) == n
    decreases n
  {
    if n >= 10 {
      NatToStringValue(n / 10);
      var r := NatToString(n);
      assert r[..|r| - 1] == NatToString(n / 10);
    }
  }

  lemma DecimalDigitValue(c: char)
    requires '0' <= c <= '9'
    ensures !IsSpace(c) && c != '-' && c != '+'
    ensures DigitValue(c, 10) == Some((c as int) - 48)
  {
  }

  /** A run of decimal digits is read whole. */
  lemma {:induction false} DigitRunOfDigits(s: string)
    requires forall i :: 0 <= i < |s| ==> '0' <= s[i] <= '9'
    ensures DigitRun(s, 10) == |s|
  {
    if |s| > 0 {
      DecimalDigitValue(s[0]);
      DigitRunOfDigits(s[1..]);
    }
  }

  /** A run of decimal digits that does not start with `0x` is read whole. */
  lemma ParseUnsignedOfDigits(s: string)
    requires |s| >= 1 && forall i :: 0 <= i < |s| ==> '0' <= s[i] <= '9'
    requires forall i :: 0 <= i < |s| ==> DigitValue(s[i], 10).Some?
    ensures ParseUnsigned(s) == Some(DigitsValue(s, 10))
  {
    DigitRunOfDigits(s);
    assert s[..|s|] == s;
  }

  /** A run of decimal digits parses to its value. */
  lemma ParseIntOfDigits(s: string)
    requires |s| >= 1 && forall i :: 0 <= i < |s| ==> '0' <= s[i] <= '9'
    ensures forall i :: 0 <= i < |s| ==> DigitValue(s[i], 10).Some?
    ensures ParseInt(s) == Some(DigitsValue(s, 10))
  {
    forall i | 0 <= i < |s|
      ensures DigitValue(s[i], 10).Some?
    {
      DecimalDigitValue(s[i]);
    }
    DecimalDigitValue(s[0]);
    assert [] + s == s;
    TrimStartUnique(s, [], s);
    var t := TrimStart(s);
    assert t == s;
    assert !(t[0] == '-') && !(t[0] == '+');
    ParseUnsignedOfDigits(s);
    assert ParseInt(s) == ParseUnsigned(t);
  }

  /** `parseInt` reads back what `toString` wrote: the query-string round trip of a
      page number. */
  lemma ParseIntOfNatToString(n: nat)
    ensures ParseInt(NatToString(n)) == Some(n)
  {
    NatToStringValue(n);
    ParseIntOfDigits(NatToString(n));
  }
}
