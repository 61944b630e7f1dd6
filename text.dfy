/**
 * The handful of Python `str` operations the core relies on: `strip`,
 * `lower`/`upper`, `split(sep)`, `startswith`, decimal rendering with
 * zero padding, code-point comparison and `html.escape`.
 *
 * Whitespace is Python's `str.isspace` restricted to the Latin-1 range and
 * case mapping covers ASCII letters only.
 */
module Text {

  /** Python's `str.isspace` on the Latin-1 range (also what `\s` matches there). */
  predicate IsSpace(c: char) {
    c == ' ' || c == '\t' || c == '\n' || c == '\r' || c == '\U{0B}' || c == '\U{0C}'
    || ('\U{1C}' <= c <= '\U{1F}') || c == '\U{85}' || c == '\U{A0}'
  }

  predicate IsDigit(c: char) { '0' <= c <= '9' }

  predicate AllSpace(s: string) { forall k :: 0 <= k < |s| ==> IsSpace(s[k]) }

  predicate AllDigits(s: string) { forall k :: 0 <= k < |s| ==> IsDigit(s[k]) }

  /** No whitespace at either end: what `strip` produces. */
  predicate Trimmed(s: string) { s == [] || (!IsSpace(s[0]) && !IsSpace(s[|s| - 1])) }

  /** Number of leading whitespace characters. */
  function LeadingSpaces(s: string): (n: nat)
    ensures n <= |s| && AllSpace(s[..n])
    ensures n < |s| ==> !IsSpace(s[n])
  {
    if s != [] && IsSpace(s[0]) then
      var k := LeadingSpaces(s[1..]);
      assert s[1..][..k] == s[1..k + 1];
      1 + k
    else 0
  }

  /** Python's `s.lstrip()`. */
  function TrimStart(s: string): (r: string)
    ensures r == s[LeadingSpaces(s)..]
  {
    s[LeadingSpaces(s)..]
  }

  /** Python's `s.rstrip()`. */
  function TrimEnd(s: string): (r: string)
    ensures |r| <= |s| && r == s[..|r|]
    ensures r == [] || !IsSpace(r[|r| - 1])
    ensures AllSpace(s[|r|..])
  {
    if s != [] && IsSpace(s[|s| - 1]) then
      var r := TrimEnd(s[..|s| - 1]);
      assert s[|r|..] == s[..|s| - 1][|r|..] + [s[|s| - 1]];
      r
    else s
  }

  /**
   * Python's `s.strip()`: the slice of `s` left after dropping whitespace at
   * both ends; it is empty exactly when `s` is all whitespace, and a string
   * with no whitespace at its ends is its own strip.
   */
  function Strip(s: string): (r: string)
    ensures Trimmed(r)
    ensures LeadingSpaces(s) + |r| <= |s|
    ensures r == s[LeadingSpaces(s)..LeadingSpaces(s) + |r|]
    ensures AllSpace(s[LeadingSpaces(s) + |r|..])
    ensures r == [] <==> AllSpace(s)
    ensures Trimmed(s) ==> r == s
  {
    var n := LeadingSpaces(s);
    var r := TrimEnd(s[n..]);
    StripSlices(s, n, r);
    StripEnds(s, n, r);
    StripEmpty(s, n, r);
    r
  }

  lemma StripSlices(s: string, n: nat, r: string)
    requires n == LeadingSpaces(s) && r == TrimEnd(s[n..])
    ensures n + |r| <= |s| && r == s[n..n + |r|] && AllSpace(s[n + |r|..])
  {
    assert s[n..][..|r|] == s[n..n + |r|];
    assert s[n + |r|..] == s[n..][|r|..];
  }

  lemma StripEnds(s: string, n: nat, r: string)
    requires n == LeadingSpaces(s) && r == TrimEnd(s[n..])
    ensures Trimmed(r)
    ensures Trimmed(s) ==> r == s
  {
    if r != [] {
      assert r[0] == s[n];
    }
    if Trimmed(s) && s != [] {
      assert n == 0;
      assert s[n..] == s;
    }
  }

  lemma StripEmpty(s: string, n: nat, r: string)
    requires n == LeadingSpaces(s) && r == TrimEnd(s[n..])
    ensures r == [] <==> AllSpace(s)
  {
    if r == [] {
      assert n == |s|;
      assert s[..n] == s;
    }
    if AllSpace(s) {
      assert n == |s|;
    }
  }

  lemma StripIdempotent(s: string)
    ensures Strip(Strip(s)) == Strip(s)
  {
  }

  function LowerChar(c: char): char {
    if 'A' <= c <= 'Z' then (c as int + 32) as char else c
  }

  function UpperChar(c: char): char {
    if 'a' <= c <= 'z' then (c as int - 32) as char else c
  }

  /** Python's `s.lower()` (ASCII letters). */
  function Lower(s: string): (r: string)
    ensures |r| == |s|
    ensures forall i :: 0 <= i < |s| ==> r[i] == LowerChar(s[i])
  {
    seq(|s|, i requires 0 <= i < |s| => LowerChar(s[i]))
  }

  /** Python's `s.upper()` (ASCII letters). */
  function Upper(s: string): (r: string)
    ensures |r| == |s|
    ensures forall i :: 0 <= i < |s| ==> r[i] == UpperChar(s[i])
  {
    seq(|s|, i requires 0 <= i < |s| => UpperChar(s[i]))
  }

  /** Python's `s.startswith(p)`. */
  predicate StartsWith(s: string, p: string) {
    |p| <= |s| && s[..|p|] == p
  }

  /** Index of the first `c` in `s`, or `|s|` when there is none. */
  function IndexOf(s: string, c: char): (i: nat)
    ensures i <= |s|
    ensures i < |s| ==> s[i] == c
    ensures c !in s[..i]
  {
    if s == [] then 0
    else if s[0] == c then 0
    else
      var k := IndexOf(s[1..], c);
      assert s[..k + 1] == [s[0]] + s[1..][..k];
      1 + k
  }

  /** Python's `sep.join(parts)` for a one-character separator. */
  function Join(parts: seq<string>, sep: char): string
  {
    if parts == [] then ""
    else if |parts| == 1 then parts[0]
    else parts[0] + [sep] + Join(parts[1..], sep)
  }

  /**
   * Python's `s.split(sep)` for a one-character separator: at least one part,
   * no part holds the separator, and joining the parts back gives `s`.
   */
  function Split(s: string, sep: char): (parts: seq<string>)
    ensures |parts| >= 1
    ensures forall k :: 0 <= k < |parts| ==> sep !in parts[k]
    ensures Join(parts, sep) == s
    decreases |s|
  {
    var i := IndexOf(s, sep);
    if i == |s| then
      assert s[..i] == s;
      [s]
    else
      var rest := Split(s[i + 1..], sep);
      assert s == s[..i] + [sep] + s[i + 1..];
      [s[..i]] + rest
  }

  /** The other direction of the round trip: splitting a join gives the parts back. */
  lemma {:induction false} SplitJoin(parts: seq<string>, sep: char)
    requires |parts| >= 1
    requires forall k :: 0 <= k < |parts| ==> sep !in parts[k]
    ensures Split(Join(parts, sep), sep) == parts
  {
    var p := parts[0];
    if |parts| == 1 {
      IndexOfAbsent(p, sep);
    } else {
      var s := Join(parts, sep);
      assert s == p + [sep] + Join(parts[1..], sep);
      IndexOfAfter(p, sep, Join(parts[1..], sep));
      assert s[|p| + 1..] == Join(parts[1..], sep);
      assert s[..|p|] == p;
      SplitJoin(parts[1..], sep);
    }
  }

  lemma {:induction false} IndexOfAbsent(s: string, c: char)
    requires c !in s
    ensures IndexOf(s, c) == |s|
  {
    if s != [] {
      assert c !in s[1..];
      IndexOfAbsent(s[1..], c);
    }
  }

  lemma {:induction false} IndexOfAfter(p: string, c: char, t: string)
    requires c !in p
    ensures IndexOf(p + [c] + t, c) == |p|
  {
    if p != [] {
      assert (p + [c] + t)[1..] == p[1..] + [c] + t;
      assert c !in p[1..];
      IndexOfAfter(p[1..], c, t);
    }
  }

  // ------------------------------------------------------------ decimal text

  function DigitChar(d: nat): (c: char)
    requires d < 10
    ensures IsDigit(c)
  {
    ('0' as int + d) as char
  }

  function DigitValue(c: char): nat
    requires IsDigit(c)
  {
    c as int - '0' as int
  }

  /** Python's `str(n)` for a natural number. */
  function NatToString(n: nat): (r: string)
    ensures |r| >= 1 && AllDigits(r)
    ensures n < 10 ==> |r| == 1
    ensures 10 <= n < 100 ==> |r| == 2
    ensures 100 <= n < 10000 ==> 3 <= |r| <= 4
  {
    if n < 10 then [DigitChar(n)] else NatToString(n / 10) + [DigitChar(n % 10)]
  }

  /** The decimal value of a string of digits (leading zeros allowed). */
  function ParseNat(s: string): nat
    requires AllDigits(s)
  {
    if s == [] then 0 else ParseNat(s[..|s| - 1]) * 10 + DigitValue(s[|s| - 1])
  }

  lemma {:induction false} ParseNatToString(n: nat)
    ensures ParseNat(NatToString(n)) == n
  {
    if n >= 10 {
      var s := NatToString(n);
      assert s[..|s| - 1] == NatToString(n / 10);
      ParseNatToString(n / 10);
    }
  }

  function Zeros(k: nat): (r: string)
    ensures |r| == k && AllDigits(r)
    ensures forall i :: 0 <= i < k ==> r[i] == '0'
  {
    seq(k, i => '0')
  }

  lemma {:induction false} ParseNatZeros(k: nat, d: string)
    requires AllDigits(d)
    ensures ParseNat(Zeros(k) + d) == ParseNat(d)
    decreases |d|
  {
    var s := Zeros(k) + d;
    if d == [] {
      assert s == Zeros(k);
      ParseAllZeros(k);
    } else {
      assert s[..|s| - 1] == Zeros(k) + d[..|d| - 1];
      ParseNatZeros(k, d[..|d| - 1]);
    }
  }

  lemma {:induction false} ParseAllZeros(k: nat)
    ensures ParseNat(Zeros(k)) == 0
  {
    if k > 0 {
      assert Zeros(k)[..k - 1] == Zeros(k - 1);
      ParseAllZeros(k - 1);
    }
  }

  /** Python's `f"{n:0<width>d}"`: zero-padded to at least `width` digits. */
  function PadNat(n: nat, width: nat): (r: string)
    ensures AllDigits(r)
    ensures |r| == if |NatToString(n)| < width then width else |NatToString(n)|
    ensures ParseNat(r) == n
  {
    var d := NatToString(n);
    ParseNatToString(n);
    if |d| < width then
      ParseNatZeros(width - |d|, d);
      Zeros(width - |d|) + d
    else d
  }

  /** `f"{n:02d}"`; exactly two digits below 100. */
  function Pad2(n: nat): (r: string)
    ensures AllDigits(r) && ParseNat(r) == n
    ensures n < 100 ==> |r| == 2
  {
    PadNat(n, 2)
  }

  /** Below 100, `f"{n:02d}"` is the tens digit then the units digit. */
  lemma Pad2Digits(n: nat)
    requires n < 100
    ensures Pad2(n) == [DigitChar(n / 10), DigitChar(n % 10)]
  {
    if n >= 10 {
      assert NatToString(n) == NatToString(n / 10) + [DigitChar(n % 10)];
    } else {
      assert Zeros(1) == [DigitChar(0)];
    }
  }

  // ------------------------------------------------------------ ordering

  /** Python's `a <= b` on strings: code-point lexicographic order. */
  predicate LexLe(a: string, b: string)
    decreases |a|
  {
    a == [] || (b != [] && (a[0] < b[0] || (a[0] == b[0] && LexLe(a[1..], b[1..]))))
  }

  lemma {:induction false} LexLeTotal(a: string, b: string)
    ensures LexLe(a, b) || LexLe(b, a)
    decreases |a|
  {
    if a != [] && b != [] && a[0] == b[0] {
      LexLeTotal(a[1..], b[1..]);
    }
  }

  lemma {:induction false} LexLeTransitive(a: string, b: string, c: string)
    requires LexLe(a, b) && LexLe(b, c)
    ensures LexLe(a, c)
    decreases |a|
  {
    if a != [] && a[0] == b[0] && b[0] == c[0] {
      LexLeTransitive(a[1..], b[1..], c[1..]);
    }
  }

  lemma {:induction false} LexLeAntisymmetric(a: string, b: string)
    requires LexLe(a, b) && LexLe(b, a)
    ensures a == b
    decreases |a|
  {
    if a != [] {
      LexLeAntisymmetric(a[1..], b[1..]);
      assert a == [a[0]] + a[1..] && b == [b[0]] + b[1..];
    }
  }

  // ------------------------------------------------------------ html.escape

  /** One character as `html.escape(c, quote=True)` writes it. */
  function EscapeChar(c: char): (r: string)
    ensures r != [] && '<' !in r && '>' !in r && '"' !in r && '\'' !in r
  {
    if c == '&' then "&amp;"
    else if c == '<' then "&lt;"
    else if c == '>' then "&gt;"
    else if c == '"' then "&quot;"
    else if c == '\'' then "&#x27;"
    else [c]
  }

  /** Python's `html.escape(s)`: no markup or quote characters survive. */
  function HtmlEscape(s: string): (r: string)
    ensures '<' !in r && '>' !in r && '"' !in r && '\'' !in r
    ensures s == [] <==> r == []
  {
    if s == [] then [] else EscapeChar(s[0]) + HtmlEscape(s[1..])
  }

  /** The inverse of `HtmlEscape` for the five entities it emits. */
  function HtmlUnescape(s: string): string
  {
    if s == [] then []
    else if s[0] != '&' then [s[0]] + HtmlUnescape(s[1..])
    else
      var (c, n) := EntityAt(s);
      [c] + HtmlUnescape(s[n..])
  }

  /** The character an entity at the head of `s` stands for, and its length. */
  function EntityAt(s: string): (r: (char, nat))
    requires s != [] && s[0] == '&'
    ensures 1 <= r.1 <= |s|
  {
    if StartsWith(s, "&amp;") then ('&', 5)
    else if StartsWith(s, "&lt;") then ('<', 4)
    else if StartsWith(s, "&gt;") then ('>', 4)
    else if StartsWith(s, "&quot;") then ('"', 6)
    else if StartsWith(s, "&#x27;") then ('\'', 6)
    else ('&', 1)
  }

  /** Escaping loses nothing: unescaping the escaped text gives the text back. */
  lemma {:induction false} UnescapeEscape(s: string)
    ensures HtmlUnescape(HtmlEscape(s)) == s
  {
    if s != [] {
      UnescapeCons(s[0], HtmlEscape(s[1..]));
      UnescapeEscape(s[1..]);
      assert s == [s[0]] + s[1..];
    }
  }

  lemma UnescapeCons(c: char, rest: string)
    ensures HtmlUnescape(EscapeChar(c) + rest) == [c] + HtmlUnescape(rest)
  {
    var e := EscapeChar(c);
    var t := e + rest;
    assert t[|e|..] == rest;
    if c == '&' || c == '<' || c == '>' || c == '"' || c == '\'' {
      EscapedEntity(c, rest);
    } else {
      assert t[0] == c;
    }
  }

  /** An escaped markup or quote character is read back as one entity. */
  lemma EscapedEntity(c: char, rest: string)
    requires c == '&' || c == '<' || c == '>' || c == '"' || c == '\''
    ensures var t := EscapeChar(c) + rest;
      t[0] == '&' && EntityAt(t) == (c, |EscapeChar(c)|)
  {
    var e := EscapeChar(c);
    var t := e + rest;
    assert t[..|e|] == e;
    if c == '&' {
      assert StartsWith(t, "&amp;");
    } else if c == '<' {
      assert t[1] == 'l' && StartsWith(t, "&lt;");
    } else if c == '>' {
      assert t[1] == 'g' && t[2] == 't' && StartsWith(t, "&gt;");
    } else if c == '"' {
      assert t[1] == 'q' && StartsWith(t, "&quot;");
    } else {
      assert t[1] == '#' && StartsWith(t, "&#x27;");
    }
  }
}
