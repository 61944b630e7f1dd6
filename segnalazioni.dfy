/**
 * The state filter of `GET /segnalazioni/by-stato`: a comma-separated list of
 * report states, split, stripped, emptied parts dropped, and each part looked
 * up among the three states a report can be in.
 */
module Segnalazioni {
  import opened Wrappers
  import opened Text
  import opened Sorting

  /** `StatoSegnalazione`. */
  datatype Stato = Aperta | InLavorazione | Chiusa

  function StatoValue(s: Stato): string {
    match s
    case Aperta => "aperta"
    case InLavorazione => "in lavorazione"
    case Chiusa => "chiusa"
  }

  /** `StatoSegnalazione(p)`: the state whose value is exactly `p`; the lookup is case-sensitive. */
  function StatoOf(p: string): (r: Option<Stato>)
    ensures r.Some? ==> StatoValue(r.value) == p
    ensures r.None? ==> forall s: Stato :: StatoValue(s) != p
  {
    if p == "aperta" then Some(Aperta)
    else if p == "in lavorazione" then Some(InLavorazione)
    else if p == "chiusa" then Some(Chiusa)
    else None
  }

  /** Every state reads back from its value. */
  lemma StatoRoundTrip(s: Stato)
    ensures StatoOf(StatoValue(s)) == Some(s)
  {
  }

  /** `[s.strip() for s in parts]`. */
  function StripAll(parts: seq<string>): (r: seq<string>)
    ensures |r| == |parts| && forall i :: 0 <= i < |parts| ==> r[i] == Strip(parts[i])
  {
    seq(|parts|, i requires 0 <= i < |parts| => Strip(parts[i]))
  }

  /** `[s.strip() for s in stato.split(",") if s.strip()]`. */
  function Parts(stato: string): seq<string> {
    Filter(StripAll(Split(stato, ',')), (p: string) => p != "")
  }

  /** The parts are non-empty, stripped, comma-free pieces of the input, in order. */
  lemma PartsSpec(stato: string)
    ensures forall i :: 0 <= i < |Parts(stato)| ==>
      Parts(stato)[i] != "" && Trimmed(Parts(stato)[i]) && ',' !in Parts(stato)[i]
  {
    var split := Split(stato, ',');
    forall i | 0 <= i < |Parts(stato)|
      ensures Trimmed(Parts(stato)[i]) && ',' !in Parts(stato)[i]
    {
      var p := Parts(stato)[i];
      assert p in StripAll(split);
      var k :| 0 <= k < |split| && StripAll(split)[k] == p;
      StripInside(split[k], ',');
    }
  }

  /** A character the strip leaves was in the string. */
  lemma StripInside(s: string, c: char)
    requires c !in s
    ensures c !in Strip(s)
  {
    var n := LeadingSpaces(s);
    assert Strip(s) == s[n..n + |Strip(s)|];
  }

  /** `[StatoSegnalazione(p).value for p in parts]`: the states, or the first part that is not one. */
  function States(parts: seq<string>): (r: Result<seq<Stato>, string>)
    ensures r.Ok? <==> forall i :: 0 <= i < |parts| ==> StatoOf(parts[i]).Some?
    ensures r.Ok? ==> |r.value| == |parts| && forall i :: 0 <= i < |parts| ==> StatoValue(r.value[i]) == parts[i]
    ensures r.Err? ==> exists i :: 0 <= i < |parts| && r.error == parts[i] && StatoOf(parts[i]).None? &&
                                   forall j :: 0 <= j < i ==> StatoOf(parts[j]).Some?
    decreases |parts|
  {
    if parts == [] then Ok([])
    else
      match StatoOf(parts[0])
      case None => Err(parts[0])
      case Some(s) =>
        match States(parts[1..])
        case Err(p) =>
          assert forall i :: 1 <= i < |parts| ==> parts[i] == parts[1..][i - 1];
          Err(p)
        case Ok(ss) =>
          assert forall i :: 1 <= i < |parts| ==> parts[i] == parts[1..][i - 1];
          Ok([s] + ss)
  }

  // ---------------------------------------------------------------- repr

  /** The quote `repr` puts around a string: `"` only when the text holds `'` and no `"`. */
  function QuoteFor(s: string): (q: char)
    ensures q == '"' <==> '\'' in s && '"' !in s
    ensures q == '"' || q == '\''
  {
    if '\'' in s && '"' !in s then '"' else '\''
  }

  /** A lower-case hexadecimal digit. */
  function HexDigit(d: nat): (c: char)
    requires d < 16
  {
    if d < 10 then DigitChar(d) else ('a' as int + d - 10) as char
  }

  predicate IsHex(c: char) {
    '0' <= c <= '9' || 'a' <= c <= 'f'
  }

  function HexValue(c: char): (d: nat)
    requires IsHex(c)
    ensures d < 16
  {
    if '0' <= c <= '9' then c as int - '0' as int else c as int - 'a' as int + 10
  }

  /** Reading back a digit gives its value. */
  lemma HexRoundTrip(d: nat)
    requires d < 16
    ensures IsHex(HexDigit(d)) && HexValue(HexDigit(d)) == d
  {
  }

  /**
   * Characters `repr` writes as a `\x` escape: the C0 controls other than tab,
   * newline and carriage return, DEL, the C1 controls, no-break space and soft hyphen.
   */
  predicate HexEscaped(c: char) {
    (c < ' ' && c != '\t' && c != '\n' && c != '\r') || 0x7f <= c as int <= 0xa0 || c as int == 0xad
  }

  /** One character inside a `repr` quoted with `q`. */
  function ReprChar(c: char, q: char): (r: string)
    ensures r != []
  {
    if c == q || c == '\\' then ['\\', c]
    else if c == '\t' then "\\t"
    else if c == '\n' then "\\n"
    else if c == '\r' then "\\r"
    else if HexEscaped(c) then ['\\', 'x', HexDigit(c as int / 16), HexDigit(c as int % 16)]
    else [c]
  }

  /** The characters between the quotes of a `repr`. */
  function ReprBody(s: string, q: char): string {
    if s == [] then [] else ReprChar(s[0], q) + ReprBody(s[1..], q)
  }

  /** The escapes of a Python string literal, read back (what `ast.literal_eval` does between the quotes). */
  function ReprUnescape(t: string): string {
    if t == [] then []
    else if t[0] == '\\' && |t| >= 2 then
      if t[1] == 't' then ['\t'] + ReprUnescape(t[2..])
      else if t[1] == 'n' then ['\n'] + ReprUnescape(t[2..])
      else if t[1] == 'r' then ['\r'] + ReprUnescape(t[2..])
      else if t[1] == 'x' && |t| >= 4 && IsHex(t[2]) && IsHex(t[3]) then
        [(HexValue(t[2]) * 16 + HexValue(t[3])) as char] + ReprUnescape(t[4..])
      else [t[1]] + ReprUnescape(t[2..])
    else [t[0]] + ReprUnescape(t[1..])
  }

  /** Python's `repr` of a string: quoted, with backslashes, the quote and control characters escaped. */
  function PyRepr(s: string): (r: string)
    ensures |r| >= 2 && r[0] == QuoteFor(s) && r[|r| - 1] == QuoteFor(s)
    ensures ReprUnescape(r[1..|r| - 1]) == s
  {
    var q := QuoteFor(s);
    var r := [q] + ReprBody(s, q) + [q];
    ReprBodyUnescape(s, q);
    assert r[1..|r| - 1] == ReprBody(s, q);
    r
  }

  /** Unescaping one escaped character gives that character back. */
  lemma ReprCharUnescape(c: char, q: char, rest: string)
    requires q == '"' || q == '\''
    ensures ReprUnescape(ReprChar(c, q) + rest) == [c] + ReprUnescape(rest)
  {
    var t := ReprChar(c, q) + rest;
    if c == q || c == '\\' {
      assert t[2..] == rest;
    } else if c == '\t' || c == '\n' || c == '\r' {
      assert t[2..] == rest;
    } else if HexEscaped(c) {
      HexRoundTrip(c as int / 16);
      HexRoundTrip(c as int % 16);
      assert t[4..] == rest;
    } else {
      assert t[1..] == rest;
    }
  }

  /** Unescaping the body of a `repr` gives the string back. */
  lemma {:induction false} ReprBodyUnescape(s: string, q: char)
    requires q == '"' || q == '\''
    ensures ReprUnescape(ReprBody(s, q)) == s
  {
    if s != [] {
      ReprCharUnescape(s[0], q, ReprBody(s[1..], q));
      ReprBodyUnescape(s[1..], q);
      assert s == [s[0]] + s[1..];
    }
  }

  /** Text with no `'`, no backslash and no escaped character is shown between single quotes as it is. */
  lemma PlainRepr(s: string)
    requires forall i :: 0 <= i < |s| ==>
                         s[i] != '\'' && s[i] != '\\' && ' ' <= s[i] && !HexEscaped(s[i])
    ensures PyRepr(s) == "'" + s + "'"
  {
    PlainBody(s, '\'');
  }

  lemma {:induction false} PlainBody(s: string, q: char)
    requires forall i :: 0 <= i < |s| ==>
                         s[i] != q && s[i] != '\\' && ' ' <= s[i] && !HexEscaped(s[i])
    ensures ReprBody(s, q) == s
  {
    if s != [] {
      PlainBody(s[1..], q);
      assert s == [s[0]] + s[1..];
    }
  }

  /** A part holding a single quote (and no double quote) is shown between double quotes, unescaped. */
  lemma SingleQuoteRepr()
    ensures PyRepr("it's") == "\"it's\""
  {
    var s := "it's";
    assert QuoteFor(s) == '"' by {
      assert s[2] == '\'';
    }
    PlainChar('i', '"');
    PlainChar('t', '"');
    PlainChar('\'', '"');
    PlainChar('s', '"');
    assert s[1..] == "t's" && s[2..] == "'s" && s[3..] == "s" && s[4..] == [];
  }

  lemma PlainChar(c: char, q: char)
    requires c != q && c != '\\' && ' ' <= c && !HexEscaped(c)
    ensures ReprChar(c, q) == [c]
  {
  }

  /** A backslash is doubled. */
  lemma BackslashRepr()
    ensures PyRepr("a\\b") == "'a\\\\b'"
  {
    var s := "a\\b";
    assert QuoteFor(s) == '\'';
    assert s[1..] == "\\b" && s[2..] == "b";
    assert ReprBody("b", '\'') == "b" by {
      assert "b"[1..] == [];
    }
    assert ReprBody("\\b", '\'') == "\\\\b";
    assert ReprBody(s, '\'') == "a\\\\b";
  }

  /**
   * The state list of the query: the parts when each is a state value, else
   * 400 naming the first part that is not.
   */
  function ParseStati(stato: string): (r: Result<seq<string>, HttpException>)
    ensures r.Ok? <==> forall i :: 0 <= i < |Parts(stato)| ==> StatoOf(Parts(stato)[i]).Some?
    ensures r.Ok? ==> r.value == Parts(stato)
    ensures r.Err? ==> r.error.status == 400
    ensures r.Err? ==> exists i :: 0 <= i < |Parts(stato)| && StatoOf(Parts(stato)[i]).None? &&
                                   r.error.detail == PyRepr(Parts(stato)[i]) + " is not a valid StatoSegnalazione" &&
                                   forall j :: 0 <= j < i ==> StatoOf(Parts(stato)[j]).Some?
  {
    match States(Parts(stato))
    case Err(p) => Err(HttpException(400, PyRepr(p) + " is not a valid StatoSegnalazione"))
    case Ok(ss) =>
      assert Values(ss) == Parts(stato);
      Ok(Values(ss))
  }

  /** `.value` of each state. */
  function Values(ss: seq<Stato>): (r: seq<string>)
    ensures |r| == |ss| && forall i :: 0 <= i < |ss| ==> r[i] == StatoValue(ss[i])
  {
    seq(|ss|, i requires 0 <= i < |ss| => StatoValue(ss[i]))
  }

  /** A character of a part is a character of the joined string. */
  lemma {:induction false} JoinContains(parts: seq<string>, sep: char, k: nat, c: char)
    requires k < |parts| && c in parts[k]
    ensures c in Join(parts, sep)
    decreases |parts|
  {
    if |parts| > 1 {
      if k == 0 {
        assert Join(parts, sep) == parts[0] + ([sep] + Join(parts[1..], sep));
      } else {
        JoinContains(parts[1..], sep, k - 1, c);
        assert Join(parts, sep) == (parts[0] + [sep]) + Join(parts[1..], sep);
      }
    }
  }

  /** A query made only of commas and blanks selects no state, and is accepted. */
  lemma BlankQuery(stato: string)
    requires forall i :: 0 <= i < |stato| ==> stato[i] == ',' || IsSpace(stato[i])
    ensures ParseStati(stato) == Ok([])
  {
    var stripped := StripAll(Split(stato, ','));
    forall k | 0 <= k < |stripped|
      ensures !(stripped[k] != "")
    {
      BlankPart(stato, k);
    }
    FilterNone(stripped, (p: string) => p != "");
    assert Parts(stato) == [];
    assert States([]) == Ok([]);
  }

  /** Each comma-separated piece of such a query is blank. */
  lemma BlankPart(stato: string, k: nat)
    requires forall i :: 0 <= i < |stato| ==> stato[i] == ',' || IsSpace(stato[i])
    requires k < |Split(stato, ',')|
    ensures Strip(Split(stato, ',')[k]) == ""
  {
    var split := Split(stato, ',');
    var part := split[k];
    forall i | 0 <= i < |part|
      ensures IsSpace(part[i])
    {
      JoinContains(split, ',', k, part[i]);
      assert part[i] in stato;
      assert part[i] != ',';
    }
    assert AllSpace(part);
  }

  /** The comma-joined values of some states split back into those values. */
  lemma JoinedParts(states: seq<Stato>)
    ensures Parts(Join(Values(states), ',')) == Values(states)
  {
    var values := Values(states);
    if states == [] {
      assert Split("", ',') == [""];
      FilterNone([""], (p: string) => p != "");
    } else {
      forall k | 0 <= k < |values|
        ensures ',' !in values[k] && Trimmed(values[k]) && values[k] != ""
      {
        ValueShape(states[k]);
      }
      SplitJoin(values, ',');
      assert StripAll(values) == values;
      FilterKeepsAll(values, (p: string) => p != "");
    }
  }

  /** A state value is a non-empty, stripped word list without commas. */
  lemma ValueShape(s: Stato)
    ensures StatoValue(s) != "" && Trimmed(StatoValue(s)) && ',' !in StatoValue(s)
  {
    match s
    case Aperta =>
    case InLavorazione =>
    case Chiusa =>
  }

  /** The comma-joined values of some states parse back to those values. */
  lemma JoinedStates(states: seq<Stato>)
    ensures ParseStati(Join(Values(states), ',')) == Ok(Values(states))
  {
    JoinedParts(states);
    forall i | 0 <= i < |states|
      ensures StatoOf(Values(states)[i]).Some?
    {
      StatoRoundTrip(states[i]);
    }
  }
}
