/**
 * The spreadsheet importer: cell normalisation, e-mail scrubbing, user
 * resolution by name, and the column and row validation that turns a sheet
 * into shift payloads or stops at the first bad row.
 *
 * A sheet is its set of column names and its rows; a row maps a column name to
 * the cell under it, `None` being an empty cell. Spreadsheet values are text,
 * integers, times of day, dates, or pandas' NaN.
 */
module ExcelImport {
  import opened Wrappers
  import opened Text
  import opened Dates
  import opened TurnoSchema

  // ---------------------------------------------------------------- cells

  /**
   * A whole number held as a float, small enough that `str` shows it in
   * positional notation (`str(5.0) == "5.0"`; from 1e16 on Python switches
   * to an exponent).
   */
  type WholeFloat = n: int | -10_000_000_000_000_000 < n < 10_000_000_000_000_000

  /**
   * pandas gives a numeric column with a blank cell the float dtype, so its
   * whole numbers arrive as `Float`; a column of booleans gives `Bool`.
   */
  datatype Cell =
    | NaN
    | Str(s: string)
    | Num(n: int)
    | Float(whole: WholeFloat)
    | Bool(b: bool)
    | TimeCell(t: Time)
    | DayCell(d: Day)

  type Row = map<string, Option<Cell>>

  datatype Sheet = Sheet(columns: set<string>, rows: seq<Row>)

  /** `row.get(col)`: the cell, or `None` when the row has no such column. */
  function Get(row: Row, col: string): Option<Cell> {
    if col in row then row[col] else None
  }

  /** `pd.isna`: `None` or NaN. */
  predicate IsNa(v: Option<Cell>) {
    v.None? || v.value.NaN?
  }

  /** Python truthiness of a cell value: NaN, times and dates are true, `""`, `0`, `0.0` and `False` are false. */
  predicate Truthy(v: Option<Cell>) {
    match v
    case None => false
    case Some(c) =>
      match c
      case Str(s) => s != ""
      case Num(n) => n != 0
      case Float(n) => n != 0
      case Bool(b) => b
      case _ => true
  }

  function IntToString(n: int): string {
    if n < 0 then "-" + NatToString(-n) else NatToString(n)
  }

  /** `str(cell)`. */
  function Show(c: Cell): string {
    match c
    case NaN => "nan"
    case Str(s) => s
    case Num(n) => IntToString(n)
    case Float(n) => IntToString(n) + ".0"
    case Bool(b) => if b then "True" else "False"
    case TimeCell(t) => HourMinuteSecond(t)
    case DayCell(d) => IsoDate(d) + " 00:00:00"
  }

  /** `_clean`: NaN and empty become `None`; text is stripped, and blank or any casing of "nan" becomes `None`. */
  function Clean(v: Option<Cell>): (r: Option<Cell>)
    ensures IsNa(v) ==> r.None?
    ensures r.Some? ==> !r.value.NaN?
    ensures r.Some? && r.value.Str? ==> Trimmed(r.value.s) && r.value.s != "" && Lower(r.value.s) != "nan"
    ensures v.Some? && v.value.Str? && r.Some? ==> r.value.Str? && r.value.s == Strip(v.value.s)
    ensures v.Some? && !v.value.NaN? && !v.value.Str? ==> r == v
  {
    match v
    case None => None
    case Some(c) =>
      match c
      case NaN => None
      case Str(s) =>
        var t := Strip(s);
        if t == "" || Lower(t) == "nan" then None else Some(Str(t))
      case _ => v
  }

  /** Cleaning twice is cleaning once. */
  lemma CleanIdempotent(v: Option<Cell>)
    ensures Clean(Clean(v)) == Clean(v)
  {
    if v.Some? && v.value.Str? && Clean(v).Some? {
      StripIdempotent(v.value.s);
    }
  }

  /** A text cell is kept, stripped, exactly when it is neither blank nor a spelling of "nan". */
  lemma CleanText(s: string)
    ensures Clean(Some(Str(s))).Some? <==> Strip(s) != "" && Lower(Strip(s)) != "nan"
    ensures Clean(Some(Str(s))).Some? ==> Clean(Some(Str(s))) == Some(Str(Strip(s)))
  {
  }

  /** `_not_nan`: neither `None` nor NaN. */
  predicate NotNan(v: Option<Cell>)
    ensures NotNan(v) <==> !IsNa(v)
  {
    if v.None? then false else !v.value.NaN?
  }

  // ---------------------------------------------------------------- e-mails

  /** Length of the run of non-whitespace characters that starts `s`. */
  function RunLength(s: string): (n: nat)
    ensures n <= |s|
    ensures forall i :: 0 <= i < n ==> !IsSpace(s[i])
    ensures n < |s| ==> IsSpace(s[n])
  {
    if s == [] || IsSpace(s[0]) then 0 else 1 + RunLength(s[1..])
  }

  /** A token the pattern `\S+@\S+` matches: an `@` with a character of the token on each side. */
  predicate IsEmailToken(t: string) {
    |t| >= 3 && '@' in t[1..|t| - 1]
  }

  /** No `@` has a non-whitespace character on both sides: nothing left for `\S+@\S+` to match. */
  predicate NoEmail(s: string) {
    forall q :: 1 <= q < |s| - 1 && s[q] == '@' ==> IsSpace(s[q - 1]) || IsSpace(s[q + 1])
  }

  /** The maximal runs of non-whitespace characters, in order. */
  function Tokens(s: string): seq<string>
    decreases |s|
  {
    if s == [] then []
    else if IsSpace(s[0]) then Tokens(s[1..])
    else
      var n := RunLength(s);
      [s[..n]] + Tokens(s[n..])
  }

  /** The tokens that are not e-mail addresses, in order. */
  function KeptTokens(ts: seq<string>): (r: seq<string>)
    ensures forall k :: 0 <= k < |r| ==> !IsEmailToken(r[k])
  {
    if ts == [] then []
    else (if IsEmailToken(ts[0]) then [] else [ts[0]]) + KeptTokens(ts[1..])
  }

  /**
   * `EMAIL_RE.sub("", s)`: every token holding an `@` between two of its own
   * characters is deleted whole; whitespace and the other tokens stay.
   */
  function Scrub(s: string): (r: string)
    ensures s != [] && IsSpace(s[0]) ==> r != [] && r[0] == s[0]
    decreases |s|
  {
    if s == [] then []
    else if IsSpace(s[0]) then [s[0]] + Scrub(s[1..])
    else
      var n := RunLength(s);
      (if IsEmailToken(s[..n]) then [] else s[..n]) + Scrub(s[n..])
  }

  /** What the substitution leaves has nothing more for the pattern to match. */
  lemma {:induction false} ScrubNoEmail(s: string)
    ensures NoEmail(Scrub(s))
    decreases |s|
  {
    if s == [] {
    } else if IsSpace(s[0]) {
      ScrubNoEmail(s[1..]);
      var rest := Scrub(s[1..]);
      var r := [s[0]] + rest;
      forall q | 1 <= q < |r| - 1 && r[q] == '@'
        ensures IsSpace(r[q - 1]) || IsSpace(r[q + 1])
      {
        assert r[q] == rest[q - 1] && r[q + 1] == rest[q];
        if q > 1 { assert r[q - 1] == rest[q - 2]; }
      }
    } else {
      var n := RunLength(s);
      var t := s[..n];
      ScrubNoEmail(s[n..]);
      if !IsEmailToken(t) {
        NoEmailAfterToken(t, Scrub(s[n..]));
      }
    }
  }

  /** A kept token followed by whitespace (or nothing) and a match-free rest is match-free. */
  lemma NoEmailAfterToken(t: string, rest: string)
    requires t != [] && forall i :: 0 <= i < |t| ==> !IsSpace(t[i])
    requires !IsEmailToken(t)
    requires rest == [] || IsSpace(rest[0])
    requires NoEmail(rest)
    ensures NoEmail(t + rest)
  {
    var r := t + rest;
    var n := |t|;
    forall q | 1 <= q < |r| - 1 && r[q] == '@'
      ensures IsSpace(r[q - 1]) || IsSpace(r[q + 1])
    {
      if q < n - 1 {
        assert false;
      } else if q == n - 1 {
        assert r[q + 1] == rest[0];
      } else if q > n {
        assert r[q] == rest[q - n] && r[q - 1] == rest[q - n - 1] && r[q + 1] == rest[q - n + 1];
      }
    }
  }

  /** Text without `@` is left as it is. */
  lemma {:induction false} ScrubPlain(s: string)
    requires forall i :: 0 <= i < |s| ==> s[i] != '@'
    ensures Scrub(s) == s
    decreases |s|
  {
    if s != [] {
      var n := if IsSpace(s[0]) then 1 else RunLength(s);
      NoAtSuffix(s, n);
      ScrubPlain(s[n..]);
      if !IsSpace(s[0]) {
        PlainToken(s, n);
      }
      ScrubStep(s, n);
      assert s == s[..n] + s[n..];
    }
  }

  /** The part after a cut of text without `@` has no `@` either. */
  lemma NoAtSuffix(s: string, n: nat)
    requires n <= |s| && forall i :: 0 <= i < |s| ==> s[i] != '@'
    ensures forall i :: 0 <= i < |s[n..]| ==> s[n..][i] != '@'
  {
    assert forall i :: 0 <= i < |s[n..]| ==> s[n..][i] == s[n + i];
  }

  /** One step of the substitution over a kept piece: a whitespace character or a token that is not an address. */
  lemma ScrubStep(s: string, n: nat)
    requires s != []
    requires IsSpace(s[0]) ==> n == 1
    requires !IsSpace(s[0]) ==> n == RunLength(s) && !IsEmailToken(s[..n])
    ensures n <= |s| && Scrub(s) == s[..n] + Scrub(s[n..])
  {
    if IsSpace(s[0]) {
      assert s[..1] == [s[0]];
    }
  }

  /** A token cut from text without `@` is not an address. */
  lemma PlainToken(s: string, n: nat)
    requires n <= |s| && forall i :: 0 <= i < |s| ==> s[i] != '@'
    ensures !IsEmailToken(s[..n])
  {
    var t := s[..n];
    if |t| >= 3 {
      var m := t[1..|t| - 1];
      assert forall i :: 0 <= i < |m| ==> m[i] == s[i + 1];
    }
  }

  lemma NoEmailInfix(s: string, a: nat, b: nat)
    requires a <= b <= |s| && NoEmail(s)
    ensures NoEmail(s[a..b])
  {
    var m := s[a..b];
    forall q | 1 <= q < |m| - 1 && m[q] == '@'
      ensures IsSpace(m[q - 1]) || IsSpace(m[q + 1])
    {
      assert m[q] == s[a + q] && m[q - 1] == s[a + q - 1] && m[q + 1] == s[a + q + 1];
    }
  }

  /** `_strip_emails`: empty text gives `""`; otherwise the scrubbed text, stripped. */
  function StripEmails(text: string): (r: string)
    ensures text == "" ==> r == ""
    ensures Trimmed(r) && NoEmail(r)
    ensures '@' !in text ==> r == Strip(text)
  {
    if text == "" then ""
    else
      var x := Scrub(text);
      ScrubNoEmail(text);
      NoEmailInfix(x, LeadingSpaces(x), LeadingSpaces(x) + |Strip(x)|);
      if '@' !in text then ScrubPlain(text); Strip(x) else Strip(x)
  }

  /** A run of non-whitespace followed by whitespace or nothing is exactly what `RunLength` measures. */
  lemma {:induction false} RunLengthOf(t: string, y: string)
    requires forall i :: 0 <= i < |t| ==> !IsSpace(t[i])
    requires y == [] || IsSpace(y[0])
    ensures RunLength(t + y) == |t|
    decreases |t|
  {
    if t == [] {
      assert t + y == y;
    } else {
      assert (t + y)[0] == t[0] && (t + y)[1..] == t[1..] + y;
      RunLengthOf(t[1..], y);
    }
  }

  /** A non-empty run followed by whitespace or nothing is the first token. */
  lemma {:induction false} TokensCons(t: string, y: string)
    requires t != [] && forall i :: 0 <= i < |t| ==> !IsSpace(t[i])
    requires y == [] || IsSpace(y[0])
    ensures Tokens(t + y) == [t] + Tokens(y)
  {
    var z := t + y;
    RunLengthOf(t, y);
    assert z[0] == t[0];
    assert z[..|t|] == t && z[|t|..] == y;
  }

  /** Scrubbing deletes exactly the e-mail tokens and keeps every other token in order. */
  lemma {:induction false} ScrubTokens(s: string)
    ensures Tokens(Scrub(s)) == KeptTokens(Tokens(s))
    decreases |s|
  {
    if s == [] {
    } else if IsSpace(s[0]) {
      ScrubTokens(s[1..]);
      assert ([s[0]] + Scrub(s[1..]))[1..] == Scrub(s[1..]);
    } else {
      var n := RunLength(s);
      var t := s[..n];
      ScrubTokens(s[n..]);
      assert KeptTokens([t] + Tokens(s[n..])) == (if IsEmailToken(t) then [] else [t]) + KeptTokens(Tokens(s[n..])) by {
        assert ([t] + Tokens(s[n..]))[1..] == Tokens(s[n..]);
      }
      assert Tokens(s) == [t] + Tokens(s[n..]);
      assert Scrub(s) == (if IsEmailToken(t) then [] else t) + Scrub(s[n..]);
      if !IsEmailToken(t) {
        TokensCons(t, Scrub(s[n..]));
      } else {
        assert Scrub(s) == Scrub(s[n..]);
        assert KeptTokens(Tokens(s)) == KeptTokens(Tokens(s[n..]));
      }
    }
  }

  /** Leading whitespace adds no token. */
  lemma {:induction false} TokensAfterSpaces(w: string, x: string)
    requires AllSpace(w)
    ensures Tokens(w + x) == Tokens(x)
    decreases |w|
  {
    if w != [] {
      var z := w + x;
      assert IsSpace(w[0]) && z[0] == w[0] && z[1..] == w[1..] + x;
      assert Tokens(z) == Tokens(z[1..]);
      TokensAfterSpaces(w[1..], x);
    } else {
      assert w + x == x;
    }
  }

  /** Trailing whitespace adds no token. */
  lemma {:induction false} TokensBeforeSpaces(x: string, w: string)
    requires AllSpace(w)
    ensures Tokens(x + w) == Tokens(x)
    decreases |x|
  {
    if x == [] {
      assert x + w == w + [];
      TokensAfterSpaces(w, []);
    } else if IsSpace(x[0]) {
      assert (x + w)[1..] == x[1..] + w;
      TokensBeforeSpaces(x[1..], w);
    } else {
      var n := RunLength(x);
      var z := x + w;
      var m := RunLength(z);
      if n < |x| {
        assert z == x[..n] + (x[n..] + w);
        RunLengthOf(x[..n], x[n..] + w);
        assert z[..m] == x[..n] && z[m..] == x[n..] + w;
        TokensBeforeSpaces(x[n..], w);
      } else {
        RunLengthOf(x, w);
        assert z[..m] == x && z[m..] == w && x[..n] == x && x[n..] == [];
        TokensAfterSpaces(w, []);
        assert w + [] == w;
        assert Tokens(w) == [];
        assert Tokens(z) == [x] + Tokens(w);
        assert Tokens(x) == [x] + Tokens([]);
      }
    }
  }

  /** Stripping adds or removes no token. */
  lemma StripTokens(s: string)
    ensures Tokens(Strip(s)) == Tokens(s)
  {
    var a := LeadingSpaces(s);
    var r := Strip(s);
    var tail := s[a + |r|..];
    assert s[a..] == r + tail;
    assert s == s[..a] + (r + tail);
    TokensAfterSpaces(s[..a], r + tail);
    TokensBeforeSpaces(r, s[a + |r|..]);
  }

  /** The words of the scrubbed note are the words of the note that are not e-mail addresses. */
  lemma StripEmailsTokens(text: string)
    ensures Tokens(StripEmails(text)) == KeptTokens(Tokens(text))
  {
    if text != "" {
      ScrubTokens(text);
      StripTokens(Scrub(text));
    }
  }

  // ---------------------------------------------------------------- users

  /** A user row as the importer queries it. */
  datatype DbUser = DbUser(id: string, nome: Option<string>)

  /** `func.lower(User.nome) == name.lower()`; a user without a name never matches. */
  predicate NameMatches(u: DbUser, name: string) {
    u.nome.Some? && Lower(u.nome.value) == Lower(name)
  }

  /** Index of the first user whose name matches, or `|users|`. */
  function FindByName(users: seq<DbUser>, name: string): (i: nat)
    ensures i <= |users|
    ensures i < |users| ==> NameMatches(users[i], name)
    ensures forall j :: 0 <= j < i ==> !NameMatches(users[j], name)
  {
    if users == [] then 0
    else if NameMatches(users[0], name) then 0
    else 1 + FindByName(users[1..], name)
  }

  /**
   * `get_user_id`: the id of the first user whose name equals the stripped
   * text case-insensitively; no session, or no such user, raises `ValueError`.
   */
  function GetUserId(db: Option<seq<DbUser>>, agente: string): (r: Result<string, string>)
    ensures db.None? ==> r == Err("A database session is required to resolve users")
    ensures db.Some? ==> (r.Ok? <==> exists k :: 0 <= k < |db.value| && NameMatches(db.value[k], Strip(agente)))
    ensures db.Some? && r.Err? ==> r.error == "Unknown user: " + agente
    ensures r.Ok? ==>
      exists k :: 0 <= k < |db.value| && db.value[k].id == r.value &&
        NameMatches(db.value[k], Strip(agente)) &&
        (forall j :: 0 <= j < k ==> !NameMatches(db.value[j], Strip(agente)))
  {
    if db.None? then Err("A database session is required to resolve users")
    else
      var k := FindByName(db.value, Strip(agente));
      if k == |db.value| then Err("Unknown user: " + agente) else Ok(db.value[k].id)
  }

  /** Surrounding whitespace and letter case do not matter when resolving a name. */
  lemma GetUserIdNormalises(users: seq<DbUser>, a: string, b: string)
    requires Lower(Strip(a)) == Lower(Strip(b))
    ensures GetUserId(Some(users), a).Ok? == GetUserId(Some(users), b).Ok?
    ensures GetUserId(Some(users), a).Ok? ==> GetUserId(Some(users), a) == GetUserId(Some(users), b)
  {
    var sa, sb := Strip(a), Strip(b);
    assert forall u :: NameMatches(u, sa) <==> NameMatches(u, sb);
    FindByNameSame(users, sa, sb);
    var k := FindByName(users, sa);
    assert GetUserId(Some(users), a) == if k == |users| then Err("Unknown user: " + a) else Ok(users[k].id);
    assert GetUserId(Some(users), b) == if k == |users| then Err("Unknown user: " + b) else Ok(users[k].id);
  }

  lemma {:induction false} FindByNameSame(users: seq<DbUser>, a: string, b: string)
    requires forall u :: NameMatches(u, a) <==> NameMatches(u, b)
    ensures FindByName(users, a) == FindByName(users, b)
  {
    if users != [] && !NameMatches(users[0], a) {
      FindByNameSame(users[1..], a, b);
    }
  }

  // ---------------------------------------------------------------- parsing

  /** One payload, ready for `TurnoIn`: cells as read, `None` where a key is absent. */
  datatype ImportRow = ImportRow(
    userId: string,
    giorno: Option<Cell>,
    inizio1: Option<Cell>, fine1: Option<Cell>,
    inizio2: Option<Cell>, fine2: Option<Cell>,
    inizio3: Option<Cell>, fine3: Option<Cell>,
    tipo: string,
    note: Cell)

  /** What made a row invalid. */
  datatype RowProblem =
    | MissingUserIdentifier
    | UnknownUserId(id: string)
    | SessionRequired
    | UserLookup(message: string)
    | InvalidTipo(raw: string)
    | MissingInterval1

  datatype ImportError =
    | NoUserColumn                              // 400: neither "User ID" nor "Agente"
    | MissingColumns(missing: set<string>)      // 400: required columns absent
    | RowFailure(rowNum: nat, problem: RowProblem)  // 400: "Row n: ..."
    | Crash                                     // a non-HTTP exception (a non-text Agente or Tipo)

  /** The text after `Row n: ` in the 400 detail. */
  function Detail(p: RowProblem): string {
    match p
    case MissingUserIdentifier => "Missing user identifier"
    case UnknownUserId(id) => "Unknown user ID: " + id
    case SessionRequired => "Database session required to resolve 'Agente'"
    case UserLookup(message) => message
    case InvalidTipo(raw) => "Invalid 'Tipo' value: " + raw
    case MissingInterval1 => "Missing 'Inizio1' or 'Fine1'"
  }

  /** The 400 detail of a row failure: it names the spreadsheet row. */
  function RowMessage(rowNum: nat, p: RowProblem): (m: string)
    ensures StartsWith(m, "Row ")
    ensures exists k ::
              4 < k <= |m| - 2 && AllDigits(m[4..k]) && ParseNat(m[4..k]) == rowNum &&
              m[k..k + 2] == ": " && m[k + 2..] == Detail(p)
  {
    ParseNatToString(rowNum);
    NumberedMessage(NatToString(rowNum), rowNum, Detail(p));
    "Row " + NatToString(rowNum) + ": " + Detail(p)
  }

  /**
   * The HTTP answer of an import error: a 400 with the detail the import
   * raises, or none for a crash, which escapes as a server error. `shown`
   * prints a set of column names, in Python's hash order.
   */
  function HttpError(e: ImportError, shown: set<string> -> string): (r: Option<HttpException>)
    ensures r.None? <==> e.Crash?
    ensures r.Some? ==> r.value.status == 400
    ensures e.RowFailure? ==> r.value.detail == RowMessage(e.rowNum, e.problem)
    ensures e.MissingColumns? ==> r.value.detail == "Missing columns: " + shown(e.missing)
  {
    match e
    case NoUserColumn => Some(HttpException(400, "Missing columns: {'User ID' or 'Agente'}"))
    case MissingColumns(missing) => Some(HttpException(400, "Missing columns: " + shown(missing)))
    case RowFailure(rowNum, problem) => Some(HttpException(400, RowMessage(rowNum, problem)))
    case Crash => None
  }

  /** The digits of a numbered message lie between "Row " and ": ". */
  lemma NumberedMessage(digits: string, n: nat, detail: string)
    requires |digits| >= 1 && AllDigits(digits) && ParseNat(digits) == n
    ensures var m := "Row " + digits + ": " + detail;
      exists k ::
        4 < k <= |m| - 2 && AllDigits(m[4..k]) && ParseNat(m[4..k]) == n &&
        m[k..k + 2] == ": " && m[k + 2..] == detail
  {
    var m := "Row " + digits + ": " + detail;
    var k := 4 + |digits|;
    assert m[4..k] == digits;
    assert m[k..k + 2] == ": ";
    assert m[k + 2..] == detail;
  }

  /** The "Data" column, when present, is read as "Giorno". */
  function Renamed(sheet: Sheet): (r: Sheet)
    ensures "Data" in sheet.columns ==> "Giorno" in r.columns && "Data" !in r.columns
    ensures "Data" !in sheet.columns ==> r == sheet
    ensures |r.rows| == |sheet.rows|
    ensures "Data" in sheet.columns ==> forall k :: 0 <= k < |r.rows| ==> Get(r.rows[k], "Giorno") == Get(sheet.rows[k], "Data")
  {
    if "Data" !in sheet.columns then sheet
    else
      Sheet(sheet.columns - {"Data"} + {"Giorno"},
            seq(|sheet.rows|, k requires 0 <= k < |sheet.rows| =>
              (sheet.rows[k] - {"Data"})["Giorno" := Get(sheet.rows[k], "Data")]))
  }

  const BaseRequired: set<string> := {"Giorno", "Inizio1", "Fine1"}

  /** The column rules: a user column ("User ID" preferred) and Giorno, Inizio1, Fine1. */
  function ColumnCheck(columns: set<string>): (r: Option<ImportError>)
    ensures r.None? <==> BaseRequired <= columns && ("User ID" in columns || "Agente" in columns)
    ensures "User ID" !in columns && "Agente" !in columns ==> r == Some(NoUserColumn)
    ensures ("User ID" in columns || "Agente" in columns) && r.Some? ==> r.value.MissingColumns?
    ensures r.Some? && r.value.MissingColumns? ==>
      r.value.missing == (BaseRequired + {if "User ID" in columns then "User ID" else "Agente"}) - columns
    ensures r.Some? && r.value.MissingColumns? ==> r.value.missing != {} && r.value.missing !! columns
  {
    if "User ID" !in columns && "Agente" !in columns then Some(NoUserColumn)
    else
      var required := BaseRequired + {if "User ID" in columns then "User ID" else "Agente"};
      var missing := required - columns;
      if missing != {} then Some(MissingColumns(missing)) else None
  }

  /** The optional interval read from two columns: set only when both cells are non-empty. */
  function Pair(columns: set<string>, row: Row, startCol: string, endCol: string): (r: (Option<Cell>, Option<Cell>))
    ensures r.0.Some? <==> r.1.Some?
    ensures r.0.Some? ==> r.0 == Clean(Get(row, startCol)) && r.1 == Clean(Get(row, endCol))
  {
    if startCol in columns && Clean(Get(row, startCol)).Some? && Clean(Get(row, endCol)).Some? then
      (Clean(Get(row, startCol)), Clean(Get(row, endCol)))
    else (None, None)
  }

  /** Resolves the row's user: by id (checked when there is a session) or by name through `get_user_id`. */
  function RowUser(columns: set<string>, row: Row, rowNum: nat, db: Option<seq<DbUser>>): (r: Result<string, ImportError>)
    ensures r.Err? ==> r.error == Crash || (r.error.RowFailure? && r.error.rowNum == rowNum)
    ensures var v := Get(row, if "User ID" in columns then "User ID" else "Agente");
      r == Err(RowFailure(rowNum, MissingUserIdentifier)) <==> IsNa(v) || Strip(Show(v.value)) == ""
    ensures var v := Get(row, "User ID");
      "User ID" in columns && !(IsNa(v) || Strip(Show(v.value)) == "") ==>
        (r.Ok? <==> db.None? || exists k :: 0 <= k < |db.value| && db.value[k].id == Show(v.value)) &&
        (r.Ok? ==> r.value == Show(v.value)) &&
        (r.Err? ==> r.error == RowFailure(rowNum, UnknownUserId(Show(v.value))))
    ensures var v := Get(row, "Agente");
      "User ID" !in columns && !(IsNa(v) || Strip(Show(v.value)) == "") ==>
        (db.None? ==> r == Err(RowFailure(rowNum, SessionRequired))) &&
        (db.Some? && !v.value.Str? ==> r == Err(Crash)) &&
        (db.Some? && v.value.Str? ==>
          (r.Ok? <==> GetUserId(db, v.value.s).Ok?) &&
          (r.Ok? ==> r.value == GetUserId(db, v.value.s).value) &&
          (r.Err? ==> r.error == RowFailure(rowNum, UserLookup(GetUserId(db, v.value.s).error))))
  {
    var userCol := if "User ID" in columns then "User ID" else "Agente";
    var value := Get(row, userCol);
    if IsNa(value) || Strip(Show(value.value)) == "" then Err(RowFailure(rowNum, MissingUserIdentifier))
    else if userCol == "User ID" then
      var userId := Show(value.value);
      if db.Some? && forall k :: 0 <= k < |db.value| ==> db.value[k].id != userId then
        Err(RowFailure(rowNum, UnknownUserId(userId)))
      else Ok(userId)
    else if db.None? then Err(RowFailure(rowNum, SessionRequired))
    else if !value.value.Str? then Err(Crash)
    else
      match GetUserId(db, value.value.s)
      case Ok(id) => Ok(id)
      case Err(message) => Err(RowFailure(rowNum, UserLookup(message)))
  }

  /**
   * A `User ID` column with a blank cell is read as floats, so the id 5 is
   * looked up as "5.0" and the user stored as "5" is not found.
   */
  lemma FloatUserIdUnknown(row: Row, rowNum: nat, n: WholeFloat, nome: Option<string>)
    requires Get(row, "User ID") == Some(Float(n))
    ensures RowUser({"User ID"}, row, rowNum, Some([DbUser(IntToString(n), nome)]))
      == Err(RowFailure(rowNum, UnknownUserId(IntToString(n) + ".0")))
  {
    var shown := IntToString(n) + ".0";
    assert !IsSpace(shown[|shown| - 1]);
    assert |IntToString(n)| != |shown|;
  }

  /** The `Tipo` text to validate: the cleaned cell, or "NORMALE" when it is empty; `None` when it is not text. */
  function RawTipo(row: Row): Option<string> {
    var c := Clean(Get(row, "Tipo"));
    if !Truthy(c) then Some("NORMALE")
    else if c.value.Str? then Some(c.value.s)
    else None
  }

  /** The row's type: the stripped, upper-cased text must be a `TipoTurno` value. */
  function RowTipo(row: Row, rowNum: nat): (r: Result<TipoTurno, ImportError>)
    ensures r == Err(Crash) <==> RawTipo(row).None?
    ensures RawTipo(row).Some? ==> (r.Ok? <==> Upper(Strip(RawTipo(row).value)) in Values)
    ensures r.Err? ==> r.error == Crash || (RawTipo(row).Some? && r.error == RowFailure(rowNum, InvalidTipo(RawTipo(row).value)))
    ensures r.Ok? ==> RawTipo(row).Some? && Value(r.value) == Upper(Strip(RawTipo(row).value))
  {
    match RawTipo(row)
    case None => Err(Crash)
    case Some(raw) =>
      match FromValue(Upper(Strip(raw)))
      case None => Err(RowFailure(rowNum, InvalidTipo(raw)))
      case Some(tipo) => Ok(tipo)
  }

  /** A blank or missing `Tipo` is read as NORMALE. */
  lemma BlankTipoIsNormale(row: Row, rowNum: nat)
    requires !Truthy(Clean(Get(row, "Tipo")))
    ensures RowTipo(row, rowNum) == Ok(NORMALE)
  {
    assert RawTipo(row) == Some("NORMALE");
    NormaleNormalised();
  }

  lemma NormaleNormalised()
    ensures FromValue(Upper(Strip("NORMALE"))) == Some(NORMALE)
  {
    ValueRoundTrip(NORMALE);
    UpperStripFixed("NORMALE");
  }

  /** Trimmed text without small letters is left as it is by stripping and upper-casing. */
  lemma UpperStripFixed(v: string)
    requires v != [] && !IsSpace(v[0]) && !IsSpace(v[|v| - 1])
    requires forall i :: 0 <= i < |v| ==> !('a' <= v[i] <= 'z')
    ensures Upper(Strip(v)) == v
  {
    assert Upper(v) == v;
  }

  /** The type is matched after stripping and upper-casing: " ferie " reads as FERIE. */
  lemma TipoCaseInsensitive()
    ensures FromValue(Upper(Strip(" ferie "))) == Some(FERIE)
  {
    FerieStripped();
    FerieUpper();
    ValueRoundTrip(FERIE);
  }

  lemma FerieStripped()
    ensures Strip(" ferie ") == "ferie"
  {
    assert " ferie " == " " + "ferie" + " ";
    StripPadded("ferie");
  }

  lemma FerieUpper()
    ensures Upper("ferie") == Value(FERIE)
  {
    var u := Upper("ferie");
    assert u[0] == 'F' && u[1] == 'E' && u[2] == 'R' && u[3] == 'I' && u[4] == 'E';
  }

  /** One space on each side of a trimmed text is stripped away. */
  lemma StripPadded(v: string)
    requires v != [] && !IsSpace(v[0]) && !IsSpace(v[|v| - 1])
    ensures Strip(" " + v + " ") == v
  {
    var s := " " + v + " ";
    var t := v + " ";
    assert s[1..] == t;
    assert LeadingSpaces(t) == 0;
    assert LeadingSpaces(s) == 1;
    assert t[..|t| - 1] == v;
    assert TrimEnd(t) == TrimEnd(v);
  }

  /** The payload of a valid row. */
  function Payload(columns: set<string>, row: Row, userId: string, tipo: TipoTurno): (r: ImportRow)
    ensures r.userId == userId && r.tipo == Value(tipo) && r.giorno == Get(row, "Giorno")
    ensures r.inizio1 == Clean(Get(row, "Inizio1")) && r.fine1 == Clean(Get(row, "Fine1"))
    ensures (r.inizio2, r.fine2) == Pair(columns, row, "Inizio2", "Fine2")
    ensures r.inizio3.Some? <==> r.fine3.Some?
    ensures Truthy(Clean(Get(row, "Note"))) ==> r.note == Clean(Get(row, "Note")).value
    ensures !Truthy(Clean(Get(row, "Note"))) ==> r.note == Str("")
  {
    var note := Clean(Get(row, "Note"));
    var overtime := Pair(columns, row, "Straordinario inizio", "Straordinario fine");
    var third := if overtime.0.Some? then overtime else Pair(columns, row, "Inizio3", "Fine3");
    ImportRow(userId, Get(row, "Giorno"),
              Clean(Get(row, "Inizio1")), Clean(Get(row, "Fine1")),
              Pair(columns, row, "Inizio2", "Fine2").0, Pair(columns, row, "Inizio2", "Fine2").1,
              third.0, third.1,
              Value(tipo), if Truthy(note) then note.value else Str(""))
  }

  /** The overtime columns take precedence over Inizio3/Fine3 whenever both their cells are filled. */
  lemma OvertimePrecedence(columns: set<string>, row: Row, userId: string, tipo: TipoTurno)
    requires "Straordinario inizio" in columns
    requires Clean(Get(row, "Straordinario inizio")).Some? && Clean(Get(row, "Straordinario fine")).Some?
    ensures Payload(columns, row, userId, tipo).inizio3 == Clean(Get(row, "Straordinario inizio"))
    ensures Payload(columns, row, userId, tipo).fine3 == Clean(Get(row, "Straordinario fine"))
  {
  }

  /** Without filled overtime cells, interval 3 comes from Inizio3/Fine3. */
  lemma ThirdIntervalFallback(columns: set<string>, row: Row, userId: string, tipo: TipoTurno)
    requires Pair(columns, row, "Straordinario inizio", "Straordinario fine").0.None?
    ensures (Payload(columns, row, userId, tipo).inizio3, Payload(columns, row, userId, tipo).fine3)
         == Pair(columns, row, "Inizio3", "Fine3")
  {
  }

  /** The body of the row loop for the row at index `idx` (spreadsheet row `idx + 2`). */
  function ParseRow(columns: set<string>, row: Row, idx: nat, db: Option<seq<DbUser>>): (r: Result<ImportRow, ImportError>)
    ensures r.Err? ==> r.error == Crash || (r.error.RowFailure? && r.error.rowNum == idx + 2)
    ensures RowUser(columns, row, idx + 2, db).Err? ==> r == Err(RowUser(columns, row, idx + 2, db).error)
    ensures RowUser(columns, row, idx + 2, db).Ok? && RowTipo(row, idx + 2).Err? ==> r == Err(RowTipo(row, idx + 2).error)
    ensures r.Ok? ==>
      RowUser(columns, row, idx + 2, db).Ok? && RowTipo(row, idx + 2).Ok? &&
      r.value == Payload(columns, row, RowUser(columns, row, idx + 2, db).value, RowTipo(row, idx + 2).value)
    ensures RowUser(columns, row, idx + 2, db).Ok? && RowTipo(row, idx + 2).Ok? && r.Err? ==>
      r == Err(RowFailure(idx + 2, MissingInterval1)) && !IsDayOff(RowTipo(row, idx + 2).value) &&
      (Clean(Get(row, "Inizio1")).None? || Clean(Get(row, "Fine1")).None?)
  {
    var rowNum := idx + 2;
    match RowUser(columns, row, rowNum, db)
    case Err(e) => Err(e)
    case Ok(userId) =>
      match RowTipo(row, rowNum)
      case Err(e) => Err(e)
      case Ok(tipo) =>
        if (Clean(Get(row, "Inizio1")).None? || Clean(Get(row, "Fine1")).None?) && !IsDayOff(tipo) then
          Err(RowFailure(rowNum, MissingInterval1))
        else Ok(Payload(columns, row, userId, tipo))
  }

  /**
   * A row is accepted exactly when its user resolves, its type is valid and,
   * for a worked type, both cells of the first interval are filled.
   */
  lemma ParseRowAccepts(columns: set<string>, row: Row, idx: nat, db: Option<seq<DbUser>>)
    ensures ParseRow(columns, row, idx, db).Ok? <==>
      RowUser(columns, row, idx + 2, db).Ok? && RowTipo(row, idx + 2).Ok? &&
      (IsDayOff(RowTipo(row, idx + 2).value) || (Clean(Get(row, "Inizio1")).Some? && Clean(Get(row, "Fine1")).Some?))
  {
  }

  /** An accepted row has a valid type, and a worked one has its first interval. */
  lemma ParsedRowValid(columns: set<string>, row: Row, idx: nat, db: Option<seq<DbUser>>)
    requires ParseRow(columns, row, idx, db).Ok?
    ensures var p := ParseRow(columns, row, idx, db).value;
      p.tipo in Values && (DayOffValue(p.tipo) || (p.inizio1.Some? && p.fine1.Some?))
  {
    var userId := RowUser(columns, row, idx + 2, db).value;
    var tipo := RowTipo(row, idx + 2).value;
    assert ParseRow(columns, row, idx, db) == Ok(Payload(columns, row, userId, tipo));
    ValueRoundTrip(tipo);
  }

  /** A missing user cell is reported before anything else in the row. */
  lemma MissingUserFirst(columns: set<string>, row: Row, idx: nat, db: Option<seq<DbUser>>)
    requires IsNa(Get(row, if "User ID" in columns then "User ID" else "Agente"))
    ensures ParseRow(columns, row, idx, db) == Err(RowFailure(idx + 2, MissingUserIdentifier))
  {
  }

  /**
   * `parse_excel` after the sheet is read: the column rules, then one payload
   * per row in order; the first bad row aborts with its error and no payload
   * is returned.
   */
  method ParseExcel(sheet: Sheet, db: Option<seq<DbUser>>) returns (r: Result<seq<ImportRow>, ImportError>)
    ensures var s := Renamed(sheet); ColumnCheck(s.columns).Some? ==> r == Err(ColumnCheck(s.columns).value)
    ensures var s := Renamed(sheet); ColumnCheck(s.columns).None? ==> Accepted(s, db, r)
  {
    var s := Renamed(sheet);
    var check := ColumnCheck(s.columns);
    if check.Some? {
      return Err(check.value);
    }
    r := ParseRows(s, db);
  }

  /**
   * The outcome of the row loop: every payload in order when all rows parse,
   * otherwise the error of the first row that does not.
   */
  predicate Accepted(s: Sheet, db: Option<seq<DbUser>>, r: Result<seq<ImportRow>, ImportError>) {
    (r.Ok? <==> forall k :: 0 <= k < |s.rows| ==> ParseRow(s.columns, s.rows[k], k, db).Ok?) &&
    (r.Ok? ==>
      |r.value| == |s.rows| && forall k :: 0 <= k < |s.rows| ==> ParseRow(s.columns, s.rows[k], k, db) == Ok(r.value[k])) &&
    (r.Err? ==>
      exists k :: 0 <= k < |s.rows| && ParseRow(s.columns, s.rows[k], k, db) == Err(r.error) &&
        forall j :: 0 <= j < k ==> ParseRow(s.columns, s.rows[j], j, db).Ok?)
  }

  /** The row loop of `parse_excel`. */
  method ParseRows(s: Sheet, db: Option<seq<DbUser>>) returns (r: Result<seq<ImportRow>, ImportError>)
    ensures Accepted(s, db, r)
  {
    r := MapUntilError(s.rows, (row, k) => ParseRow(s.columns, row, k, db));
  }

  /** Applies `f` to each element with its index, in order, stopping at the first error. */
  method MapUntilError<X, Y, E>(xs: seq<X>, f: (X, nat) -> Result<Y, E>) returns (r: Result<seq<Y>, E>)
    ensures r.Ok? <==> forall k :: 0 <= k < |xs| ==> f(xs[k], k).Ok?
    ensures r.Ok? ==> |r.value| == |xs| && forall k :: 0 <= k < |xs| ==> f(xs[k], k) == Ok(r.value[k])
    ensures r.Err? ==>
      exists k :: 0 <= k < |xs| && f(xs[k], k) == Err(r.error) &&
        forall j :: 0 <= j < k ==> f(xs[j], j).Ok?
  {
    var ys: seq<Y> := [];
    var idx := 0;
    while idx < |xs|
      invariant 0 <= idx <= |xs| && |ys| == idx
      invariant forall k :: 0 <= k < idx ==> f(xs[k], k) == Ok(ys[k])
    {
      var y := f(xs[idx], idx);
      if y.Err? {
        return Err(y.error);
      }
      ys := ys + [y.value];
      idx := idx + 1;
    }
    return Ok(ys);
  }
}
