/**
 * The aggregation inside the weekly shift report (`df_to_pdf`): the
 * `HH:MM` rendering of time cells, the text of one agent's cell, the
 * Monday-aligned week window, the agent x day grid filled row by row, the
 * three note sources merged per day, and the day lines ordered by their
 * `dd/mm/yyyy` text.
 *
 * The report is kept as structured lines; the HTML and PDF files written from
 * them are outside the model.
 */
module WeeklyReport {
  import opened Wrappers
  import opened Text
  import opened Dates
  import opened TurnoSchema
  import opened Sorting
  import opened ExcelImport

  // ---------------------------------------------------------------- fmt

  /** One `%H`, `%M` or `%S` field of `strptime`: one or two ASCII digits, below `bound`. */
  function ParseField(s: string, bound: nat): (r: Option<nat>)
    ensures r.Some? <==> 1 <= |s| <= 2 && AllDigits(s) && ParseNat(s) < bound
    ensures r.Some? ==> r.value == ParseNat(s) && r.value < bound
  {
    if 1 <= |s| <= 2 && AllDigits(s) && ParseNat(s) < bound then Some(ParseNat(s)) else None
  }

  /**
   * `datetime.strptime(s, "%H:%M:%S")`, and failing that
   * `datetime.strptime(s, "%H:%M")`: the time of day a text cell spells, if any.
   */
  function ParseClock(s: string): Option<Time> {
    var parts := Split(s, ':');
    if |parts| == 3 && ParseField(parts[0], 24).Some? && ParseField(parts[1], 60).Some?
       && ParseField(parts[2], 60).Some? then
      Some(Clock(ParseField(parts[0], 24).value, ParseField(parts[1], 60).value, ParseField(parts[2], 60).value))
    else if |parts| == 2 && ParseField(parts[0], 24).Some? && ParseField(parts[1], 60).Some? then
      Some(Clock(ParseField(parts[0], 24).value, ParseField(parts[1], 60).value, 0))
    else None
  }

  /** A string without `:` splits into itself alone. */
  lemma SplitNone(s: string)
    requires ':' !in s
    ensures Split(s, ':') == [s]
  {
    SplitJoin([s], ':');
  }

  /** `HH:MM` and `HH:MM:SS` read back as the time they show. */
  lemma ParseClockRendered(t: Time)
    ensures ParseClock(HourMinute(t)) == Some(Clock(t.hour, t.minute, 0))
    ensures ParseClock(HourMinuteSecond(t)) == Some(t)
  {
    ParseClockShort(t);
    ParseClockLong(t);
  }

  lemma ParseClockShort(t: Time)
    ensures ParseClock(HourMinute(t)) == Some(Clock(t.hour, t.minute, 0))
  {
    var h, m := Pad2(t.hour), Pad2(t.minute);
    assert HourMinute(t) == Join([h, m], ':') by {
      assert Join([h, m], ':') == h + [':'] + Join([m], ':');
    }
    SplitJoin([h, m], ':');
    assert Split(HourMinute(t), ':') == [h, m];
    assert ParseField(h, 24) == Some(t.hour);
    assert ParseField(m, 60) == Some(t.minute);
  }

  lemma ParseClockLong(t: Time)
    ensures ParseClock(HourMinuteSecond(t)) == Some(t)
  {
    var h, m, s := Pad2(t.hour), Pad2(t.minute), Pad2(t.second);
    assert HourMinuteSecond(t) == Join([h, m, s], ':') by {
      assert [h, m, s][1..] == [m, s];
      assert Join([m, s], ':') == m + [':'] + Join([s], ':');
      assert Join([h, m, s], ':') == h + [':'] + Join([m, s], ':');
    }
    SplitJoin([h, m, s], ':');
    assert Split(HourMinuteSecond(t), ':') == [h, m, s];
    assert ParseField(h, 24) == Some(t.hour);
    assert ParseField(m, 60) == Some(t.minute);
    assert ParseField(s, 60) == Some(t.second);
  }

  /**
   * `fmt`: empty for a missing value or `""`; a time as `HH:MM`; text that
   * parses as a time re-rendered as `HH:MM`, other text unchanged; anything
   * else as `str` renders it.
   */
  function Fmt(v: Option<Cell>): string {
    match v
    case None => ""
    case Some(c) =>
      match c
      case Str(s) =>
        if s == "" then ""
        else if ParseClock(s).Some? then HourMinute(ParseClock(s).value)
        else s
      case TimeCell(t) => HourMinute(t)
      case _ => Show(c)
  }

  /**
   * A time cell, its `HH:MM` text and its `HH:MM:SS` text all render alike,
   * and the seconds never show.
   */
  lemma FmtTime(t: Time)
    ensures Fmt(Some(TimeCell(t))) == HourMinute(t)
    ensures Fmt(Some(Str(HourMinute(t)))) == HourMinute(t)
    ensures Fmt(Some(Str(HourMinuteSecond(t)))) == HourMinute(t)
  {
    ParseClockRendered(t);
    var c := Clock(t.hour, t.minute, 0);
    assert HourMinute(c) == HourMinute(t) by {
      HourMinuteExact(c, t);
    }
  }

  /** Rendering is stable: formatting the text `fmt` produced gives it back. */
  lemma FmtIdempotent(v: Option<Cell>)
    requires v.None? || v.value.Str? || v.value.TimeCell?
    ensures Fmt(Some(Str(Fmt(v)))) == Fmt(v)
  {
    if v.Some? && v.value.TimeCell? {
      FmtTime(v.value.t);
    } else if v.Some? && v.value.s != "" && ParseClock(v.value.s).Some? {
      FmtTime(ParseClock(v.value.s).value);
    }
  }

  /** Text that is not a time of day is shown as it is. */
  lemma FmtKeepsOtherText(s: string)
    requires ':' !in s
    ensures Fmt(Some(Str(s))) == s
  {
    SplitNone(s);
  }

  // ---------------------------------------------------------------- one cell

  /** One report row: a shift payload with its agent's name resolved (`None` where the user has none). */
  datatype ReportRow = ReportRow(
    agente: Option<string>,
    giorno: Day,
    inizio1: Option<Cell>, fine1: Option<Cell>,
    inizio2: Option<Cell>, fine2: Option<Cell>,
    inizio3: Option<Cell>, fine3: Option<Cell>,
    tipo: string,
    note: Option<Cell>)

  /** `row.get("Agente", "")` as text; the empty name is the falsy one. */
  function AgentOf(r: ReportRow): string {
    if r.agente.Some? then r.agente.value else ""
  }

  /** Python's `sep.join(parts)`. */
  function JoinWith(parts: seq<string>, sep: string): (r: string)
    ensures parts == [] ==> r == ""
    ensures |parts| == 1 ==> r == parts[0]
  {
    if parts == [] then ""
    else if |parts| == 1 then parts[0]
    else parts[0] + sep + JoinWith(parts[1..], sep)
  }

  /** One interval as `start – end` (with an en dash). */
  function Interval(start: Option<Cell>, end: Option<Cell>): string {
    Fmt(start) + " \U{2013} " + Fmt(end)
  }

  /**
   * The rendered intervals of a worked shift: the first when both its cells
   * are truthy, the second and third when both their cells are present, the
   * third tagged as overtime.
   */
  function Segments(r: ReportRow): (s: seq<string>)
    ensures |s| <= 3
    ensures forall k :: 0 <= k < |s| ==> s[k] != ""
  {
    (if Truthy(r.inizio1) && Truthy(r.fine1) then [Interval(r.inizio1, r.fine1)] else [])
    + (if NotNan(r.inizio2) && NotNan(r.fine2) then [Interval(r.inizio2, r.fine2)] else [])
    + (if NotNan(r.inizio3) && NotNan(r.fine3)
       then ["<span class='extra'>" + Interval(r.inizio3, r.fine3) + " STRAORDINARIO</span>"] else [])
  }

  /** The text of the agent's cell: the type for a day off, else the intervals joined by `<br>`. */
  function CellText(r: ReportRow): string {
    if DayOffValue(r.tipo) then "<span class='dayoff'>" + r.tipo + "</span>"
    else JoinWith(Segments(r), "<br>")
  }

  /** A day-off cell shows only the type: the times in the row do not matter. */
  lemma DayOffCellIgnoresTimes(r: ReportRow, i1: Option<Cell>, f1: Option<Cell>, i2: Option<Cell>,
                               f2: Option<Cell>, i3: Option<Cell>, f3: Option<Cell>)
    requires DayOffValue(r.tipo)
    ensures CellText(r.(inizio1 := i1, fine1 := f1, inizio2 := i2, fine2 := f2, inizio3 := i3, fine3 := f3))
         == CellText(r)
    ensures StartsWith(CellText(r), "<span class='dayoff'>")
  {
    var c := CellText(r);
    assert c[..21] == "<span class='dayoff'>";
  }

  /** A worked shift's cell is empty exactly when none of its three intervals is complete. */
  lemma WorkedCellEmpty(r: ReportRow)
    requires !DayOffValue(r.tipo)
    ensures CellText(r) == "" <==>
      !(Truthy(r.inizio1) && Truthy(r.fine1)) && !(NotNan(r.inizio2) && NotNan(r.fine2))
      && !(NotNan(r.inizio3) && NotNan(r.fine3))
  {
    var s := Segments(r);
    if |s| > 1 {
      assert |JoinWith(s, "<br>")| >= |s[0]|;
    }
  }

  /** An interval given as two time cells. */
  lemma IntervalOfTimes(t1: Time, t2: Time)
    ensures Interval(Some(TimeCell(t1)), Some(TimeCell(t2))) == HourMinute(t1) + " \U{2013} " + HourMinute(t2)
  {
  }

  /** An interval given as `HH:MM` and `HH:MM:SS` text renders as the times it spells. */
  lemma IntervalOfTexts(t3: Time, t4: Time)
    ensures Interval(Some(Str(HourMinute(t3))), Some(Str(HourMinuteSecond(t4))))
         == HourMinute(t3) + " \U{2013} " + HourMinute(t4)
  {
    FmtTime(t3);
    FmtTime(t4);
  }

  /**
   * A worked shift with its first interval as times and its overtime as text:
   * both intervals in `HH:MM`, the overtime one tagged, joined by `<br>`.
   */
  lemma OvertimeCell(r: ReportRow, t1: Time, t2: Time, t3: Time, t4: Time)
    requires !DayOffValue(r.tipo)
    requires r.inizio1 == Some(TimeCell(t1)) && r.fine1 == Some(TimeCell(t2))
    requires r.inizio2.None? && r.fine2.None?
    requires r.inizio3 == Some(Str(HourMinute(t3))) && r.fine3 == Some(Str(HourMinuteSecond(t4)))
    ensures CellText(r) == (HourMinute(t1) + " \U{2013} " + HourMinute(t2)) + "<br>"
                         + ("<span class='extra'>" + (HourMinute(t3) + " \U{2013} " + HourMinute(t4)) + " STRAORDINARIO</span>")
  {
    OvertimeShape(r);
    IntervalOfTimes(t1, t2);
    IntervalOfTexts(t3, t4);
  }

  /** A worked shift with a complete first and third interval and no second one: two segments joined by `<br>`. */
  lemma OvertimeShape(r: ReportRow)
    requires !DayOffValue(r.tipo)
    requires Truthy(r.inizio1) && Truthy(r.fine1) && !NotNan(r.inizio2) && NotNan(r.inizio3) && NotNan(r.fine3)
    ensures CellText(r) == Interval(r.inizio1, r.fine1) + "<br>"
                         + ("<span class='extra'>" + Interval(r.inizio3, r.fine3) + " STRAORDINARIO</span>")
  {
    var a := Interval(r.inizio1, r.fine1);
    var b := "<span class='extra'>" + Interval(r.inizio3, r.fine3) + " STRAORDINARIO</span>";
    assert Segments(r) == [a] + [] + [b];
    assert [a, b][1..] == [b];
  }

  // ---------------------------------------------------------------- agents

  /** The elements of `s` in order of first appearance, each once (`Series.unique`). */
  function Distinct<T(==,!new)>(s: seq<T>): (r: seq<T>)
    ensures forall x :: x in r <==> x in s
    ensures forall i, j :: 0 <= i < j < |r| ==> r[i] != r[j]
    decreases |s|
  {
    if s == [] then []
    else
      var d := Distinct(s[..|s| - 1]);
      assert s == s[..|s| - 1] + [s[|s| - 1]];
      if s[|s| - 1] in d then d else d + [s[|s| - 1]]
  }

  /** The position of the first occurrence of `x` in `s`. */
  function FirstIndex<T(==)>(s: seq<T>, x: T): (k: nat)
    requires x in s
    ensures k < |s| && s[k] == x
    ensures forall j :: 0 <= j < k ==> s[j] != x
    decreases |s|
  {
    var p := s[..|s| - 1];
    if x in p then FirstIndex(p, x) else |s| - 1
  }

  /** `Distinct` lists the elements in the order of their first appearance in `s`. */
  lemma {:induction false} DistinctOrder<T(!new)>(s: seq<T>)
    ensures forall i, j :: 0 <= i < j < |Distinct(s)| ==>
                             FirstIndex(s, Distinct(s)[i]) < FirstIndex(s, Distinct(s)[j])
    decreases |s|
  {
    if s != [] {
      var p := s[..|s| - 1];
      var d := Distinct(p);
      DistinctOrder(p);
      forall x | x in p
        ensures FirstIndex(s, x) == FirstIndex(p, x)
      {
        var a, b := FirstIndex(s, x), FirstIndex(p, x);
        assert s[b] == p[b];
        assert a <= b;
        assert p[a] == s[a];
      }
    }
  }

  lemma {:induction false} CountDistinct<T>(d: seq<T>, x: T)
    requires forall i, j :: 0 <= i < j < |d| ==> d[i] != d[j]
    ensures multiset(d)[x] <= 1
    decreases |d|
  {
    if d != [] {
      var p := d[..|d| - 1];
      assert d == p + [d[|d| - 1]];
      CountDistinct(p, x);
      if x == d[|d| - 1] {
        assert x !in p;
      }
    }
  }

  lemma CountTwice<T>(r: seq<T>, i: nat, j: nat)
    requires i < j < |r| && r[i] == r[j]
    ensures multiset(r)[r[i]] >= 2
  {
    assert r == r[..j] + [r[j]] + r[j + 1..];
    assert r[i] in r[..j];
  }

  /** A permutation of a sequence without repetitions has none either. */
  lemma PermutationDistinct<T>(d: seq<T>, r: seq<T>)
    requires forall i, j :: 0 <= i < j < |d| ==> d[i] != d[j]
    requires multiset(r) == multiset(d)
    ensures forall i, j :: 0 <= i < j < |r| ==> r[i] != r[j]
  {
    forall i, j | 0 <= i < j < |r|
      ensures r[i] != r[j]
    {
      if r[i] == r[j] {
        CountTwice(r, i, j);
        CountDistinct(d, r[i]);
      }
    }
  }

  /** Python's `<` on strings, as a comparator. */
  function LexOrder(): (string, string) -> bool {
    (a: string, b: string) => LexLe(a, b)
  }

  lemma LexOrderPreorder()
    ensures TotalPreorder(LexOrder())
  {
    forall a: string, b: string
      ensures LexLe(a, b) || LexLe(b, a)
    {
      LexLeTotal(a, b);
    }
    forall a: string, b: string, c: string | LexLe(a, b) && LexLe(b, c)
      ensures LexLe(a, c)
    {
      LexLeTransitive(a, b, c);
    }
  }

  /** Sorting strings: ordered, and a permutation. */
  function SortStrings(s: seq<string>): (r: seq<string>)
    ensures multiset(r) == multiset(s)
    ensures forall x :: x in r <==> x in s
    ensures forall i, j :: 0 <= i < j < |r| ==> LexLe(r[i], r[j])
  {
    var r := Sort(s, LexOrder());
    LexOrderPreorder();
    SortSorted(s, LexOrder());
    assert forall x :: x in r <==> x in multiset(r);
    r
  }

  /** The `Agente` value of each row, in row order. */
  function Names(rows: seq<ReportRow>): (r: seq<string>)
    ensures |r| == |rows| && forall k :: 0 <= k < |rows| ==> r[k] == AgentOf(rows[k])
  {
    seq(|rows|, k requires 0 <= k < |rows| => AgentOf(rows[k]))
  }

  /** `sorted(a for a in df["Agente"].unique() if a)`. */
  function Agents(rows: seq<ReportRow>): seq<string> {
    SortStrings(Filter(Distinct(Names(rows)), (a: string) => a != ""))
  }

  /**
   * The agent columns are the non-empty names of the rows, each once, in
   * increasing code-point order.
   */
  lemma AgentsSpec(rows: seq<ReportRow>)
    ensures forall a :: a in Agents(rows) <==> a != "" && exists k :: 0 <= k < |rows| && AgentOf(rows[k]) == a
    ensures forall i, j :: 0 <= i < j < |Agents(rows)| ==> LexLe(Agents(rows)[i], Agents(rows)[j])
    ensures forall i, j :: 0 <= i < j < |Agents(rows)| ==> Agents(rows)[i] != Agents(rows)[j]
  {
    var d := Distinct(Names(rows));
    var f := Filter(d, (a: string) => a != "");
    FilterDistinct(d, (a: string) => a != "");
    PermutationDistinct(f, Agents(rows));
    forall a | a != "" && exists k :: 0 <= k < |rows| && AgentOf(rows[k]) == a
      ensures a in Agents(rows)
    {
      var k :| 0 <= k < |rows| && AgentOf(rows[k]) == a;
      assert Names(rows)[k] == a;
    }
  }

  lemma {:induction false} FilterDistinct<T(!new)>(d: seq<T>, p: T -> bool)
    requires forall i, j :: 0 <= i < j < |d| ==> d[i] != d[j]
    ensures forall i, j :: 0 <= i < j < |Filter(d, p)| ==> Filter(d, p)[i] != Filter(d, p)[j]
    decreases |d|
  {
    if d != [] {
      FilterDistinct(d[1..], p);
      var rest := Filter(d[1..], p);
      assert d[0] !in d[1..];
      assert d[0] !in rest;
    }
  }

  // ---------------------------------------------------------------- week window

  /** `df["giorno"].min()` as a day number. */
  function MinDay(rows: seq<ReportRow>): (m: int)
    requires |rows| > 0
    ensures forall k :: 0 <= k < |rows| ==> m <= DayNumber(rows[k].giorno)
    ensures exists k :: 0 <= k < |rows| && m == DayNumber(rows[k].giorno)
  {
    if |rows| == 1 then DayNumber(rows[0].giorno)
    else
      var m := MinDay(rows[1..]);
      assert forall k :: 1 <= k < |rows| ==> rows[k] == rows[1..][k - 1];
      if DayNumber(rows[0].giorno) <= m then DayNumber(rows[0].giorno) else m
  }

  /** The report week: from the Monday of the earliest day to the Sunday after it. */
  lemma WindowSpec(rows: seq<ReportRow>)
    requires |rows| > 0
    ensures WeekdayOf(WeekStart(MinDay(rows))) == 0
    ensures forall k :: 0 <= k < |rows| ==> WeekStart(MinDay(rows)) <= DayNumber(rows[k].giorno)
    ensures exists k :: 0 <= k < |rows| && DayNumber(rows[k].giorno) <= WeekStart(MinDay(rows)) + 6
  {
  }

  // ---------------------------------------------------------------- grid

  /** Day key, then agent, then cell text (`by_date`). */
  type Grid = map<string, map<string, string>>

  /** `{a: "" for a in agents}`. */
  function EmptyRow(agents: seq<string>): map<string, string> {
    map a | a in agents :: ""
  }

  /** What one row contributes: its day key, its agent, its cell text, and its cleaned note if any. */
  datatype Write = Write(day: string, agent: string, cell: string, note: Option<string>)

  function WriteOf(r: ReportRow): Write {
    Write(DayKey(r.giorno), AgentOf(r), CellText(r), RowNote(r))
  }

  /** `f` applied to each element, in order. */
  function MapSeq<X, Y>(xs: seq<X>, f: X -> Y): (r: seq<Y>)
    ensures |r| == |xs|
    decreases |xs|
  {
    if xs == [] then [] else MapSeq(xs[..|xs| - 1], f) + [f(xs[|xs| - 1])]
  }

  lemma {:induction false} MapSeqIndex<X, Y>(xs: seq<X>, f: X -> Y, k: nat)
    requires k < |xs|
    ensures MapSeq(xs, f)[k] == f(xs[k])
    decreases |xs|
  {
    if k < |xs| - 1 {
      MapSeqIndex(xs[..|xs| - 1], f, k);
    }
  }

  /** The writes of the rows, in row order. */
  function Writes(rows: seq<ReportRow>): seq<Write> {
    MapSeq(rows, WriteOf)
  }

  /** One iteration of the row loop on `by_date`: create the day's row, then set the agent's cell. */
  function GridStep(g: Grid, agents: seq<string>, w: Write): Grid {
    var g1 := if w.day in g then g else g[w.day := EmptyRow(agents)];
    if w.agent != "" then g1[w.day := g1[w.day][w.agent := w.cell]] else g1
  }

  /** `by_date` after the row loop has made these writes. */
  function GridOf(ws: seq<Write>, agents: seq<string>): Grid
    decreases |ws|
  {
    if ws == [] then map[]
    else GridStep(GridOf(ws[..|ws| - 1], agents), agents, ws[|ws| - 1])
  }

  /** The cell of the last write for this day and agent, if there is one. */
  function LastWrite(ws: seq<Write>, key: string, a: string): Option<string>
    decreases |ws|
  {
    if ws == [] then None
    else
      var w := ws[|ws| - 1];
      if w.day == key && w.agent == a && a != "" then Some(w.cell)
      else LastWrite(ws[..|ws| - 1], key, a)
  }

  /** The grid has a row for exactly the days written. */
  lemma {:induction false} GridDomain(ws: seq<Write>, agents: seq<string>, key: string)
    ensures key in GridOf(ws, agents) <==> exists k :: 0 <= k < |ws| && ws[k].day == key
    decreases |ws|
  {
    if ws != [] {
      var p := ws[..|ws| - 1];
      GridDomain(p, agents, key);
      if key in GridOf(p, agents) {
        var k :| 0 <= k < |p| && p[k].day == key;
        assert ws[k] == p[k];
      }
      if exists k :: 0 <= k < |ws| && ws[k].day == key {
        var k :| 0 <= k < |ws| && ws[k].day == key;
        if k < |p| { assert p[k] == ws[k]; }
      }
    }
  }

  /** No write for the day means no write for the day and agent. */
  lemma {:induction false} LastWriteAbsent(ws: seq<Write>, key: string, a: string)
    requires forall k :: 0 <= k < |ws| ==> ws[k].day != key
    ensures LastWrite(ws, key, a).None?
    decreases |ws|
  {
    if ws != [] {
      var p := ws[..|ws| - 1];
      assert forall k :: 0 <= k < |p| ==> p[k] == ws[k];
      LastWriteAbsent(p, key, a);
    }
  }

  /**
   * Last write wins: an agent's cell on a day holds the text of the last row
   * for that agent and day, and stays empty when there is none.
   */
  lemma {:induction false} GridCell(ws: seq<Write>, agents: seq<string>, key: string, a: string)
    requires key in GridOf(ws, agents) && a in agents
    ensures a in GridOf(ws, agents)[key]
    ensures GridOf(ws, agents)[key][a] == (if LastWrite(ws, key, a).Some? then LastWrite(ws, key, a).value else "")
    decreases |ws|
  {
    var p := ws[..|ws| - 1];
    var w := ws[|ws| - 1];
    var g := GridOf(p, agents);
    if key in g {
      GridCell(p, agents, key, a);
    } else if w.day == key {
      GridDomain(p, agents, key);
      LastWriteAbsent(p, key, a);
    }
  }

  /** When every written agent is a column, each day's row has exactly the agent columns. */
  lemma {:induction false} GridRowDomain(ws: seq<Write>, agents: seq<string>, key: string)
    requires forall k :: 0 <= k < |ws| && ws[k].agent != "" ==> ws[k].agent in agents
    requires key in GridOf(ws, agents)
    ensures GridOf(ws, agents)[key].Keys == set a | a in agents
    decreases |ws|
  {
    var p := ws[..|ws| - 1];
    if key in GridOf(p, agents) {
      assert forall k :: 0 <= k < |p| ==> p[k] == ws[k];
      GridRowDomain(p, agents, key);
    }
  }

  // ---------------------------------------------------------------- notes

  /** Day key to the notes listed for it. */
  type Notes = map<string, seq<string>>

  /** `notes.get(day, [])`. */
  function Lookup(m: Notes, key: string): seq<string> {
    if key in m then m[key] else []
  }

  /** `m.setdefault(key, []).append(note)` for a (key, note) item, nothing for no item. */
  function Append(m: Notes, item: Option<(string, string)>): Notes {
    match item
    case None => m
    case Some(kn) => m[kn.0 := Lookup(m, kn.0) + [kn.1]]
  }

  /** The notes a sequence of sources contributes, grouped by day in source order. */
  function GroupBy<X>(xs: seq<X>, f: X -> Option<(string, string)>): Notes
    decreases |xs|
  {
    if xs == [] then map[] else Append(GroupBy(xs[..|xs| - 1], f), f(xs[|xs| - 1]))
  }

  /** The notes of one day, in source order. */
  function Entries<X>(xs: seq<X>, f: X -> Option<(string, string)>, key: string): seq<string>
    decreases |xs|
  {
    if xs == [] then []
    else
      var item := f(xs[|xs| - 1]);
      Entries(xs[..|xs| - 1], f, key) + (if item.Some? && item.value.0 == key then [item.value.1] else [])
  }

  /** Grouping by day then looking a day up is filtering the sources for that day. */
  lemma {:induction false} GroupByEntries<X>(xs: seq<X>, f: X -> Option<(string, string)>, key: string)
    ensures Lookup(GroupBy(xs, f), key) == Entries(xs, f, key)
    decreases |xs|
  {
    if xs != [] {
      GroupByEntries(xs[..|xs| - 1], f, key);
    }
  }

  /** Every listed note is the note of one of the sources, for that day. */
  lemma {:induction false} EntriesFrom<X>(xs: seq<X>, f: X -> Option<(string, string)>, key: string, n: string)
    requires n in Entries(xs, f, key)
    ensures exists k :: 0 <= k < |xs| && f(xs[k]) == Some((key, n))
    decreases |xs|
  {
    var p := xs[..|xs| - 1];
    var item := f(xs[|xs| - 1]);
    if n in Entries(p, f, key) {
      EntriesFrom(p, f, key, n);
      var k :| 0 <= k < |p| && f(p[k]) == Some((key, n));
      assert xs[k] == p[k];
    } else {
      assert item == Some((key, n));
    }
  }

  /**
   * A note fit for the report: non-empty, no `<` or `>`, and its unescaped
   * text is trimmed and holds no e-mail address.
   */
  predicate Listable(n: string) {
    n != [] && '<' !in n && '>' !in n && Trimmed(HtmlUnescape(n)) && NoEmail(HtmlUnescape(n))
  }

  /** A note as the report lists it: e-mails removed, empty dropped, HTML-escaped. */
  function CleanNote(text: string): (r: Option<string>)
    ensures r.Some? <==> StripEmails(text) != ""
    ensures r.Some? ==> HtmlUnescape(r.value) == StripEmails(text)
    ensures r.Some? ==> Listable(r.value)
  {
    var t := StripEmails(text);
    UnescapeEscape(t);
    if t != "" then Some(HtmlEscape(t)) else None
  }

  /** The note a row contributes: its truthy `note`, cleaned. */
  function RowNote(r: ReportRow): (n: Option<string>)
    ensures n.Some? ==> Truthy(r.note) && Listable(n.value)
    ensures Truthy(r.note) ==> n == CleanNote(Show(r.note.value))
  {
    if !Truthy(r.note) then None else CleanNote(Show(r.note.value))
  }

  /** A write's note as a (day, note) item. */
  function WriteNote(w: Write): Option<(string, string)> {
    if w.note.Some? then Some((w.day, w.note.value)) else None
  }

  /** One iteration of the row loop on `notes`: create the day's list, then append the row's note. */
  function NotesStep(m: Notes, w: Write): Notes {
    Append(if w.day in m then m else m[w.day := []], WriteNote(w))
  }

  /** `notes` after the row loop has made these writes. */
  function NotesOf(ws: seq<Write>): Notes
    decreases |ws|
  {
    if ws == [] then map[] else NotesStep(NotesOf(ws[..|ws| - 1]), ws[|ws| - 1])
  }

  /** The record notes of a day are the notes of that day's writes, in row order. */
  lemma {:induction false} NotesOfEntries(ws: seq<Write>, key: string)
    ensures Lookup(NotesOf(ws), key) == Entries(ws, WriteNote, key)
    decreases |ws|
  {
    if ws != [] {
      NotesOfEntries(ws[..|ws| - 1], key);
    }
  }

  /** An event as the calendar listing returns it: id, title, and the day when it has a start time. */
  datatype GEvent = GEvent(id: string, title: Option<string>, when: Option<Day>)

  /** Shift events and events titled "turno…" are not notes. */
  predicate Skipped(ev: GEvent) {
    StartsWith(ev.id, "shift-") || (ev.title.Some? && StartsWith(Lower(Strip(ev.title.value)), "turno"))
  }

  /** The note a calendar event contributes: its non-empty title, cleaned, on the day it starts. */
  function GcalNote(ev: GEvent): (r: Option<(string, string)>)
    ensures Skipped(ev) ==> r.None?
    ensures r.Some? <==> !Skipped(ev) && ev.when.Some? && ev.title.Some? && CleanNote(ev.title.value).Some?
    ensures r.Some? ==> r.value == (DayKey(ev.when.value), CleanNote(ev.title.value).value)
    ensures r.Some? ==> Listable(r.value.1)
  {
    if Skipped(ev) || ev.when.None? || ev.title.None? || ev.title.value == "" then None
    else
      match CleanNote(ev.title.value)
      case None => None
      case Some(n) => Some((DayKey(ev.when.value), n))
  }

  /** A stored event (`Event`): title, start day, and whether it is public. */
  datatype PublicEvent = PublicEvent(titolo: string, when: Day, isPublic: bool)

  /** The note a stored event contributes: public, within the week, title cleaned. */
  function PublicNote(weekStart: int, e: PublicEvent): (r: Option<(string, string)>)
    ensures r.Some? <==> e.isPublic && weekStart <= DayNumber(e.when) <= weekStart + 6 && CleanNote(e.titolo).Some?
    ensures r.Some? ==> r.value == (DayKey(e.when), CleanNote(e.titolo).value)
    ensures r.Some? ==> Listable(r.value.1)
  {
    if !e.isPublic || DayNumber(e.when) < weekStart || weekStart + 6 < DayNumber(e.when) then None
    else
      match CleanNote(e.titolo)
      case None => None
      case Some(n) => Some((DayKey(e.when), n))
  }

  /** The note function for stored events of the week starting at `weekStart`. */
  function PublicNotes(weekStart: int): PublicEvent -> Option<(string, string)> {
    e => PublicNote(weekStart, e)
  }

  // ---------------------------------------------------------------- lines

  const WeekdayNames: seq<string> := ["LUNEDI", "MARTEDI", "MERCOLEDI", "GIOVEDI", "VENERDI", "SABATO", "DOMENICA"]

  /** `datetime.strptime(key, "%d/%m/%Y").date()`, for keys written as `dd/mm/yyyy`. */
  function ParseDayKey(key: string): Option<Day> {
    if |key| == 10 && key[2] == '/' && key[5] == '/'
       && AllDigits(key[..2]) && AllDigits(key[3..5]) && AllDigits(key[6..]) then
      var d := Date(ParseNat(key[6..]), ParseNat(key[3..5]), ParseNat(key[..2]));
      if ValidDate(d) then Some(d) else None
    else None
  }

  /** A day key reads back as its day. */
  lemma DayKeyRoundTrip(d: Day)
    ensures ParseDayKey(DayKey(d)) == Some(d)
  {
    var k := DayKey(d);
    assert k[..2] == PadNat(d.day, 2) && k[2] == '/';
    assert k[3..5] == PadNat(d.month, 2) && k[5] == '/';
    assert k[6..] == PadNat(d.year, 4);
  }

  /** One line of the table: weekday and day, one cell per agent, and the day's notes. */
  datatype Line = Line(weekday: string, day: string, cells: seq<string>, notes: seq<string>)

  /** `[by_date[day].get(a, "") for a in agents]`. */
  function CellsFor(row: map<string, string>, agents: seq<string>): (r: seq<string>)
    ensures |r| == |agents|
    ensures forall j :: 0 <= j < |agents| && agents[j] !in row ==> r[j] == ""
  {
    seq(|agents|, j requires 0 <= j < |agents| => if agents[j] in row then row[agents[j]] else "")
  }

  /** The Italian weekday name of the day a key reads back as (every key of the report does). */
  function WeekdayName(key: string): string {
    match ParseDayKey(key)
    case Some(d) => WeekdayNames[Weekday(d)]
    case None => ""
  }

  /** The line of one day: record notes first, then calendar notes, then public events. */
  function LineFor(key: string, agents: seq<string>, grid: Grid, notes: Notes, gnotes: Notes, pnotes: Notes): Line
    requires key in grid
  {
    Line(WeekdayName(key), key, CellsFor(grid[key], agents),
         Lookup(notes, key) + Lookup(gnotes, key) + Lookup(pnotes, key))
  }

  /** The day key of each write, in order. */
  function Days(ws: seq<Write>): (r: seq<string>)
    ensures |r| == |ws| && forall k :: 0 <= k < |ws| ==> r[k] == ws[k].day
  {
    seq(|ws|, k requires 0 <= k < |ws| => ws[k].day)
  }

  /** `sorted(by_date.keys())`: the distinct day keys in code-point order. */
  function DayOrder(ws: seq<Write>): seq<string> {
    SortStrings(Distinct(Days(ws)))
  }

  /** Every key of the day order is the day of a write and has a grid row. */
  lemma DayOrderKeys(ws: seq<Write>, agents: seq<string>, key: string)
    requires key in DayOrder(ws)
    ensures key in GridOf(ws, agents)
    ensures exists k :: 0 <= k < |ws| && ws[k].day == key
  {
    DayOrderDays(ws, key);
    GridDomain(ws, agents, key);
  }

  lemma DayOrderDays(ws: seq<Write>, key: string)
    requires key in DayOrder(ws)
    ensures exists k :: 0 <= k < |ws| && ws[k].day == key
  {
    assert key in Days(ws);
  }

  /** The day order lists each written day once, in code-point order. */
  lemma DayOrderSpec(ws: seq<Write>)
    ensures forall i, j :: 0 <= i < j < |DayOrder(ws)| ==> LexLe(DayOrder(ws)[i], DayOrder(ws)[j]) && DayOrder(ws)[i] != DayOrder(ws)[j]
    ensures forall k :: 0 <= k < |ws| ==> ws[k].day in DayOrder(ws)
  {
    PermutationDistinct(Distinct(Days(ws)), DayOrder(ws));
    forall k | 0 <= k < |ws|
      ensures ws[k].day in DayOrder(ws)
    {
      assert Days(ws)[k] == ws[k].day;
    }
  }

  /** The rows' day keys, each of which reads back as the row's day. */
  lemma WriteDays(rows: seq<ReportRow>)
    ensures |Writes(rows)| == |rows|
    ensures forall k :: 0 <= k < |rows| ==> Writes(rows)[k].day == DayKey(rows[k].giorno)
  {
    forall k | 0 <= k < |rows|
      ensures Writes(rows)[k].day == DayKey(rows[k].giorno)
    {
      MapSeqIndex(rows, WriteOf, k);
    }
  }

  // ---------------------------------------------------------------- report

  /** The report: the week window as day numbers, the agent columns, and one line per day. */
  datatype Report = Report(weekStart: int, weekEnd: int, agents: seq<string>, lines: seq<Line>)

  /**
   * The aggregation of `df_to_pdf` over the shift rows, the calendar's events
   * and the stored events; the source raises on an empty frame.
   */
  function ReportOf(rows: seq<ReportRow>, events: seq<GEvent>, stored: seq<PublicEvent>): Report
    requires |rows| > 0
  {
    ReportFrom(WeekStart(MinDay(rows)), Agents(rows), Writes(rows), events, stored)
  }

  /** The report for a week start, agent columns and the rows' writes. */
  function ReportFrom(start: int, agents: seq<string>, ws: seq<Write>, events: seq<GEvent>, stored: seq<PublicEvent>): Report {
    var grid := GridOf(ws, agents);
    var keys := DayOrder(ws);
    assert forall i :: 0 <= i < |keys| ==> keys[i] in grid by {
      forall i | 0 <= i < |keys| ensures keys[i] in grid {
        DayOrderKeys(ws, agents, keys[i]);
      }
    }
    Report(start, start + 6, agents,
           LinesOf(keys, agents, grid, NotesOf(ws), GroupBy(events, GcalNote), GroupBy(stored, PublicNotes(start))))
  }

  /** One line per day key, in key order. */
  function LinesOf(keys: seq<string>, agents: seq<string>, grid: Grid, notes: Notes, gnotes: Notes, pnotes: Notes): seq<Line>
    requires forall i :: 0 <= i < |keys| ==> keys[i] in grid
  {
    seq(|keys|, i requires 0 <= i < |keys| => LineFor(keys[i], agents, grid, notes, gnotes, pnotes))
  }

  lemma LinesOfIs(lines: seq<Line>, keys: seq<string>, agents: seq<string>, grid: Grid, notes: Notes, gnotes: Notes, pnotes: Notes)
    requires forall i :: 0 <= i < |keys| ==> keys[i] in grid
    requires |lines| == |keys|
    requires forall i :: 0 <= i < |keys| ==> lines[i] == LineFor(keys[i], agents, grid, notes, gnotes, pnotes)
    ensures lines == LinesOf(keys, agents, grid, notes, gnotes, pnotes)
  {
  }

  /** The lines' days are the day order. */
  lemma ReportFromDays(start: int, agents: seq<string>, ws: seq<Write>, events: seq<GEvent>, stored: seq<PublicEvent>)
    ensures var lines := ReportFrom(start, agents, ws, events, stored).lines;
      |lines| == |DayOrder(ws)| && forall i :: 0 <= i < |lines| ==> lines[i].day == DayOrder(ws)[i]
  {
  }

  /** The day order lists exactly the written days. */
  lemma DayOrderSet(ws: seq<Write>)
    ensures (set i | 0 <= i < |DayOrder(ws)| :: DayOrder(ws)[i]) == (set k | 0 <= k < |ws| :: ws[k].day)
  {
    var keys := DayOrder(ws);
    DayOrderSpec(ws);
    forall i | 0 <= i < |keys|
      ensures keys[i] in (set k | 0 <= k < |ws| :: ws[k].day)
    {
      DayOrderDays(ws, keys[i]);
    }
  }

  lemma LineDaySet(lines: seq<Line>, keys: seq<string>)
    requires |lines| == |keys| && forall i :: 0 <= i < |lines| ==> lines[i].day == keys[i]
    ensures (set i | 0 <= i < |lines| :: lines[i].day) == (set i | 0 <= i < |keys| :: keys[i])
  {
  }

  /** The line of the i-th day in the day order. */
  lemma ReportFromLine(start: int, agents: seq<string>, ws: seq<Write>, events: seq<GEvent>, stored: seq<PublicEvent>, i: nat)
    requires i < |DayOrder(ws)|
    ensures DayOrder(ws)[i] in GridOf(ws, agents)
    ensures i < |ReportFrom(start, agents, ws, events, stored).lines|
    ensures var key := DayOrder(ws)[i];
      var line := ReportFrom(start, agents, ws, events, stored).lines[i];
      line.day == key && line.weekday == WeekdayName(key) &&
      line.cells == CellsFor(GridOf(ws, agents)[key], agents) &&
      line.notes == Lookup(NotesOf(ws), key) + Lookup(GroupBy(events, GcalNote), key) + Lookup(GroupBy(stored, PublicNotes(start)), key)
  {
    DayOrderKeys(ws, agents, DayOrder(ws)[i]);
  }

  /**
   * The report's week starts on a Monday no later than any row's day, and the
   * earliest day falls within its seven days.
   */
  lemma ReportWindow(rows: seq<ReportRow>, events: seq<GEvent>, stored: seq<PublicEvent>)
    requires |rows| > 0
    ensures var rep := ReportOf(rows, events, stored);
      WeekdayOf(rep.weekStart) == 0 && rep.weekEnd == rep.weekStart + 6 &&
      (forall k :: 0 <= k < |rows| ==> rep.weekStart <= DayNumber(rows[k].giorno)) &&
      exists k :: 0 <= k < |rows| && DayNumber(rows[k].giorno) <= rep.weekEnd
  {
    WindowSpec(rows);
  }

  /** The report's columns are the rows' non-empty agent names, each once, in code-point order. */
  lemma ReportAgents(rows: seq<ReportRow>, events: seq<GEvent>, stored: seq<PublicEvent>)
    requires |rows| > 0
    ensures var agents := ReportOf(rows, events, stored).agents;
      (forall a :: a in agents <==> a != "" && exists k :: 0 <= k < |rows| && AgentOf(rows[k]) == a) &&
      (forall i, j :: 0 <= i < j < |agents| ==> LexLe(agents[i], agents[j]) && agents[i] != agents[j])
  {
    AgentsSpec(rows);
  }

  /** The lines are ordered by the text of their `dd/mm/yyyy` keys, each day once. */
  lemma ReportDaysSorted(rows: seq<ReportRow>, events: seq<GEvent>, stored: seq<PublicEvent>)
    requires |rows| > 0
    ensures var lines := ReportOf(rows, events, stored).lines;
      forall i, j :: 0 <= i < j < |lines| ==> LexLe(lines[i].day, lines[j].day) && lines[i].day != lines[j].day
  {
    ReportFromDays(WeekStart(MinDay(rows)), Agents(rows), Writes(rows), events, stored);
    DayOrderSpec(Writes(rows));
  }

  /** There is a line for exactly the days that have a row. */
  lemma ReportDaysRows(rows: seq<ReportRow>, events: seq<GEvent>, stored: seq<PublicEvent>)
    requires |rows| > 0
    ensures var lines := ReportOf(rows, events, stored).lines;
      (set i | 0 <= i < |lines| :: lines[i].day) == (set k | 0 <= k < |rows| :: DayKey(rows[k].giorno))
  {
    var ws := Writes(rows);
    ReportFromDays(WeekStart(MinDay(rows)), Agents(rows), ws, events, stored);
    LineDaySet(ReportOf(rows, events, stored).lines, DayOrder(ws));
    DayOrderSet(ws);
    WriteDaySet(rows);
  }

  lemma WriteDaySet(rows: seq<ReportRow>)
    ensures (set k | 0 <= k < |Writes(rows)| :: Writes(rows)[k].day) == (set k | 0 <= k < |rows| :: DayKey(rows[k].giorno))
  {
    WriteDays(rows);
  }

  /** Each line is headed by the weekday of its day, a day that has a row. */
  lemma ReportLineWeekday(rows: seq<ReportRow>, events: seq<GEvent>, stored: seq<PublicEvent>, i: nat)
    requires |rows| > 0
    requires i < |ReportOf(rows, events, stored).lines|
    ensures var line := ReportOf(rows, events, stored).lines[i];
      exists k :: 0 <= k < |rows| && DayKey(rows[k].giorno) == line.day &&
                  line.weekday == WeekdayNames[Weekday(rows[k].giorno)]
  {
    var start := WeekStart(MinDay(rows));
    var agents := Agents(rows);
    var ws := Writes(rows);
    ReportFromDays(start, agents, ws, events, stored);
    ReportFromLine(start, agents, ws, events, stored, i);
    var key := DayOrder(ws)[i];
    DayOrderDays(ws, key);
    var k :| 0 <= k < |ws| && ws[k].day == key;
    MapSeqIndex(rows, WriteOf, k);
    DayKeyRoundTrip(rows[k].giorno);
  }

  /**
   * Each line has one cell per agent column, holding the text of the last row
   * for that agent and day, or nothing when there is none.
   */
  lemma ReportLineCells(rows: seq<ReportRow>, events: seq<GEvent>, stored: seq<PublicEvent>, i: nat)
    requires |rows| > 0
    requires i < |ReportOf(rows, events, stored).lines|
    ensures var rep := ReportOf(rows, events, stored);
      var line := rep.lines[i];
      |line.cells| == |rep.agents| &&
      forall j :: 0 <= j < |rep.agents| ==>
        line.cells[j] == (if LastWrite(Writes(rows), line.day, rep.agents[j]).Some?
                          then LastWrite(Writes(rows), line.day, rep.agents[j]).value else "")
  {
    var start := WeekStart(MinDay(rows));
    var agents := Agents(rows);
    var ws := Writes(rows);
    ReportFromDays(start, agents, ws, events, stored);
    ReportFromLine(start, agents, ws, events, stored, i);
    var key := DayOrder(ws)[i];
    forall j | 0 <= j < |agents|
      ensures CellsFor(GridOf(ws, agents)[key], agents)[j] ==
              (if LastWrite(ws, key, agents[j]).Some? then LastWrite(ws, key, agents[j]).value else "")
    {
      GridCell(ws, agents, key, agents[j]);
    }
  }

  /**
   * Each line lists the day's notes: the rows' notes in row order, then the
   * calendar events', then the public stored events'.
   */
  lemma ReportLineNotes(rows: seq<ReportRow>, events: seq<GEvent>, stored: seq<PublicEvent>, i: nat)
    requires |rows| > 0
    requires i < |ReportOf(rows, events, stored).lines|
    ensures var rep := ReportOf(rows, events, stored);
      var line := rep.lines[i];
      line.notes == Entries(Writes(rows), WriteNote, line.day) + Entries(events, GcalNote, line.day) +
                    Entries(stored, PublicNotes(rep.weekStart), line.day)
  {
    var start := WeekStart(MinDay(rows));
    var agents := Agents(rows);
    var ws := Writes(rows);
    ReportFromDays(start, agents, ws, events, stored);
    ReportFromLine(start, agents, ws, events, stored, i);
    var key := DayOrder(ws)[i];
    NotesOfEntries(ws, key);
    GroupByEntries(events, GcalNote, key);
    GroupByEntries(stored, PublicNotes(start), key);
  }

  /** Every note listed in the report is non-empty, holds no `<` or `>`, and unescapes to trimmed text without e-mail addresses. */
  lemma ReportNotesClean(rows: seq<ReportRow>, events: seq<GEvent>, stored: seq<PublicEvent>, i: nat, n: string)
    requires |rows| > 0
    requires i < |ReportOf(rows, events, stored).lines|
    requires n in ReportOf(rows, events, stored).lines[i].notes
    ensures Listable(n)
  {
    var start := WeekStart(MinDay(rows));
    var key := ReportOf(rows, events, stored).lines[i].day;
    var ws := Writes(rows);
    ReportLineNotes(rows, events, stored, i);
    if n in Entries(ws, WriteNote, key) {
      WriteNoteClean(rows, key, n);
    } else if n in Entries(events, GcalNote, key) {
      EntryListable(events, GcalNote, key, n);
    } else {
      EntryListable(stored, PublicNotes(start), key, n);
    }
  }

  /** A note drawn from a source whose every note is listable is listable. */
  lemma EntryListable<X>(xs: seq<X>, f: X -> Option<(string, string)>, key: string, n: string)
    requires forall x :: f(x).Some? ==> Listable(f(x).value.1)
    requires n in Entries(xs, f, key)
    ensures Listable(n)
  {
    EntriesFrom(xs, f, key, n);
  }

  lemma WriteNoteClean(rows: seq<ReportRow>, key: string, n: string)
    requires n in Entries(Writes(rows), WriteNote, key)
    ensures Listable(n)
  {
    var ws := Writes(rows);
    EntriesFrom(ws, WriteNote, key, n);
    var k :| 0 <= k < |ws| && WriteNote(ws[k]) == Some((key, n));
    MapSeqIndex(rows, WriteOf, k);
    assert ws[k].note == RowNote(rows[k]);
  }

  /**
   * Ordering by the `dd/mm/yyyy` text puts 1 February 2023 before 30 January
   * 2023 when a week holds both.
   */
  lemma MisorderedAcrossMonths(rows: seq<ReportRow>, events: seq<GEvent>, stored: seq<PublicEvent>,
                                lines: seq<Line>, i: nat, j: nat)
    requires |rows| > 0 && lines == ReportOf(rows, events, stored).lines
    requires i < |lines| && j < |lines|
    requires lines[i].day == DayKey(Feb1) && lines[j].day == DayKey(Jan30)
    ensures DayNumber(Jan30) < DayNumber(Feb1)
    ensures i < j
  {
    DayKeyOrderDiffers();
    ReportDaysSorted(rows, events, stored);
    LexLeTotal(lines[j].day, lines[j].day);
  }

  // ---------------------------------------------------------------- the loops

  /**
   * The loop over the rows: fills `by_date` and `notes`. `write` computes what
   * one row contributes (its day key, agent, cell text and cleaned note).
   */
  method FillGrid<R>(rows: seq<R>, agents: seq<string>, write: R -> Write) returns (grid: Grid, notes: Notes)
    ensures grid == GridOf(MapSeq(rows, write), agents)
    ensures notes == NotesOf(MapSeq(rows, write))
  {
    grid := map[];
    notes := map[];
    var i := 0;
    while i < |rows|
      invariant 0 <= i <= |rows|
      invariant grid == GridOf(MapSeq(rows, write)[..i], agents)
      invariant notes == NotesOf(MapSeq(rows, write)[..i])
    {
      ghost var g0, n0 := grid, notes;
      var w := write(rows[i]);
      var day := w.day;
      if day !in grid {
        grid := grid[day := EmptyRow(agents)];
      }
      if day !in notes {
        notes := notes[day := []];
      }
      ghost var g1, n1 := grid, notes;
      var agent := w.agent;
      var cell := w.cell;
      if agent != "" {
        grid := grid[day := grid[day][agent := cell]];
      }
      if w.note.Some? {
        notes := notes[day := notes[day] + [w.note.value]];
      }
      GridStepIs(g0, agents, w, g1, grid);
      NotesStepIs(n0, w, n1, notes);
      MapSeqIndex(rows, write, i);
      RowLoopStep(MapSeq(rows, write), agents, i);
      i := i + 1;
    }
    assert MapSeq(rows, write)[..|rows|] == MapSeq(rows, write);
  }

  lemma GridStepIs(g0: Grid, agents: seq<string>, w: Write, g1: Grid, g2: Grid)
    requires g1 == if w.day in g0 then g0 else g0[w.day := EmptyRow(agents)]
    requires g2 == if w.agent != "" then g1[w.day := g1[w.day][w.agent := w.cell]] else g1
    ensures g2 == GridStep(g0, agents, w)
  {
  }

  lemma NotesStepIs(n0: Notes, w: Write, n1: Notes, n2: Notes)
    requires n1 == if w.day in n0 then n0 else n0[w.day := []]
    requires n2 == if w.note.Some? then n1[w.day := n1[w.day] + [w.note.value]] else n1
    ensures n2 == NotesStep(n0, w)
  {
  }

  /** What one more iteration of the row loop adds to both folds. */
  lemma RowLoopStep(ws: seq<Write>, agents: seq<string>, i: nat)
    requires i < |ws|
    ensures GridOf(ws[..i + 1], agents) == GridStep(GridOf(ws[..i], agents), agents, ws[i])
    ensures NotesOf(ws[..i + 1]) == NotesStep(NotesOf(ws[..i]), ws[i])
  {
    assert ws[..i + 1][..i] == ws[..i];
  }

  /** A note-collecting loop: `m.setdefault(key, []).append(note)` for each source that has a note. */
  method GroupNotes<X>(xs: seq<X>, f: X -> Option<(string, string)>) returns (m: Notes)
    ensures m == GroupBy(xs, f)
  {
    m := map[];
    var i := 0;
    while i < |xs|
      invariant 0 <= i <= |xs|
      invariant m == GroupBy(xs[..i], f)
    {
      var item := f(xs[i]);
      if item.Some? {
        var key := item.value.0;
        if key !in m {
          m := m[key := []];
        }
        m := m[key := m[key] + [item.value.1]];
      }
      assert xs[..i + 1][..i] == xs[..i];
      i := i + 1;
    }
    assert xs[..|xs|] == xs;
  }

  /** The loop over the sorted days: one line each, its cells filled agent by agent. */
  method BuildLines(keys: seq<string>, agents: seq<string>, grid: Grid, notes: Notes, gnotes: Notes, pnotes: Notes)
    returns (lines: seq<Line>)
    requires forall i :: 0 <= i < |keys| ==> keys[i] in grid
    ensures lines == LinesOf(keys, agents, grid, notes, gnotes, pnotes)
  {
    lines := [];
    var i := 0;
    while i < |keys|
      invariant 0 <= i <= |keys| && |lines| == i
      invariant forall k :: 0 <= k < i ==> lines[k] == LineFor(keys[k], agents, grid, notes, gnotes, pnotes)
    {
      var day := keys[i];
      var weekday := WeekdayName(day);
      var cells := CollectCells(grid[day], agents);
      var noteLines := Lookup(notes, day) + Lookup(gnotes, day) + Lookup(pnotes, day);
      var line := Line(weekday, day, cells, noteLines);
      AppendLine(lines, keys, i, agents, grid, notes, gnotes, pnotes, line);
      lines := lines + [line];
      i := i + 1;
    }
    LinesOfIs(lines, keys, agents, grid, notes, gnotes, pnotes);
  }

  /** One step of the day loop: the line built for the next key is its `LineFor`. */
  lemma AppendLine(lines: seq<Line>, keys: seq<string>, i: nat, agents: seq<string>, grid: Grid,
                   notes: Notes, gnotes: Notes, pnotes: Notes, line: Line)
    requires i < |keys| && keys[i] in grid && |lines| == i
    requires forall k :: 0 <= k < i ==> keys[k] in grid && lines[k] == LineFor(keys[k], agents, grid, notes, gnotes, pnotes)
    requires line == Line(WeekdayName(keys[i]), keys[i], CellsFor(grid[keys[i]], agents),
                          Lookup(notes, keys[i]) + Lookup(gnotes, keys[i]) + Lookup(pnotes, keys[i]))
    ensures forall k :: 0 <= k <= i ==> (lines + [line])[k] == LineFor(keys[k], agents, grid, notes, gnotes, pnotes)
  {
  }

  /** The inner loop over the agents: each agent's cell of the day, empty where the agent has none. */
  method CollectCells(row: map<string, string>, agents: seq<string>) returns (cells: seq<string>)
    ensures cells == CellsFor(row, agents)
  {
    cells := [];
    var j := 0;
    while j < |agents|
      invariant 0 <= j <= |agents| && |cells| == j
      invariant forall k :: 0 <= k < j ==> cells[k] == CellsFor(row, agents)[k]
    {
      var a := agents[j];
      cells := cells + [if a in row then row[a] else ""];
      j := j + 1;
    }
  }

  /** The aggregation of `df_to_pdf`, step by step as the source performs it. */
  method BuildReport(rows: seq<ReportRow>, events: seq<GEvent>, stored: seq<PublicEvent>) returns (rep: Report)
    requires |rows| > 0
    ensures rep == ReportOf(rows, events, stored)
  {
    var agents := Agents(rows);
    var start := WeekStart(MinDay(rows));
    var grid, notes := FillGrid(rows, agents, WriteOf);
    var gnotes := GroupNotes(events, GcalNote);
    var pnotes := GroupNotes(stored, PublicNotes(start));
    // `by_date` holds its keys in first-insertion order: the distinct days of the writes
    var keys := DayOrder(Writes(rows));
    forall i | 0 <= i < |keys|
      ensures keys[i] in grid
    {
      DayOrderKeys(Writes(rows), agents, keys[i]);
    }
    var lines := BuildLines(keys, agents, grid, notes, gnotes, pnotes);
    rep := Report(start, start + 6, agents, lines);
    ReportFromIs(start, agents, Writes(rows), events, stored, lines);
  }

  /** The report assembled from the lines of the week's writes is `ReportFrom`. */
  lemma ReportFromIs(start: int, agents: seq<string>, ws: seq<Write>, events: seq<GEvent>, stored: seq<PublicEvent>, lines: seq<Line>)
    requires forall i :: 0 <= i < |DayOrder(ws)| ==> DayOrder(ws)[i] in GridOf(ws, agents)
    requires lines == LinesOf(DayOrder(ws), agents, GridOf(ws, agents), NotesOf(ws),
                              GroupBy(events, GcalNote), GroupBy(stored, PublicNotes(start)))
    ensures Report(start, start + 6, agents, lines) == ReportFrom(start, agents, ws, events, stored)
  {
  }
}
