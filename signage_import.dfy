/**
 * The horizontal-signage spreadsheet reader: two required columns, found
 * whatever their letter case, and one stripped `{azienda, descrizione}` pair
 * per row, stopping at the first row that lacks either value.
 */
module SignageImport {
  import opened Wrappers
  import opened Text
  import opened ExcelImport

  /** A sheet as pandas reads it: its column headers in order, and its rows. */
  datatype SignSheet = SignSheet(columns: seq<string>, rows: seq<Row>)

  /** One imported row. */
  datatype SignRow = SignRow(azienda: string, descrizione: string)

  /** `{c.lower(): c for c in columns}`: the lowered headers, each mapped to a header. */
  function LowerCols(columns: seq<string>): (m: map<string, string>)
    ensures m.Keys == set i | 0 <= i < |columns| :: Lower(columns[i])
    ensures forall c :: c in m ==> Lower(m[c]) == c
  {
    if columns == [] then map[]
    else
      var init := columns[..|columns| - 1];
      var last := columns[|columns| - 1];
      assert columns == init + [last];
      LowerCols(init)[Lower(last) := last]
  }

  /** When several headers lower alike, the last of them is the one kept. */
  lemma {:induction false} LowerColsLast(columns: seq<string>, i: nat)
    requires i < |columns|
    requires forall j :: i < j < |columns| ==> Lower(columns[j]) != Lower(columns[i])
    ensures LowerCols(columns)[Lower(columns[i])] == columns[i]
  {
    if i < |columns| - 1 {
      var init := columns[..|columns| - 1];
      assert init[i] == columns[i];
      LowerColsLast(init, i);
    }
  }

  /** The required columns that no header names, in any letter case. */
  function Missing(columns: seq<string>): (r: set<string>)
    ensures forall c :: c in r <==> (c == "azienda" || c == "descrizione") && c !in LowerCols(columns)
  {
    {"azienda", "descrizione"} - LowerCols(columns).Keys
  }

  /** The headers of the two required columns, when both are present. */
  function RequiredCols(columns: seq<string>): (r: Option<(string, string)>)
    ensures r.None? <==> Missing(columns) != {}
    ensures r.Some? ==> Lower(r.value.0) == "azienda" && Lower(r.value.1) == "descrizione"
  {
    var cols := LowerCols(columns);
    if "azienda" in cols && "descrizione" in cols then
      assert "azienda" !in Missing(columns) && "descrizione" !in Missing(columns);
      Some((cols["azienda"], cols["descrizione"]))
    else
      assert "azienda" in Missing(columns) || "descrizione" in Missing(columns);
      None
  }

  /** Python's `repr` of the missing set; a two-element set is written in the order azienda, descrizione. */
  function MissingText(missing: set<string>): string {
    if missing == {"azienda", "descrizione"} then "{'azienda', 'descrizione'}"
    else if missing == {"azienda"} then "{'azienda'}"
    else "{'descrizione'}"
  }

  /** `str(v).strip()` for a cell that is there; `""` for an absent one. */
  function Stripped(v: Option<Cell>): string {
    if v.Some? then Strip(Show(v.value)) else ""
  }

  /** A required value is absent when its cell is NaN or its text is blank. */
  predicate Blank(v: Option<Cell>) {
    IsNa(v) || Stripped(v) == ""
  }

  /**
   * The body of the row loop for the row at index `idx`, whose spreadsheet row
   * is `idx + 2`: the azienda cell is checked first, then the descrizione cell.
   */
  function SignRowOf(aziendaCol: string, descrCol: string, row: Row, idx: nat): (r: Result<SignRow, HttpException>)
    ensures r.Ok? <==> !Blank(Get(row, aziendaCol)) && !Blank(Get(row, descrCol))
    ensures r.Ok? ==> r.value.azienda == Stripped(Get(row, aziendaCol))
    ensures r.Ok? ==> r.value.descrizione == Stripped(Get(row, descrCol))
    ensures r.Ok? ==> r.value.azienda != "" && Trimmed(r.value.azienda) && r.value.descrizione != "" && Trimmed(r.value.descrizione)
    ensures r.Err? ==> r.error == MissingValue(idx, if Blank(Get(row, aziendaCol)) then "azienda" else "descrizione")
  {
    var azienda := Get(row, aziendaCol);
    var descr := Get(row, descrCol);
    if Blank(azienda) then Err(MissingValue(idx, "azienda"))
    else if Blank(descr) then Err(MissingValue(idx, "descrizione"))
    else Ok(SignRow(Stripped(azienda), Stripped(descr)))
  }

  /** The 400 of a row without a required value: `Row n: Missing <column>`, row `n` being `idx + 2`. */
  function MissingValue(idx: nat, column: string): (e: HttpException)
    ensures e.status == 400 && StartsWith(e.detail, "Row ")
    ensures exists k ::
              4 < k <= |e.detail| - 2 && AllDigits(e.detail[4..k]) && ParseNat(e.detail[4..k]) == idx + 2 &&
              e.detail[k..k + 2] == ": " && e.detail[k + 2..] == "Missing " + column
  {
    var problem := "Missing " + column;
    ParseNatToString(idx + 2);
    NumberedMessage(NatToString(idx + 2), idx + 2, problem);
    HttpException(400, "Row " + NatToString(idx + 2) + ": " + problem)
  }

  /**
   * The outcome of `parse_excel` once the sheet is read: 400 naming the
   * missing columns, or every row in order, or the error of the first row
   * that lacks a value, with no rows returned.
   */
  predicate Parsed(sheet: SignSheet, r: Result<seq<SignRow>, HttpException>) {
    match RequiredCols(sheet.columns)
    case None => r == Err(HttpException(400, "Missing columns: " + MissingText(Missing(sheet.columns))))
    case Some((aziendaCol, descrCol)) =>
      var f := (row: Row, k: nat) => SignRowOf(aziendaCol, descrCol, row, k);
      (r.Ok? <==> forall k :: 0 <= k < |sheet.rows| ==> f(sheet.rows[k], k).Ok?) &&
      (r.Ok? ==> |r.value| == |sheet.rows| && forall k :: 0 <= k < |sheet.rows| ==> f(sheet.rows[k], k) == Ok(r.value[k])) &&
      (r.Err? ==> exists k :: 0 <= k < |sheet.rows| && f(sheet.rows[k], k) == Err(r.error) &&
                              forall j :: 0 <= j < k ==> f(sheet.rows[j], j).Ok?)
  }

  /** `parse_excel` after `pd.read_excel`. */
  method ParseSignage(sheet: SignSheet) returns (r: Result<seq<SignRow>, HttpException>)
    ensures Parsed(sheet, r)
  {
    var cols := RequiredCols(sheet.columns);
    if cols.None? {
      return Err(HttpException(400, "Missing columns: " + MissingText(Missing(sheet.columns))));
    }
    var (aziendaCol, descrCol) := cols.value;
    r := MapUntilError(sheet.rows, (row, k) => SignRowOf(aziendaCol, descrCol, row, k));
  }

  /** Every imported pair holds two stripped, non-empty values. */
  lemma ParsedRowsFilled(sheet: SignSheet, r: Result<seq<SignRow>, HttpException>)
    requires Parsed(sheet, r) && r.Ok?
    ensures |r.value| == |sheet.rows|
    ensures forall k :: 0 <= k < |r.value| ==>
      r.value[k].azienda != "" && Trimmed(r.value[k].azienda) && r.value[k].descrizione != "" && Trimmed(r.value[k].descrizione)
  {
    var (aziendaCol, descrCol) := RequiredCols(sheet.columns).value;
    forall k | 0 <= k < |r.value|
      ensures r.value[k].azienda != "" && Trimmed(r.value[k].azienda)
      ensures r.value[k].descrizione != "" && Trimmed(r.value[k].descrizione)
    {
      assert SignRowOf(aziendaCol, descrCol, sheet.rows[k], k) == Ok(r.value[k]);
    }
  }

  /** A row missing both values is reported for its azienda. */
  lemma AziendaCheckedFirst(aziendaCol: string, descrCol: string, row: Row, idx: nat)
    requires Blank(Get(row, aziendaCol)) && Blank(Get(row, descrCol))
    ensures SignRowOf(aziendaCol, descrCol, row, idx) == Err(MissingValue(idx, "azienda"))
  {
  }

  /** Headers are matched whatever their letter case: two header lists that lower alike miss the same columns. */
  lemma ColumnsCaseInsensitive(a: seq<string>, b: seq<string>)
    requires |a| == |b| && forall i :: 0 <= i < |a| ==> Lower(a[i]) == Lower(b[i])
    ensures Missing(a) == Missing(b)
  {
    assert LowerCols(a).Keys == LowerCols(b).Keys;
  }
}
