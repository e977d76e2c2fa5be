/**
 * `IMBROFile.convert_to_gef_file_content`: from the flattened IMBRO XML record
 * to the three structures the GEF template is rendered from. The header lines
 * go through the code tables, the True-flagged parameters become the numbered
 * columns of the META part, and the value block is cut into rows, sorted by
 * the first field and written out one `;!`-terminated line per row.
 */
module ImbroFile {
  import opened Base
  import opened Strings
  import opened Sorting
  import opened CodeTables
  import opened XmlTree
  import opened XmlToCpt

  // ---------------------------------------------------------------------------
  // Headers

  /** The header lines built from the record (the clock's `FILEDATE` is passed in). */
  datatype GefHeaders = GefHeaders(
    fileDate: string,
    startDate: string,
    startTime: string,
    testId: Flat,
    zid: string,
    xyid: string,
    cptMethodVar: string,
    stopCriterionVar: string)

  /** `s[a:b]` with Python's clamping to the length. */
  function Slice(s: string, a: nat, b: nat): (r: string)
    requires a <= b
    ensures |r| <= b - a
    ensures b <= |s| ==> r == s[a..b]
    ensures a <= |s| < b ==> r == s[a..]
    ensures |s| < a ==> r == ""
  {
    var hi := if b <= |s| then b else |s|;
    var lo := if a <= hi then a else hi;
    s[lo..hi]
  }

  /**
   * `'{}'.format(x)` of a record field: the text, `None` for an empty element.
   * A nested record or a list would print as its Python repr; the placeholders
   * stand in for that text, which a BRO offset, always a leaf, never needs.
   */
  function Show(f: Flat): string {
    match f
    case FText(t) => if t.Some? then t.value else "None"
    case FDict(_) => "{...}"
    case FParams(_) => "[...]"
  }

  /** A string to slice: slicing None, a record or a list raises TypeError. */
  function TextOf(f: Flat): (r: Result<string>)
    ensures r.Ok? <==> f.FText? && f.text.Some?
  {
    if f.FText? && f.text.Some? then Ok(f.text.value) else Err(TypeError)
  }

  const TestPath: seq<string> := ["conePenetrometerSurvey", "conePenetrationTest"]
  const TimePositionPath: seq<string> := ["phenomenonTime", "TimeInstant", "timePosition"]
  const DatumPath: seq<string> := ["deliveredVerticalPosition", "verticalDatum"]
  const OffsetPath: seq<string> := ["deliveredVerticalPosition", "offset"]
  const TransformationPath: seq<string> := ["standardizedLocation", "coordinateTransformation"]
  const MethodPath: seq<string> := ["conePenetrometerSurvey", "cptMethod"]
  const StopPath: seq<string> := ["conePenetrometerSurvey", "stopCriterion"]

  /** A field that is there and is a leaf, so it can key a code table. */
  predicate IsLeaf(r: Result<Flat>) {
    r.Ok? && r.value.FText?
  }

  /** A field that is there and holds text. */
  predicate IsText(r: Result<Flat>) {
    r.Ok? && r.value.FText? && r.value.text.Some?
  }

  /** What the modelled header lines need of the record, none of it about the vocabulary used. */
  predicate HeaderFieldsPresent(cpt: Flat) {
    Path(cpt, TestPath).Ok? && IsText(Path(Path(cpt, TestPath).value, TimePositionPath)) &&
    Attr(cpt, "broId").Ok? &&
    IsLeaf(Path(cpt, DatumPath)) && Path(cpt, OffsetPath).Ok? &&
    IsLeaf(Path(cpt, TransformationPath)) &&
    IsText(Path(cpt, PosPath)) && |Split(Path(cpt, PosPath).value.text.value, " ")| >= 2 &&
    IsLeaf(Path(cpt, MethodPath)) && IsLeaf(Path(cpt, StopPath))
  }

  /**
   * The header lines in the order the dictionary literal evaluates them. The
   * code tables are total, so the call fails only on a missing or misshapen
   * field, whatever words the record uses.
   */
  function HeadersOf(cpt: Flat, today: string): (r: Result<GefHeaders>)
    ensures r.Ok? <==> HeaderFieldsPresent(cpt)
    ensures r.Ok? ==>
      r.value.zid == Lookup(ZidCodes, Path(cpt, DatumPath).value.text) + ", " + Show(Path(cpt, OffsetPath).value) &&
      r.value.cptMethodVar == "12, " + Lookup(CptMethod, Path(cpt, MethodPath).value.text) + ", -, sondeermethode" &&
      r.value.stopCriterionVar == "17, " + Lookup(StopCriteria, Path(cpt, StopPath).value.text) + ", -, stopcriterium"
    ensures r.Ok? ==>
      var parts := Split(Path(cpt, PosPath).value.text.value, " ");
      r.value.xyid == Lookup(XyidCodes, Path(cpt, TransformationPath).value.text) + ", " + parts[0] + ", " + parts[1]
    ensures r.Ok? ==>
      var t := Path(Path(cpt, TestPath).value, TimePositionPath).value.text.value;
      r.value.fileDate == today && Attr(cpt, "broId") == Ok(r.value.testId) &&
      r.value.startDate == ReplaceAll(Slice(t, 0, 10), '-', ", ") &&
      r.value.startTime == ReplaceAll(Slice(t, 11, 19), ':', ", ")
  {
    var test :- Path(cpt, TestPath);
    var timeF :- Path(test, TimePositionPath);
    var time :- TextOf(timeF);
    var testId :- Attr(cpt, "broId");
    var datumF :- Path(cpt, DatumPath);
    var datum :- TextOrNone(datumF);
    var offset :- Path(cpt, OffsetPath);
    var transformationF :- Path(cpt, TransformationPath);
    var transformation :- TextOrNone(transformationF);
    var posF :- Path(cpt, PosPath);
    var pos :- StrOf(posF, "split");
    var parts := Split(pos, " ");
    if |parts| < 2 then Err(IndexError)
    else
      var methodF :- Path(cpt, MethodPath);
      var method_ :- TextOrNone(methodF);
      var stopF :- Path(cpt, StopPath);
      var stop :- TextOrNone(stopF);
      Ok(GefHeaders(
        today,
        ReplaceAll(Slice(time, 0, 10), '-', ", "),
        ReplaceAll(Slice(time, 11, 19), ':', ", "),
        testId,
        Lookup(ZidCodes, datum) + ", " + Show(offset),
        Lookup(XyidCodes, transformation) + ", " + parts[0] + ", " + parts[1],
        "12, " + Lookup(CptMethod, method_) + ", -, sondeermethode",
        "17, " + Lookup(StopCriteria, stop) + ", -, stopcriterium"))
  }

  /** A vertical datum or coordinate system the tables do not know is written as `-`, not rejected. */
  lemma UnknownVocabularyGivesDash(cpt: Flat, today: string)
    requires HeaderFieldsPresent(cpt)
    requires Path(cpt, DatumPath).value.text.None? || Path(cpt, DatumPath).value.text.value !in ZidCodes
    requires Path(cpt, TransformationPath).value.text.None? || Path(cpt, TransformationPath).value.text.value !in XyidCodes
    ensures HeadersOf(cpt, today).Ok?
    ensures HeadersOf(cpt, today).value.zid[..3] == "-, "
    ensures HeadersOf(cpt, today).value.xyid[..3] == "-, "
  {
    var h := HeadersOf(cpt, today).value;
    var parts := Split(Path(cpt, PosPath).value.text.value, " ");
    DashLine(h.zid, Lookup(ZidCodes, Path(cpt, DatumPath).value.text), Show(Path(cpt, OffsetPath).value));
    DashLine2(h.xyid, Lookup(XyidCodes, Path(cpt, TransformationPath).value.text), parts[0], parts[1]);
  }

  /** A line that starts with the fallback code starts with `-, `. */
  lemma DashLine(line: string, code: string, rest: string)
    requires code == Unknown && line == code + ", " + rest
    ensures line[..3] == "-, "
  {
  }

  /** The same for a line of three parts. */
  lemma DashLine2(line: string, code: string, a: string, b: string)
    requires code == Unknown && line == code + ", " + a + ", " + b
    ensures line[..3] == "-, "
  {
    DashLine(line, code, a + ", " + b);
  }

  /** An ISO 8601 stamp `YYYY-MM-DDTHH:MM:SS`, possibly followed by fractions or a zone. */
  predicate IsoStamp(t: string) {
    |t| >= 19 && t[4] == '-' && t[7] == '-' && t[10] == 'T' && t[13] == ':' && t[16] == ':' &&
    forall i :: 0 <= i < 19 && i !in {4, 7, 10, 13, 16} ==> '0' <= t[i] <= '9'
  }

  /** A stretch of text cut at two positions: the piece before, the character at each cut, and the pieces between and after. */
  lemma StampPieces(t: string, a: nat, m: nat, n: nat, b: nat)
    requires a < m < n < b <= |t|
    ensures t[a..b] == t[a..m] + [t[m]] + t[m + 1..n] + [t[n]] + t[n + 1..b]
  {
    var p := t[a..m] + [t[m]] + t[m + 1..n] + [t[n]] + t[n + 1..b];
    forall k | 0 <= k < b - a ensures t[a..b][k] == p[k] {
      if a + k < m {
      } else if a + k == m {
      } else if a + k < n {
      } else if a + k == n {
      } else {
      }
    }
  }

  /** `STARTDATE` and `STARTTIME` of an ISO stamp read `YYYY, MM, DD` and `HH, MM, SS`. */
  lemma IsoStampHeaders(t: string)
    requires IsoStamp(t)
    ensures ReplaceAll(Slice(t, 0, 10), '-', ", ") == t[0..4] + ", " + t[5..7] + ", " + t[8..10]
    ensures ReplaceAll(Slice(t, 11, 19), ':', ", ") == t[11..13] + ", " + t[14..16] + ", " + t[17..19]
  {
    assert Slice(t, 0, 10) == t[0..4] + ['-'] + t[5..7] + ['-'] + t[8..10] by {
      StampPieces(t, 0, 4, 7, 10);
    }
    assert '-' !in t[0..4] && '-' !in t[5..7] && '-' !in t[8..10] by {
      forall i | 0 <= i < 10 && i != 4 && i != 7 ensures t[i] != '-' {
        assert '0' <= t[i] <= '9';
      }
    }
    ReplaceAllInThree(t[0..4], t[5..7], t[8..10], '-', ", ");
    assert Slice(t, 11, 19) == t[11..13] + [':'] + t[14..16] + [':'] + t[17..19] by {
      StampPieces(t, 11, 13, 16, 19);
    }
    assert ':' !in t[11..13] && ':' !in t[14..16] && ':' !in t[17..19] by {
      forall i | 11 <= i < 19 && i != 13 && i != 16 ensures t[i] != ':' {
        assert '0' <= t[i] <= '9';
      }
    }
    ReplaceAllInThree(t[11..13], t[14..16], t[17..19], ':', ", ");
  }

  /** A record stamped `2019-07-04T10:22:33Z` gives `STARTDATE= 2019, 07, 04` and `STARTTIME= 10, 22, 33`. */
  lemma StartOfIsoRecord(cpt: Flat, today: string)
    requires HeadersOf(cpt, today).Ok?
    requires IsoStamp(Path(Path(cpt, TestPath).value, TimePositionPath).value.text.value)
    ensures var t := Path(Path(cpt, TestPath).value, TimePositionPath).value.text.value;
      HeadersOf(cpt, today).value.startDate == t[0..4] + ", " + t[5..7] + ", " + t[8..10] &&
      HeadersOf(cpt, today).value.startTime == t[11..13] + ", " + t[14..16] + ", " + t[17..19]
  {
    IsoStampHeaders(Path(Path(cpt, TestPath).value, TimePositionPath).value.text.value);
  }

  // ---------------------------------------------------------------------------
  // META: the selected columns

  /** A `COLUMNINFO` entry: the registry entry of the column and its 1-based number. */
  datatype ColumnInfo = ColumnInfo(column: ColumnDef, colnum: nat)

  /** The parameter indices written to the data block, and their `COLUMNINFO`. */
  datatype Selection = Selection(columns: seq<nat>, info: seq<ColumnInfo>)

  /** The registry entry of a parameter tag: `[w for w in databloc_cols_def if w['description'] == undo_camelcase(tag)]`'s first. */
  function ColumnFor(tag: string): Option<ColumnDef> {
    FindColumn(UndoCamelcase(tag))
  }

  /** The META loop over the first `n` parameters, looking tags up with `col`; `[...][0]` on no match raises IndexError. */
  function SelectionWith(params: seq<(string, bool)>, n: nat, col: string -> Option<ColumnDef>): Result<Selection>
    requires n <= |params|
  {
    if n == 0 then Ok(Selection([], []))
    else
      var s :- SelectionWith(params, n - 1, col);
      if !params[n - 1].1 then Ok(s)
      else
        match col(params[n - 1].0)
        case None => Err(IndexError)
        case Some(d) => Ok(Selection(s.columns + [n - 1], s.info + [ColumnInfo(d, |s.columns| + 1)]))
  }

  /** The META loop with the registry lookup of the source. */
  function SelectionOf(params: seq<(string, bool)>, n: nat): Result<Selection>
    requires n <= |params|
  {
    SelectionWith(params, n, ColumnFor)
  }

  /** A flagged parameter whose tag names no column. */
  predicate Unregistered(p: (string, bool), col: string -> Option<ColumnDef>) {
    p.1 && col(p.0).None?
  }

  /** What the META loop builds, stated without the loop. */
  predicate IsSelection(params: seq<(string, bool)>, n: nat, col: string -> Option<ColumnDef>, s: Selection)
    requires n <= |params|
  {
    |s.info| == |s.columns| &&
    (forall p, q :: 0 <= p < q < |s.columns| ==> s.columns[p] < s.columns[q]) &&
    (forall p :: 0 <= p < |s.columns| ==> s.columns[p] < n) &&
    (forall i :: 0 <= i < n ==> (params[i].1 <==> i in s.columns)) &&
    forall p :: 0 <= p < |s.columns| ==> s.info[p].colnum == p + 1 && col(params[s.columns[p]].0) == Some(s.info[p].column)
  }

  lemma SelectionWithIsFlaggedColumns(params: seq<(string, bool)>, n: nat, col: string -> Option<ColumnDef>)
    requires n <= |params|
    ensures SelectionWith(params, n, col).Ok? <==> forall i :: 0 <= i < n ==> !Unregistered(params[i], col)
    ensures SelectionWith(params, n, col).Err? ==> SelectionWith(params, n, col).error == IndexError
    ensures SelectionWith(params, n, col).Ok? ==> IsSelection(params, n, col, SelectionWith(params, n, col).value)
  {
    SelectionWithOk(params, n, col);
    if SelectionWith(params, n, col).Ok? {
      SelectionWithShape(params, n, col);
    }
  }

  /** The loop raises, always IndexError, exactly when a flagged tag is unregistered. */
  lemma {:induction false} SelectionWithOk(params: seq<(string, bool)>, n: nat, col: string -> Option<ColumnDef>)
    requires n <= |params|
    ensures SelectionWith(params, n, col).Ok? <==> forall i :: 0 <= i < n ==> !Unregistered(params[i], col)
    ensures SelectionWith(params, n, col).Err? ==> SelectionWith(params, n, col).error == IndexError
  {
    if n > 0 {
      SelectionWithOk(params, n - 1, col);
    }
  }

  /** What a completed loop has built. */
  lemma {:induction false} SelectionWithShape(params: seq<(string, bool)>, n: nat, col: string -> Option<ColumnDef>)
    requires n <= |params| && SelectionWith(params, n, col).Ok?
    ensures IsSelection(params, n, col, SelectionWith(params, n, col).value)
  {
    if n > 0 {
      var r := SelectionWith(params, n - 1, col);
      assert r.Ok?;
      SelectionWithShape(params, n - 1, col);
      if !params[n - 1].1 {
        SelectionSkipStep(params, n, col, r.value);
      } else {
        SelectionAppendStep(params, n, col, r.value, col(params[n - 1].0).value);
      }
    }
  }

  /** An unflagged parameter leaves the selection as it was. */
  lemma SelectionSkipStep(params: seq<(string, bool)>, n: nat, col: string -> Option<ColumnDef>, s: Selection)
    requires 0 < n <= |params| && IsSelection(params, n - 1, col, s) && !params[n - 1].1
    ensures IsSelection(params, n, col, s)
  {
    assert n - 1 !in s.columns;
  }

  /** A flagged, registered parameter is appended with the next column number. */
  lemma SelectionAppendStep(params: seq<(string, bool)>, n: nat, col: string -> Option<ColumnDef>, s: Selection, d: ColumnDef)
    requires 0 < n <= |params| && IsSelection(params, n - 1, col, s) && params[n - 1].1 && col(params[n - 1].0) == Some(d)
    ensures IsSelection(params, n, col, Selection(s.columns + [n - 1], s.info + [ColumnInfo(d, |s.columns| + 1)]))
  {
    var s' := Selection(s.columns + [n - 1], s.info + [ColumnInfo(d, |s.columns| + 1)]);
    forall i | 0 <= i < n ensures params[i].1 <==> i in s'.columns {
      if i < n - 1 {
        assert i in s'.columns <==> i in s.columns;
      }
    }
  }

  /**
   * The columns are exactly the True-flagged parameter indices in ascending
   * order, numbered 1..n, each described by the registry entry of its
   * de-camel-cased tag; the loop raises IndexError exactly when a flagged tag
   * has no entry.
   */
  lemma SelectionIsFlaggedColumns(params: seq<(string, bool)>)
    ensures SelectionOf(params, |params|).Ok? <==> forall i :: 0 <= i < |params| ==> !Unregistered(params[i], ColumnFor)
    ensures SelectionOf(params, |params|).Err? ==> SelectionOf(params, |params|).error == IndexError
    ensures SelectionOf(params, |params|).Ok? ==> IsSelection(params, |params|, ColumnFor, SelectionOf(params, |params|).value)
  {
    SelectionWithIsFlaggedColumns(params, |params|, ColumnFor);
  }

  /** Once the loop has raised, later parameters do not matter. */
  lemma {:induction false} SelectionErrorStays(params: seq<(string, bool)>, i: nat, n: nat, col: string -> Option<ColumnDef>)
    requires i <= n <= |params| && SelectionWith(params, i, col).Err?
    ensures SelectionWith(params, n, col) == SelectionWith(params, i, col)
    decreases n - i
  {
    if i < n {
      SelectionErrorStays(params, i, n - 1, col);
    }
  }

  /** One more parameter through the META loop, for any lookup. */
  lemma SelectionStep(params: seq<(string, bool)>, i: nat, col: string -> Option<ColumnDef>, s: Selection)
    requires i < |params| && SelectionWith(params, i, col) == Ok(s)
    ensures !params[i].1 ==> SelectionWith(params, i + 1, col) == Ok(s)
    ensures params[i].1 && col(params[i].0).None? ==> SelectionWith(params, i + 1, col) == Err(IndexError)
    ensures params[i].1 && col(params[i].0).Some? ==>
      SelectionWith(params, i + 1, col) == Ok(Selection(s.columns + [i], s.info + [ColumnInfo(col(params[i].0).value, |s.columns| + 1)]))
  {
  }

  /** The META loop: appends to `columns` and `COLUMNINFO` for every flagged parameter. */
  method BuildSelection(params: seq<(string, bool)>) returns (r: Result<Selection>)
    ensures r == SelectionOf(params, |params|)
  {
    r := BuildSelectionWith(params, ColumnFor);
  }

  /** The META loop for any registry lookup `col`. */
  method BuildSelectionWith(params: seq<(string, bool)>, col: string -> Option<ColumnDef>) returns (r: Result<Selection>)
    ensures r == SelectionWith(params, |params|, col)
  {
    var columns: seq<nat> := [];
    var info: seq<ColumnInfo> := [];
    for i := 0 to |params|
      invariant SelectionWith(params, i, col) == Ok(Selection(columns, info))
    {
      SelectionStep(params, i, col, Selection(columns, info));
      var (tag, value) := params[i];
      if value {
        var w := col(tag);
        if w.None? {
          SelectionErrorStays(params, i + 1, |params|, col);
          return Err(IndexError);
        }
        columns := columns + [i];
        info := info + [ColumnInfo(w.value, |columns|)];
      }
    }
    return Ok(Selection(columns, info));
  }

  // ---------------------------------------------------------------------------
  // DATA: one line per row

  /** `[str(row[c]) for c in columns]`: IndexError when a row is shorter than a selected column. */
  function Fields(row: Row, columns: seq<nat>): (r: Result<seq<string>>)
    ensures r.Ok? <==> forall k :: 0 <= k < |columns| ==> columns[k] < |row|
    ensures r.Ok? ==> |r.value| == |columns| && forall k :: 0 <= k < |columns| ==> r.value[k] == row[columns[k]]
  {
    if forall k :: 0 <= k < |columns| ==> columns[k] < |row| then
      Ok(seq(|columns|, k requires 0 <= k < |columns| => row[columns[k]]))
    else Err(IndexError)
  }

  /** One data line: the selected fields joined by `;`, then `;!` and a newline. */
  function LineOf(row: Row, columns: seq<nat>): Result<string> {
    var fields :- Fields(row, columns);
    Ok(Join(fields, ";") + ";!\n")
  }

  /** The `data` string after the first `n` rows. */
  function DataOf(rows: seq<Row>, columns: seq<nat>, n: nat): Result<string>
    requires n <= |rows|
  {
    if n == 0 then Ok("")
    else
      var data :- DataOf(rows, columns, n - 1);
      var line :- LineOf(rows[n - 1], columns);
      Ok(data + line)
  }

  lemma {:induction false} DataErrorStays(rows: seq<Row>, columns: seq<nat>, i: nat, n: nat)
    requires i <= n <= |rows| && DataOf(rows, columns, i).Err?
    ensures DataOf(rows, columns, n) == DataOf(rows, columns, i)
    decreases n - i
  {
    if i < n {
      DataErrorStays(rows, columns, i, n - 1);
    }
  }

  /** The DATA loop: accumulates one line per row. */
  method BuildData(rows: seq<Row>, columns: seq<nat>) returns (r: Result<string>)
    ensures r == DataOf(rows, columns, |rows|)
  {
    var data := "";
    for i := 0 to |rows|
      invariant DataOf(rows, columns, i) == Ok(data)
    {
      var line := LineOf(rows[i], columns);
      if line.Err? {
        DataErrorStays(rows, columns, i + 1, |rows|);
        return Err(line.error);
      }
      data := data + line.value;
    }
    return Ok(data);
  }

  /** The line of row `i` without its newline. */
  function LineText(rows: seq<Row>, columns: seq<nat>, i: nat): string
    requires i < |rows| && Fields(rows[i], columns).Ok?
  {
    Join(Fields(rows[i], columns).value, ";") + ";!"
  }

  /** Every row holds every selected column. */
  predicate RowsCoverColumns(rows: seq<Row>, columns: seq<nat>) {
    forall i, k :: 0 <= i < |rows| && 0 <= k < |columns| ==> columns[k] < |rows[i]|
  }

  /** No selected field holds a line break. */
  predicate NoLineBreaks(rows: seq<Row>, columns: seq<nat>) {
    forall i, k :: 0 <= i < |rows| && 0 <= k < |columns| && columns[k] < |rows[i]| ==> '\n' !in rows[i][columns[k]]
  }

  lemma {:induction false} DataOfAsJoin(rows: seq<Row>, columns: seq<nat>, n: nat)
    requires n <= |rows| && RowsCoverColumns(rows, columns)
    ensures DataOf(rows, columns, n).Ok?
    ensures DataOf(rows, columns, n).value == Join(seq(n, i requires 0 <= i < n => LineText(rows, columns, i)) + [""], "\n")
  {
    var lines := seq(n, i requires 0 <= i < n => LineText(rows, columns, i));
    if n > 0 {
      DataOfAsJoin(rows, columns, n - 1);
      var lines' := seq(n - 1, i requires 0 <= i < n - 1 => LineText(rows, columns, i));
      assert lines + [""] == lines' + [LineText(rows, columns, n - 1), ""];
      JoinSnoc(lines', LineText(rows, columns, n - 1), "\n");
    }
  }

  /** Adding a part before the closing empty part appends it and one separator. */
  lemma {:induction false} JoinSnoc(parts: seq<string>, p: string, sep: string)
    ensures Join(parts + [p, ""], sep) == Join(parts + [""], sep) + p + sep
    decreases |parts|
  {
    if parts == [] {
      assert [p, ""][1..] == [""];
    } else {
      JoinSnoc(parts[1..], p, sep);
      assert (parts + [p, ""])[1..] == parts[1..] + [p, ""];
      assert (parts + [""])[1..] == parts[1..] + [""];
    }
  }

  /**
   * The data block has one line per row, in row order, each the selected
   * fields joined by `;` and closed by `;!`; it raises IndexError exactly
   * when some row is shorter than a selected column.
   */
  lemma DataLines(rows: seq<Row>, columns: seq<nat>)
    ensures DataOf(rows, columns, |rows|).Ok? <==> RowsCoverColumns(rows, columns)
    ensures RowsCoverColumns(rows, columns) && NoLineBreaks(rows, columns) ==>
      var lines := Split(DataOf(rows, columns, |rows|).value, "\n");
      |lines| == |rows| + 1 && lines[|rows|] == "" &&
      forall i :: 0 <= i < |rows| ==> lines[i] == Join(Fields(rows[i], columns).value, ";") + ";!"
  {
    if RowsCoverColumns(rows, columns) {
      DataOfAsJoin(rows, columns, |rows|);
      if NoLineBreaks(rows, columns) {
        var lines := seq(|rows|, i requires 0 <= i < |rows| => LineText(rows, columns, i));
        forall i | 0 <= i < |lines + [""]| ensures "\n"[0] !in (lines + [""])[i] {
          if i < |rows| {
            var fields := Fields(rows[i], columns).value;
            JoinAvoids(fields, ";", '\n');
          }
        }
        SplitJoin(lines + [""], "\n");
      }
    } else {
      var i, k :| 0 <= i < |rows| && 0 <= k < |columns| && columns[k] >= |rows[i]|;
      DataFailsAtShortRow(rows, columns, |rows|, i);
    }
  }

  lemma {:induction false} DataFailsAtShortRow(rows: seq<Row>, columns: seq<nat>, n: nat, i: nat)
    requires i < n <= |rows| && Fields(rows[i], columns).Err?
    ensures DataOf(rows, columns, n).Err?
  {
    if i < n - 1 {
      DataFailsAtShortRow(rows, columns, n - 1, i);
    }
  }

  // ---------------------------------------------------------------------------
  // The whole conversion

  /** `META`: the column information, the column count and the number of scans. */
  datatype GefMeta = GefMeta(columnInfo: seq<ColumnInfo>, column: nat, lastScan: nat)

  /** The variables the GEF template is rendered with. */
  datatype GefContent = GefContent(headers: GefHeaders, meta: GefMeta, data: string)

  /** The rows of the value block sorted by their first field, as the data loop reads them. */
  function SortedRows(cpt: Flat): Result<seq<Row>> {
    var rows :- DataRows(cpt);
    SortRowsByColumn(rows, 0)
  }

  /** `convert_to_gef_file_content` up to the template rendering, in the order the source evaluates it. */
  function GefContentOf(xmlDict: Flat, today: string): Result<GefContent> {
    var headers :- HeadersOf(xmlDict, today);
    var body :- GefBodyOf(xmlDict);
    Ok(GefContent(headers, body.0, body.1))
  }

  /** The META and DATA parts, which the source computes after the headers. */
  function GefBodyOf(xmlDict: Flat): Result<(GefMeta, string)> {
    var params :- ParametersOf(xmlDict);
    var selection :- SelectionOf(params, |params|);
    var sorted :- SortedRows(xmlDict);
    var data :- DataOf(sorted, selection.columns, |sorted|);
    Ok((GefMeta(selection.info, |selection.columns|, |sorted|), data))
  }

  /** The conversion with the META and DATA loops as the source runs them. */
  method ConvertToGefFileContent(xmlDict: Flat, today: string) returns (r: Result<GefContent>)
    ensures r == GefContentOf(xmlDict, today)
  {
    var headers := HeadersOf(xmlDict, today);
    if headers.Err? {
      return Err(headers.error);
    }
    var params := ParametersOf(xmlDict);
    if params.Err? {
      return Err(params.error);
    }
    var selection := BuildSelection(params.value);
    if selection.Err? {
      return Err(selection.error);
    }
    var sorted := SortedRows(xmlDict);
    if sorted.Err? {
      return Err(sorted.error);
    }
    var data := BuildData(sorted.value, selection.value.columns);
    if data.Err? {
      return Err(data.error);
    }
    var s := selection.value;
    return Ok(GefContent(headers.value, GefMeta(s.info, |s.columns|, |sorted.value|), data.value));
  }

  /**
   * `COLUMN` counts the selected columns, `COLUMNINFO` numbers them 1..n, the
   * data has `LASTSCAN` lines, one per row of the value block, taken from the
   * rows in ascending order of their first field.
   */
  lemma GefContentShape(xmlDict: Flat, today: string)
    requires GefContentOf(xmlDict, today).Ok?
    ensures DataRows(xmlDict).Ok? && SortRowsByColumn(DataRows(xmlDict).value, 0).Ok?
    ensures var c := GefContentOf(xmlDict, today).value;
      c.meta.column == |c.meta.columnInfo| &&
      forall p :: 0 <= p < |c.meta.columnInfo| ==> c.meta.columnInfo[p].colnum == p + 1
    ensures DataRows(xmlDict).Ok? && SortRowsByColumn(DataRows(xmlDict).value, 0).Ok? ==>
      var rows := DataRows(xmlDict).value;
      var sorted := SortRowsByColumn(rows, 0).value;
      GefContentOf(xmlDict, today).value.meta.lastScan == |rows| == |sorted| &&
      SortedByKey(sorted, 0)
  {
    assert GefBodyOf(xmlDict).Ok? && GefContentOf(xmlDict, today).value.meta == GefBodyOf(xmlDict).value.0;
    GefBodyShape(xmlDict);
  }

  /** The same facts about the META part alone. */
  lemma GefBodyShape(xmlDict: Flat)
    requires GefBodyOf(xmlDict).Ok?
    ensures DataRows(xmlDict).Ok? && SortRowsByColumn(DataRows(xmlDict).value, 0).Ok?
    ensures var m := GefBodyOf(xmlDict).value.0;
      m.column == |m.columnInfo| &&
      forall p :: 0 <= p < |m.columnInfo| ==> m.columnInfo[p].colnum == p + 1
    ensures DataRows(xmlDict).Ok? && SortRowsByColumn(DataRows(xmlDict).value, 0).Ok? ==>
      var rows := DataRows(xmlDict).value;
      var sorted := SortRowsByColumn(rows, 0).value;
      GefBodyOf(xmlDict).value.0.lastScan == |rows| == |sorted| &&
      SortedByKey(sorted, 0)
  {
    var params := ParametersOf(xmlDict).value;
    var selection := SelectionOf(params, |params|).value;
    var rows := DataRows(xmlDict).value;
    var sorted := SortRowsByColumn(rows, 0).value;
    assert GefBodyOf(xmlDict).value.0 == GefMeta(selection.info, |selection.columns|, |sorted|);
    assert IsSelection(params, |params|, ColumnFor, selection) by {
      SelectionIsFlaggedColumns(params);
    }
    SortRowsByColumnIsSorted(rows, 0);
  }
}
