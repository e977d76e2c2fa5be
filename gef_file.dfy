/**
 * GEF -> IMBRO XML (`GEFFile.convert_to_imbro_file_content`): the data
 * dictionary built from the parsed GEF record, the 25-column value block,
 * and the overlay of both onto the IMBRO template.
 */
module GefFile {
  import opened Base
  import opened Strings
  import opened Numbers
  import opened OrderedDict
  import opened XmlTree
  import opened Sorting
  import opened XmlToCpt
  import opened GefTemplate

  /** The record `GEFFile.parse` hands over: header values by name and the measurement channels. */
  datatype CptDict = CptDict(headers: map<string, Scalar>, measurementData: Channels)

  /** `_yes_no(key, cpt_dict)`: whether the record measured channel `key`. */
  function YesNo(key: string, cpt: CptDict): (r: string)
    ensures r == "ja" <==> key in cpt.measurementData
    ensures r == "nee" <==> key !in cpt.measurementData
  {
    if key in cpt.measurementData then "ja" else "nee"
  }

  // ---------------------------------------------------------------------------
  // The registration timestamp

  /** `s[:-2] + ':' + s[-2:]`, with Python's clamping of slices on short strings. */
  function ColonBeforeLastTwo(s: string): string {
    var cut := if |s| < 2 then 0 else |s| - 2;
    s[..cut] + ":" + s[cut..]
  }

  /** `strftime('%Y-%m-%dT%H:%M:%S')`'s shape: digits with `-`, `T` and `:` at their places. */
  predicate IsClock(c: string) {
    |c| == 19 && c[4] == '-' && c[7] == '-' && c[10] == 'T' && c[13] == ':' && c[16] == ':' &&
    forall i :: 0 <= i < 19 && i !in {4, 7, 10, 13, 16} ==> IsDigit(c[i])
  }

  /** The registration times as the source writes them, for the clock text and the `%z` text that follows it. */
  function RegistrationTime(clock: string, offset: string): string {
    ColonBeforeLastTwo(clock + offset)
  }

  /**
   * `datetime.now()` is naive, so `%z` renders as nothing and the colon meant
   * for the UTC offset lands inside the seconds: `…T12:30:45` becomes
   * `…T12:30::45`.
   */
  lemma NaiveTimeSplitsSeconds(clock: string)
    requires IsClock(clock)
    ensures RegistrationTime(clock, "") == clock[..17] + ":" + clock[17..]
    ensures RegistrationTime(clock, "")[16..18] == "::" && |RegistrationTime(clock, "")| == 20
  {
    assert clock + "" == clock;
  }

  lemma NaiveTimeExample()
    ensures RegistrationTime("2024-05-01T12:30:45", "") == "2024-05-01T12:30::45"
  {
    NaiveTimeSplitsSeconds("2024-05-01T12:30:45");
  }

  /** With an aware clock (`%z` gives `+HHMM`) the same formula writes the offset as `+HH:MM` after the seconds. */
  lemma AwareTimeHasOffset(clock: string, offset: string)
    requires |offset| == 5
    ensures RegistrationTime(clock, offset) == clock + offset[..3] + ":" + offset[3..]
  {
    var s := clock + offset;
    assert s[..|s| - 2] == clock + offset[..3];
    assert s[|s| - 2..] == offset[3..];
  }

  // ---------------------------------------------------------------------------
  // The data dictionary

  /** The error the data dictionary raises for a header the record lacks. */
  function MissingParameter(name: string): PyError {
    UserException("Could not convert to xml format, missing parameter " + name)
  }

  /** The headers read for the data dictionary, in the order the source reads them. */
  const DataHeaders: seq<string> := [
    "name", "gef_file_date", "height_system", "fixed_horizontal_level", "ground_level_wrt_reference_m",
    "cone_type", "cone_tip_area", "friction_sleeve_area", "surface_area_quotient_tip",
    "surface_area_quotient_friction_sleeve", "distance_cone_to_centre_friction_sleeve",
    "excavation_depth", "corrected_depth"]

  /** The first of `names` the record lacks. */
  function FirstMissing(cpt: CptDict, names: seq<string>): (r: Option<string>)
    ensures r.None? <==> forall i :: 0 <= i < |names| ==> names[i] in cpt.headers
    ensures r.Some? ==> r.value !in cpt.headers
    ensures r.Some? ==> exists i :: 0 <= i < |names| && names[i] == r.value && (forall j :: 0 <= j < i ==> names[j] in cpt.headers)
  {
    if names == [] then None
    else if names[0] !in cpt.headers then Some(names[0])
    else
      var r := FirstMissing(cpt, names[1..]);
      if r.Some? then
        assert forall j :: 1 <= j < |names| ==> names[j] == names[1..][j - 1];
        r
      else r
  }

  /** `cpt_dict.headers.<name>` for each of `names` in turn, inside the source's `try`: the first missing one is reported by name. */
  function FetchHeaders(cpt: CptDict, names: seq<string>): (r: Result<seq<Scalar>>)
    ensures r.Ok? <==> FirstMissing(cpt, names).None?
    ensures r.Ok? ==> |r.value| == |names| && forall i :: 0 <= i < |names| ==> r.value[i] == cpt.headers[names[i]]
    ensures r.Err? ==> r.error == MissingParameter(FirstMissing(cpt, names).value)
  {
    if names == [] then Ok([])
    else if names[0] !in cpt.headers then Err(MissingParameter(names[0]))
    else
      var rest :- FetchHeaders(cpt, names[1..]);
      Ok([cpt.headers[names[0]]] + rest)
  }

  /** `x * 0.001`: only a number can be scaled. */
  function Milli(v: Scalar): (r: Result<real>)
    ensures r.Ok? <==> v.SNum?
    ensures r.Ok? ==> r.value * 1000.0 == v.num
  {
    if v.SNum? then Ok(v.num * 0.001) else Err(TypeError)
  }

  /** `' '.join(map(str, xy))`: a list of numbers, or the characters of a string; anything else is not iterable. */
  function PositionText(xy: Scalar, show: real -> string): (r: Result<string>)
    ensures r.Ok? <==> xy.SList? || xy.SText?
    ensures xy.SList? ==> r == Ok(Join(seq(|xy.nums|, i requires 0 <= i < |xy.nums| => show(xy.nums[i])), " "))
  {
    match xy
    case SList(xs) => Ok(Join(seq(|xs|, i requires 0 <= i < |xs| => show(xs[i])), " "))
    case SText(s) => Ok(Join(seq(|s|, i requires 0 <= i < |s| => [s[i]]), " "))
    case _ => Err(TypeError)
  }

  /** The values the data dictionary is made of, read in the source's order. */
  datatype DataFields = DataFields(values: seq<Scalar>, finalDepth: real, pos: string)

  /** The reads of the source's `try` block: the thirteen headers, the final depth in m, and the position text. */
  function DataFieldsOf(cpt: CptDict, show: real -> string): (r: Result<DataFields>)
    ensures r.Ok? ==> |r.value.values| == |DataHeaders|
    ensures FirstMissing(cpt, DataHeaders).Some? ==> r == Err(MissingParameter(FirstMissing(cpt, DataHeaders).value))
    ensures r.Ok? <==>
      FirstMissing(cpt, DataHeaders).None? && "corrected_depth" in cpt.headers && cpt.headers["corrected_depth"].SNum? &&
      "x_y_coordinates" in cpt.headers && PositionText(cpt.headers["x_y_coordinates"], show).Ok?
    ensures r.Ok? ==>
      FetchHeaders(cpt, DataHeaders) == Ok(r.value.values) &&
      r.value.finalDepth * 1000.0 == cpt.headers["corrected_depth"].num &&
      PositionText(cpt.headers["x_y_coordinates"], show) == Ok(r.value.pos)
    ensures
      && FirstMissing(cpt, DataHeaders).None? && "corrected_depth" in cpt.headers && cpt.headers["corrected_depth"].SNum?
      && "x_y_coordinates" !in cpt.headers
      ==> r == Err(MissingParameter("x_y_coordinates"))
  {
    var values :- FetchHeaders(cpt, DataHeaders);
    var finalDepth :- Milli(values[12]);
    var xy :- if "x_y_coordinates" in cpt.headers then Ok(cpt.headers["x_y_coordinates"]) else Err(MissingParameter("x_y_coordinates"));
    var pos :- PositionText(xy, show);
    Ok(DataFields(values, finalDepth, pos))
  }

  /** The `parameters` element names and the channels they report on. */
  const ParameterChannels: seq<(string, string)> := [
    ("inclinationResultant", "inclination"), ("localFriction", "fs"), ("frictionRatio", "Rf"), ("coneResistance", "qc")]

  /** The `parameters` dictionary: depth and penetration length always measured, the others as the channels say. */
  function ParametersSection(cpt: CptDict): (r: ODict<DValue>)
    ensures |r| == 6 && r[0] == ("depth", DLeaf(SText("ja"))) && r[1] == ("penetrationLength", DLeaf(SText("ja")))
    ensures forall i :: 2 <= i < 6 ==>
      r[i].0 == ParameterChannels[i - 2].0 &&
      (r[i].1 == DLeaf(SText("ja")) <==> ParameterChannels[i - 2].1 in cpt.measurementData) &&
      (r[i].1 == DLeaf(SText("nee")) <==> ParameterChannels[i - 2].1 !in cpt.measurementData)
  {
    [("depth", DLeaf(SText("ja"))), ("penetrationLength", DLeaf(SText("ja")))] +
    seq(4, i requires 0 <= i < 4 => (ParameterChannels[i].0, DLeaf(SText(YesNo(ParameterChannels[i].1, cpt)))))
  }

  function Date(v: Scalar): DValue {
    DDict([("date", DLeaf(v))])
  }

  /**
   * The data dictionary as the source leaves it before the template overlay:
   * the fields of the `try` block, the value block under
   * `conePenetrationTest.cptResult.values`, and, for a measurement standard,
   * `cptStandard` appended at the top and `qualityClass` appended to the
   * survey.
   */
  function DataDict(cpt: CptDict, f: DataFields, time: string, standard: Option<(string, string)>, block: string): ODict<DValue>
    requires |f.values| == |DataHeaders|
  {
    var v := f.values;
    var survey := [
      ("conePenetrometer", DDict([
        ("conePenetrometerType", DLeaf(v[5])), ("coneSurfaceArea", DLeaf(v[6])),
        ("frictionSleeveSurfaceArea", DLeaf(v[7])), ("coneSurfaceQuotient", DLeaf(v[8])),
        ("frictionSleeveSurfaceQuotient", DLeaf(v[9])), ("coneToFrictionSleeveDistance", DLeaf(v[10]))])),
      ("trajectory", DDict([("predrilledDepth", DLeaf(v[11])), ("finalDepth", DLeaf(SNum(f.finalDepth)))])),
      ("parameters", DDict(ParametersSection(cpt))),
      ("finalProcessingDate", Date(v[1])),
      ("conePenetrationTest", DDict([("cptResult", DDict([("values", DLeaf(SText(block)))]))]))];
    var data := [
      ("broId", DLeaf(v[0])),
      ("researchReportDate", Date(v[1])),
      ("deliveredVerticalPosition", DDict([
        ("verticalDatum", DLeaf(v[2])), ("localVerticalReferencePoint", DLeaf(v[3])),
        ("offset", DLeaf(v[4])), ("verticalPositioningDate", Date(v[1]))])),
      ("conePenetrometerSurvey", DDict(if standard.Some? then survey + [("qualityClass", DLeaf(SText(standard.value.1)))] else survey)),
      ("deliveredLocation", DDict([("location", DDict([("pos", DLeaf(SText(f.pos)))])), ("horizontalPositioningDate", Date(v[1]))])),
      ("registrationHistory", DDict([
        ("objectRegistrationTime", DLeaf(SText(time))), ("registrationStatus", DLeaf(SText("voltooid"))),
        ("registrationCompletionTime", DLeaf(SText(time)))]))];
    if standard.Some? then data + [("cptStandard", DLeaf(SText(standard.value.0)))] else data
  }

  /**
   * `measurement_standard` of the form `standard/quality class`: both halves
   * stripped; no `/` means nothing to add; more than one `/` raises
   * ValueError on the two-way unpacking. A list value has no `/` in it;
   * `None` or a number cannot be searched.
   */
  function MeasurementStandard(cpt: CptDict): (r: Result<Option<(string, string)>>)
    ensures "measurement_standard" !in cpt.headers ==> r == Ok(None)
    ensures r.Ok? && r.value.Some? ==>
      var ms := cpt.headers["measurement_standard"];
      ms.SText? && |Split(ms.text, "/")| == 2 &&
      r.value.value == (Strip(Split(ms.text, "/")[0]), Strip(Split(ms.text, "/")[1]))
  {
    if "measurement_standard" !in cpt.headers then Ok(None)
    else match cpt.headers["measurement_standard"]
      case SText(ms) =>
        if '/' !in ms then Ok(None)
        else
          var parts := Split(ms, "/");
          if |parts| != 2 then Err(ValueError) else Ok(Some((Strip(parts[0]), Strip(parts[1]))))
      case SList(_) => Ok(None)
      case _ => Err(TypeError)
  }

  /** `standard/class` with one slash splits into its two halves, stripped; a second slash raises ValueError. */
  lemma MeasurementStandardOfPair(cpt: CptDict, standard: string, quality: string)
    requires '/' !in standard
    requires "measurement_standard" in cpt.headers && cpt.headers["measurement_standard"] == SText(standard + "/" + quality)
    ensures '/' !in quality ==> MeasurementStandard(cpt) == Ok(Some((Strip(standard), Strip(quality))))
    ensures '/' in quality ==> MeasurementStandard(cpt) == Err(ValueError)
  {
    var ms := standard + "/" + quality;
    assert ms[|standard|] == '/';
    SplitFirstPiece(standard, "/", quality);
    if '/' !in quality {
      SplitWithoutSeparator(quality, "/");
    } else {
      var k :| 0 <= k < |quality| && quality[k] == '/';
      var rest := Split(quality, "/");
      SplitNotSingle(quality, k);
    }
  }

  /** A string containing the separator splits into at least two pieces. */
  lemma {:induction false} SplitNotSingle(s: string, k: nat)
    requires k < |s| && s[k] == '/'
    ensures |Split(s, "/")| >= 2
    decreases |s|
  {
    if s[..1] != "/" {
      assert s[..1][0] == s[0];
      SplitNotSingle(s[1..], k - 1);
    }
  }

  // ---------------------------------------------------------------------------
  // The value block

  /** Columns of the value block: 25 per row, one row per `fs` reading. */
  const ValueColumnCount: nat := 25

  /** `np.linspace(0, stop, n)`: `n` evenly spaced values from 0 up to `stop`. */
  function Linspace(stop: real, n: nat): (r: seq<Option<real>>)
    ensures |r| == n && forall i :: 0 <= i < n ==> r[i].Some?
    ensures n >= 1 ==> r[0] == Some(0.0)
    ensures n >= 2 ==> r[n - 1] == Some(stop)
    ensures n >= 2 ==> forall i :: 0 < i < n ==> r[i].value - r[i - 1].value == stop / (n - 1) as real
  {
    var step := if n <= 1 then 0.0 else stop / (n - 1) as real;
    var r := seq(n, i requires 0 <= i < n => Some(i as real * step));
    assert n >= 2 ==> r[n - 1].value == (n - 1) as real * step == stop;
    r
  }

  /** An all-NaN row. */
  function Unset(n: nat): (r: seq<Option<real>>)
    ensures |r| == n && forall i :: 0 <= i < n ==> r[i].None?
  {
    seq(n, i requires 0 <= i < n => None)
  }

  /** `values[c, :] = xs`: a list of the row's length, or a single value broadcast; any other length raises ValueError. */
  function Broadcast(xs: seq<Option<real>>, n: nat): (r: Result<seq<Option<real>>>)
    ensures r.Ok? <==> |xs| == n || |xs| == 1
    ensures r.Ok? ==> |r.value| == n && forall i :: 0 <= i < n ==> r.value[i] == xs[if |xs| == n then i else 0]
  {
    if |xs| == n then Ok(xs)
    else if |xs| == 1 then Ok(seq(n, i requires 0 <= i < n => xs[0]))
    else Err(ValueError)
  }

  /** `[Rf * 100 if Rf else Rf for Rf in rf]`: percentages; None and zero stay as they are. */
  function RfPercent(rf: seq<Option<real>>): (r: seq<Option<real>>)
    ensures |r| == |rf|
    ensures forall i :: 0 <= i < |rf| ==> (r[i].None? <==> rf[i].None?) && (rf[i].Some? ==> r[i].value == rf[i].value * 100.0)
  {
    seq(|rf|, i requires 0 <= i < |rf| => if rf[i].Some? && rf[i].value != 0.0 then Some(rf[i].value * 100.0) else rf[i])
  }

  /** A measured channel written into its column, or an unset column when the record lacks the channel. */
  function ChannelColumn(md: Channels, key: string, n: nat): (r: Result<seq<Option<real>>>)
    ensures key !in md ==> r == Ok(Unset(n))
    ensures key in md && key != "Rf" ==> r == Broadcast(md[key], n)
    ensures key == "Rf" && key in md ==> r == Broadcast(RfPercent(md[key]), n)
  {
    if key !in md then Ok(Unset(n))
    else if key == "Rf" then Broadcast(RfPercent(md[key]), n)
    else Broadcast(md[key], n)
  }

  /** `cpt_dict.headers.<name> * 0.001` outside the `try`: a missing header raises AttributeError. */
  function HeaderMilli(cpt: CptDict, name: string): (r: Result<real>)
    ensures r.Ok? <==> name in cpt.headers && cpt.headers[name].SNum?
    ensures name !in cpt.headers ==> r == Err(AttributeError(name))
    ensures r.Ok? ==> r.value * 1000.0 == cpt.headers[name].num
  {
    if name !in cpt.headers then Err(AttributeError(name)) else Milli(cpt.headers[name])
  }

  /**
   * The `values` array, column by column: penetration length and depth evenly
   * spaced from 0, then cone resistance, inclination, local friction and the
   * friction ratio in percent at columns 3, 15, 18 and 24, all else unset.
   */
  function ValueColumns(cpt: CptDict): (r: Result<seq<seq<Option<real>>>>)
    ensures r.Ok? ==> "fs" in cpt.measurementData
    ensures r.Ok? ==> ColumnsShape(r.value, |cpt.measurementData["fs"]|)
    ensures r.Ok? ==> forall c :: 0 <= c < ValueColumnCount && c !in FilledColumns ==> r.value[c] == Unset(|r.value[c]|)
    ensures r.Ok? ==> forall i :: 0 <= i < |r.value[0]| ==> r.value[0][i].Some? && r.value[1][i].Some?
    ensures r.Ok? ==> r.value[18] == cpt.measurementData["fs"]
    ensures "fs" !in cpt.measurementData ==> r == Err(AttributeError("fs"))
    ensures "fs" in cpt.measurementData ==>
      var md, n := cpt.measurementData, |cpt.measurementData["fs"]|;
      (r.Ok? <==>
        HeaderMilli(cpt, "depth").Ok? && HeaderMilli(cpt, "corrected_depth").Ok? &&
        ChannelColumn(md, "qc", n).Ok? && ChannelColumn(md, "inclination", n).Ok? && ChannelColumn(md, "Rf", n).Ok?)
    ensures r.Ok? ==>
      var md, n := cpt.measurementData, |cpt.measurementData["fs"]|;
      r.value[0] == Linspace(HeaderMilli(cpt, "depth").value, n) &&
      r.value[1] == Linspace(HeaderMilli(cpt, "corrected_depth").value, n) &&
      r.value[3] == ChannelColumn(md, "qc", n).value &&
      r.value[15] == ChannelColumn(md, "inclination", n).value &&
      r.value[24] == ChannelColumn(md, "Rf", n).value
  {
    if "fs" !in cpt.measurementData then Err(AttributeError("fs"))
    else
      var md := cpt.measurementData;
      var n := |md["fs"]|;
      var depth :- HeaderMilli(cpt, "depth");
      var correctedDepth :- HeaderMilli(cpt, "corrected_depth");
      var qc :- ChannelColumn(md, "qc", n);
      var inclination :- ChannelColumn(md, "inclination", n);
      var fs :- ChannelColumn(md, "fs", n);
      var rf :- ChannelColumn(md, "Rf", n);
      Ok(AssembleColumns(n, [Linspace(depth, n), Linspace(correctedDepth, n), qc, inclination, fs, rf]))
  }

  /** The rows of the value array that the source fills: depth, corrected depth, qc, inclination, fs, Rf. */
  const FilledColumns: seq<nat> := [0, 1, 3, 15, 18, 24]

  /** A 25-column array with `filled[k]` at column `FilledColumns[k]` and every other column unset. */
  function AssembleColumns(n: nat, filled: seq<seq<Option<real>>>): (r: seq<seq<Option<real>>>)
    requires |filled| == |FilledColumns| && forall k :: 0 <= k < |filled| ==> |filled[k]| == n
    ensures ColumnsShape(r, n)
    ensures forall k :: 0 <= k < |FilledColumns| ==> r[FilledColumns[k]] == filled[k]
    ensures forall c :: 0 <= c < ValueColumnCount && c !in FilledColumns ==> r[c] == Unset(n)
  {
    var r := seq(ValueColumnCount, c requires 0 <= c < ValueColumnCount =>
      if c == 0 then filled[0] else if c == 1 then filled[1] else if c == 3 then filled[2]
      else if c == 15 then filled[3] else if c == 18 then filled[4] else if c == 24 then filled[5]
      else Unset(n));
    assert |filled[0]| == |filled[1]| == |filled[2]| == |filled[3]| == |filled[4]| == |filled[5]| == |Unset(n)| == n;
    r
  }

  /** One cell of the value block: `-999999` for NaN, else three decimals. */
  function CellText(v: Option<real>): string {
    if v.None? then "-999999" else Format3(v.value)
  }

  /** Columns of equal length `n`, 25 of them, as the numpy array holds them. */
  predicate ColumnsShape(columns: seq<seq<Option<real>>>, n: nat) {
    |columns| == ValueColumnCount && forall c :: 0 <= c < ValueColumnCount ==> |columns[c]| == n
  }

  /** The rows of the transposed array as cell texts. */
  function TextRows(columns: seq<seq<Option<real>>>, n: nat): (r: seq<Row>)
    requires ColumnsShape(columns, n)
    ensures |r| == n && forall i :: 0 <= i < n ==> |r[i]| == ValueColumnCount
    ensures forall i :: 0 <= i < n ==> r[i] == RowText(columns, i)
    ensures forall i, c :: 0 <= i < n && 0 <= c < ValueColumnCount ==> r[i][c] == CellText(columns[c][i])
  {
    seq(n, i requires 0 <= i < n => RowText(columns, i))
  }

  /** Row `i` of the transposed array as cell texts. */
  function RowText(columns: seq<seq<Option<real>>>, i: nat): (r: Row)
    requires |columns| == ValueColumnCount && forall c :: 0 <= c < ValueColumnCount ==> i < |columns[c]|
    ensures |r| == ValueColumnCount && forall c :: 0 <= c < ValueColumnCount ==> r[c] == CellText(columns[c][i])
  {
    seq(ValueColumnCount, c requires 0 <= c < ValueColumnCount => CellText(columns[c][i]))
  }

  lemma {:induction false} EncodeRowsSnoc(rows: seq<Row>, row: Row, tok: string, blk: string)
    ensures EncodeRows(rows + [row], tok, blk) == EncodeRows(rows, tok, blk) + Join(row, tok) + blk
    decreases |rows|
  {
    if rows == [] {
      assert [] + [row] == [row];
      assert [row][1..] == [];
    } else {
      assert (rows + [row])[1..] == rows[1..] + [row];
      EncodeRowsSnoc(rows[1..], row, tok, blk);
    }
  }

  /** The loop over the array's rows: each row's cells comma-joined and closed by `;`. */
  method EncodeValueBlock(columns: seq<seq<Option<real>>>, n: nat) returns (s: string)
    requires ColumnsShape(columns, n)
    ensures s == EncodeRows(TextRows(columns, n), ",", ";")
  {
    s := "";
    ghost var rows := TextRows(columns, n);
    for i := 0 to n
      invariant s == EncodeRows(rows[..i], ",", ";")
    {
      var fields := RowText(columns, i);
      s := s + Join(fields, ",") + ";";
      assert s == EncodeRows(rows[..i + 1], ",", ";") by {
        assert fields == rows[i];
        assert rows[..i + 1] == rows[..i] + [rows[i]];
        EncodeRowsSnoc(rows[..i], rows[i], ",", ";");
      }
    }
    assert rows[..n] == rows;
  }

  lemma Format3Chars(x: real)
    ensures forall i :: 0 <= i < |Format3(x)| ==> IsDigit(Format3(x)[i]) || Format3(x)[i] == '.' || Format3(x)[i] == '-'
  {
  }

  lemma NinesValue()
    ensures DigitsValue("999999") == 999999
  {
    assert "999999"[..5] == "99999";
    assert "99999"[..4] == "9999";
    assert "9999"[..3] == "999";
    assert "999"[..2] == "99";
    assert "99"[..1] == "9";
    assert "9"[..0] == "";
  }

  /** The sentinel text reads back as the sentinel value. */
  lemma SentinelParses()
    ensures ParseFloat("-999999") == Some(Sentinel)
  {
    var t := "-999999";
    StripUnchanged(t);
    assert t[1..] == "999999";
    ScanDigits("999999", true);
    NinesValue();
  }

  /** A cell holds no separator and reads back as the sentinel or the value rounded to thousandths. */
  lemma CellTextReadsBack(v: Option<real>)
    ensures ',' !in CellText(v) && ';' !in CellText(v)
    ensures ParseFloat(CellText(v)) == Some(if v.None? then Sentinel else Round3(v.value))
  {
    if v.None? {
      SentinelParses();
    } else {
      Format3Chars(v.value);
      ParseFloatOfFormat3(v.value);
    }
  }

  /**
   * The value block is what the XML -> CPT reader splits back into the same
   * rows, 25 fields each, and every field reads as a number: the sentinel for
   * an unset cell, the value rounded to thousandths otherwise.
   */
  lemma ValueBlockReadsBack(columns: seq<seq<Option<real>>>, n: nat)
    requires ColumnsShape(columns, n)
    ensures var rows := TextRows(columns, n);
      SplitRows(EncodeRows(rows, ",", ";"), FText(Some(",")), FText(Some(";"))) == Ok(rows)
    ensures forall i, c :: 0 <= i < n && 0 <= c < ValueColumnCount ==>
      KeyOf(TextRows(columns, n)[i], c) == Ok(if columns[c][i].None? then Sentinel else Round3(columns[c][i].value))
  {
    var rows := TextRows(columns, n);
    forall i, c | 0 <= i < n && 0 <= c < ValueColumnCount
      ensures ',' !in rows[i][c] && ';' !in rows[i][c]
      ensures KeyOf(rows[i], c) == Ok(if columns[c][i].None? then Sentinel else Round3(columns[c][i].value))
    {
      CellTextReadsBack(columns[c][i]);
    }
    SplitRowsOfEncoded(rows, ',', ';');
  }

  // ---------------------------------------------------------------------------
  // The whole conversion

  /**
   * `convert_to_imbro_file_content` up to serialisation: the data dictionary
   * (its reads in the source's order), the measurement standard, the value
   * block, the template overlay and the element tree. `clock` and `offset`
   * stand for `strftime('%Y-%m-%dT%H:%M:%S')` and `%z` of the current time.
   */
  function ImbroContentOf(cpt: CptDict, templateRoot: Element, clock: string, offset: string, show: real -> string): Result<Option<Element>> {
    var fields :- DataFieldsOf(cpt, show);
    var standard :- MeasurementStandard(cpt);
    var columns :- ValueColumns(cpt);
    var block := EncodeRows(TextRows(columns, |cpt.measurementData["fs"]|), ",", ";");
    var data := DataDict(cpt, fields, RegistrationTime(clock, offset), standard, block);
    var filled :- ReformatUsingTemplate(DDict(data), TemplateOf(templateRoot));
    Ok(BuildXml(filled, show))
  }

  /** The conversion with the template parse and the value-block loop as the source runs them. */
  method ConvertToImbroFileContent(cpt: CptDict, templateRoot: Element, clock: string, offset: string, show: real -> string)
    returns (r: Result<Option<Element>>)
    ensures r == ImbroContentOf(cpt, templateRoot, clock, offset, show)
  {
    var fields := DataFieldsOf(cpt, show);
    if fields.Err? {
      return Err(fields.error);
    }
    var standard := MeasurementStandard(cpt);
    if standard.Err? {
      return Err(standard.error);
    }
    var columns := ValueColumns(cpt);
    if columns.Err? {
      return Err(columns.error);
    }
    var block := EncodeValueBlock(columns.value, |cpt.measurementData["fs"]|);
    var data := DataDict(cpt, fields.value, RegistrationTime(clock, offset), standard.value, block);
    var root := ParseXmlTemplate(templateRoot, None, false);
    var filled := ReformatUsingTemplate(DDict(data), [(templateRoot.tag, root)]);
    if filled.Err? {
      return Err(filled.error);
    }
    return Ok(BuildXml(filled.value, show));
  }

  /**
   * Any data overlaid on the parsed template builds one element: the
   * template's root with its attributes, and, below it, the template root's
   * children in the template's order.
   */
  lemma FilledTemplateRoot(data: ODict<DValue>, root: Element, show: real -> string)
    requires ReformatUsingTemplate(DDict(data), TemplateOf(root)).Ok?
    ensures var built := BuildXml(ReformatUsingTemplate(DDict(data), TemplateOf(root)).value, show);
      built.Some? && built.value.tag == root.tag && built.value.attrs == root.attrs
    ensures root.children != [] ==>
      var built := BuildXml(ReformatUsingTemplate(DDict(data), TemplateOf(root)).value, show).value;
      var tags := Keys(NodeOf(root, None, false).value.children);
      |built.children| == |tags| && forall i :: 0 <= i < |tags| ==> built.children[i].tag == tags[i]
  {
    var template := TemplateOf(root);
    TemplateNodeShape(root, None, false);
    var filled := ReformatUsingTemplate(DDict(data), template).value;
    assert |filled| == 1 && filled[0].0 == root.tag && filled[0].1.attributes == root.attrs;
    if root.children != [] {
      var children := NodeOf(root, None, false).value.children;
      var value := FillValue(DDict(data), TDict(children)).value;
      assert filled[0].1.value == value;
      SameSkeletonKeys(value.children, children);
    }
  }

  /** A successful conversion gives the template's root element, its children in the template's order. */
  lemma ImbroContentRoot(cpt: CptDict, templateRoot: Element, clock: string, offset: string, show: real -> string)
    requires ImbroContentOf(cpt, templateRoot, clock, offset, show).Ok?
    ensures var built := ImbroContentOf(cpt, templateRoot, clock, offset, show).value;
      built.Some? && built.value.tag == templateRoot.tag && built.value.attrs == templateRoot.attrs
    ensures templateRoot.children != [] ==>
      var built := ImbroContentOf(cpt, templateRoot, clock, offset, show).value.value;
      var tags := Keys(NodeOf(templateRoot, None, false).value.children);
      |built.children| == |tags| && forall i :: 0 <= i < |tags| ==> built.children[i].tag == tags[i]
  {
    var fields := DataFieldsOf(cpt, show).value;
    var columns := ValueColumns(cpt).value;
    var block := EncodeRows(TextRows(columns, |cpt.measurementData["fs"]|), ",", ";");
    var data := DataDict(cpt, fields, RegistrationTime(clock, offset), MeasurementStandard(cpt).value, block);
    FilledTemplateRoot(data, templateRoot, show);
  }
}
