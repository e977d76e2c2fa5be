/**
 * The soil-layout helpers: the input table chained into layers, the m <-> mm
 * unit conversions, colour parsing, the in-place enrichment of the
 * classification table, the classification-method dispatch and the
 * ground-water-level fallback.
 */
module SoilLayout {
  import opened Base
  import opened Strings
  import opened Numbers

  // ---------------------------------------------------------------------------
  // The input table and the layers

  /** A row of the soil-layout input table: a soil name and the top of its layer in m. */
  datatype TableRow = TableRow(name: string, topOfLayer: real)

  /** A layer of a soil layout: its soil (an SDK object, left abstract) and its top and bottom. */
  datatype Layer<S> = Layer(soil: S, top: real, bottom: real)

  /** The error for a table row whose soil the classification table lacks. */
  function NotInTable(name: string): PyError {
    UserError("'" + name + "' is not available in the selected classification table.\n" +
              "Please select a different table, or reclassify the CPT files")
  }

  /**
   * The layers in m as the reversed loop builds them: the last row's layer
   * ends at `bottom`, every other layer at the top of the row below it; the
   * first row (from the end) whose soil is unknown stops the loop.
   */
  function ChainLayers<S>(rows: seq<TableRow>, soils: map<string, S>, bottom: real): Result<seq<Layer<S>>>
    decreases |rows|
  {
    if rows == [] then Ok([])
    else
      var last := rows[|rows| - 1];
      if last.name !in soils then Err(NotInTable(last.name))
      else
        var above :- ChainLayers(rows[..|rows| - 1], soils, last.topOfLayer);
        Ok(above + [Layer(soils[last.name], last.topOfLayer, bottom)])
  }

  /** The layer row `j` gives: its soil, its top, and the next row's top (the user's bottom for the last row) as its bottom. */
  function LayerAt<S>(rows: seq<TableRow>, soils: map<string, S>, bottom: real, j: nat): Layer<S>
    requires j < |rows| && rows[j].name in soils
  {
    Layer(soils[rows[j].name], rows[j].topOfLayer, if j + 1 < |rows| then rows[j + 1].topOfLayer else bottom)
  }

  /** The chain succeeds exactly when every soil is known. */
  lemma {:induction false} ChainOkIff<S>(rows: seq<TableRow>, soils: map<string, S>, bottom: real)
    ensures ChainLayers(rows, soils, bottom).Ok? <==> forall j :: 0 <= j < |rows| ==> rows[j].name in soils
    decreases |rows|
  {
    if rows != [] {
      var n := |rows| - 1;
      ChainOkIff(rows[..n], soils, rows[n].topOfLayer);
      assert forall j :: 0 <= j < n ==> rows[..n][j] == rows[j];
    }
  }

  /**
   * A successful chain has one layer per row, in the table's order, each
   * ending where the next begins and the last at the user's bottom.
   */
  lemma {:induction false} ChainLayersAt<S>(rows: seq<TableRow>, soils: map<string, S>, bottom: real)
    requires ChainLayers(rows, soils, bottom).Ok?
    ensures var layers := ChainLayers(rows, soils, bottom).value;
      |layers| == |rows| && forall j :: 0 <= j < |rows| ==> rows[j].name in soils && layers[j] == LayerAt(rows, soils, bottom, j)
    decreases |rows|
  {
    if rows != [] {
      var n := |rows| - 1;
      var front := rows[..n];
      ChainLayersAt(front, soils, rows[n].topOfLayer);
      var layers := ChainLayers(rows, soils, bottom).value;
      forall j | 0 <= j < |rows| ensures rows[j].name in soils && layers[j] == LayerAt(rows, soils, bottom, j) {
        if j < n {
          assert front[j] == rows[j];
          assert j + 1 < n ==> front[j + 1] == rows[j + 1];
          assert layers[j] == LayerAt(front, soils, rows[n].topOfLayer, j);
        }
      }
    }
  }

  /** A failing chain names the last unknown soil of the table, the first the reversed loop meets. */
  lemma {:induction false} ChainError<S>(rows: seq<TableRow>, soils: map<string, S>, bottom: real, m: nat)
    requires m < |rows| && rows[m].name !in soils && forall j :: m < j < |rows| ==> rows[j].name in soils
    ensures ChainLayers(rows, soils, bottom) == Err(NotInTable(rows[m].name))
    decreases |rows|
  {
    var n := |rows| - 1;
    if m < n {
      ChainError(rows[..n], soils, rows[n].topOfLayer, m);
    }
  }

  /** The three together: the chain's result for every table. */
  lemma ChainShape<S>(rows: seq<TableRow>, soils: map<string, S>, bottom: real)
    ensures ChainLayers(rows, soils, bottom).Ok? <==> forall j :: 0 <= j < |rows| ==> rows[j].name in soils
    ensures ChainLayers(rows, soils, bottom).Ok? ==>
      var layers := ChainLayers(rows, soils, bottom).value;
      |layers| == |rows| && forall j :: 0 <= j < |rows| ==> layers[j] == LayerAt(rows, soils, bottom, j)
    ensures forall m :: 0 <= m < |rows| && rows[m].name !in soils && (forall j :: m < j < |rows| ==> rows[j].name in soils) ==>
      ChainLayers(rows, soils, bottom) == Err(NotInTable(rows[m].name))
  {
    ChainOkIff(rows, soils, bottom);
    if ChainLayers(rows, soils, bottom).Ok? {
      ChainLayersAt(rows, soils, bottom);
    }
    forall m | 0 <= m < |rows| && rows[m].name !in soils && (forall j :: m < j < |rows| ==> rows[j].name in soils)
      ensures ChainLayers(rows, soils, bottom) == Err(NotInTable(rows[m].name))
    {
      ChainError(rows, soils, bottom, m);
    }
  }

  /** The layers with their tops and bottoms in mm (`* 1000`). */
  function InMm<S>(layers: seq<Layer<S>>): (r: seq<Layer<S>>)
    ensures |r| == |layers|
    ensures forall i :: 0 <= i < |layers| ==>
      r[i].soil == layers[i].soil && r[i].top == layers[i].top * 1000.0 && r[i].bottom == layers[i].bottom * 1000.0
  {
    seq(|layers|, i requires 0 <= i < |layers| => layers[i].(top := layers[i].top * 1000.0, bottom := layers[i].bottom * 1000.0))
  }

  /** The layers with their tops and bottoms in m (`/ 1000`). */
  function InM<S>(layers: seq<Layer<S>>): (r: seq<Layer<S>>)
    ensures |r| == |layers|
    ensures forall i :: 0 <= i < |layers| ==>
      r[i].soil == layers[i].soil && r[i].top == layers[i].top / 1000.0 && r[i].bottom == layers[i].bottom / 1000.0
  {
    seq(|layers|, i requires 0 <= i < |layers| => layers[i].(top := layers[i].top / 1000.0, bottom := layers[i].bottom / 1000.0))
  }

  /** The two unit conversions undo each other. */
  lemma UnitRoundTrip<S>(layers: seq<Layer<S>>)
    ensures InM(InMm(layers)) == layers
    ensures InMm(InM(layers)) == layers
  {
    assert forall i :: 0 <= i < |layers| ==> InM(InMm(layers))[i] == layers[i];
    assert forall i :: 0 <= i < |layers| ==> InMm(InM(layers))[i] == layers[i];
  }

  /** `convert_soil_layout_from_meter_to_mm`: every layer of the serialised layout rescaled in turn. */
  method ConvertSoilLayoutFromMeterToMm<S>(layers: seq<Layer<S>>) returns (r: seq<Layer<S>>)
    ensures r == InMm(layers)
  {
    r := [];
    for i := 0 to |layers|
      invariant r == InMm(layers[..i])
    {
      var layer := layers[i];
      r := r + [layer.(top := layer.top * 1000.0, bottom := layer.bottom * 1000.0)];
    }
    assert layers[..|layers|] == layers;
  }

  /** `convert_soil_layout_from_mm_to_meter`. */
  method ConvertSoilLayoutFromMmToMeter<S>(layers: seq<Layer<S>>) returns (r: seq<Layer<S>>)
    ensures r == InM(layers)
  {
    r := [];
    for i := 0 to |layers|
      invariant r == InM(layers[..i])
    {
      var layer := layers[i];
      r := r + [layer.(top := layer.top / 1000.0, bottom := layer.bottom / 1000.0)];
    }
    assert layers[..|layers|] == layers;
  }

  /** The layout `convert_input_table_field_to_soil_layout` returns: the chained layers, in mm. */
  function SoilLayoutOf<S>(bottom: real, rows: seq<TableRow>, soils: map<string, S>): Result<seq<Layer<S>>> {
    var layers :- ChainLayers(rows, soils, bottom);
    Ok(InMm(layers))
  }

  /** `convert_input_table_field_to_soil_layout`: the reversed loop, the reversal back, and the conversion to mm. */
  method ConvertInputTableFieldToSoilLayout<S>(bottomOfSoilLayoutUser: real, rows: seq<TableRow>, soils: map<string, S>)
    returns (r: Result<seq<Layer<S>>>)
    ensures r == SoilLayoutOf(bottomOfSoilLayoutUser, rows, soils)
  {
    var bottom := bottomOfSoilLayoutUser;
    var soilLayers: seq<Layer<S>> := [];
    var i := |rows|;
    while i > 0
      invariant 0 <= i <= |rows| && |soilLayers| == |rows| - i
      invariant bottom == if i == |rows| then bottomOfSoilLayoutUser else rows[i].topOfLayer
      invariant forall j :: i <= j < |rows| ==> rows[j].name in soils
      invariant forall k :: 0 <= k < |soilLayers| ==> soilLayers[k] == LayerAt(rows, soils, bottomOfSoilLayoutUser, |rows| - 1 - k)
    {
      i := i - 1;
      var layer := rows[i];
      if layer.name !in soils {
        ChainError(rows, soils, bottomOfSoilLayoutUser, i);
        return Err(NotInTable(layer.name));
      }
      soilLayers := soilLayers + [Layer(soils[layer.name], layer.topOfLayer, bottom)];
      bottom := layer.topOfLayer;
    }
    var layers := seq(|soilLayers|, k requires 0 <= k < |soilLayers| => soilLayers[|soilLayers| - 1 - k]);
    ChainOkIff(rows, soils, bottomOfSoilLayoutUser);
    ChainLayersAt(rows, soils, bottomOfSoilLayoutUser);
    assert forall j :: 0 <= j < |rows| ==> layers[j] == soilLayers[|rows| - 1 - j];
    assert layers == ChainLayers(rows, soils, bottomOfSoilLayoutUser).value;
    var inMm := ConvertSoilLayoutFromMeterToMm(layers);
    return Ok(inMm);
  }

  /** The table rows back from a layout built from them: each layer's top in mm is its row's top times 1000. */
  lemma LayoutTopsAreTableTops<S>(bottom: real, rows: seq<TableRow>, soils: map<string, S>)
    requires SoilLayoutOf(bottom, rows, soils).Ok?
    ensures var layers := InM(SoilLayoutOf(bottom, rows, soils).value);
      |layers| == |rows| && forall j :: 0 <= j < |rows| ==> layers[j].top == rows[j].topOfLayer
  {
    ChainShape(rows, soils, bottom);
    UnitRoundTrip(ChainLayers(rows, soils, bottom).value);
  }

  // ---------------------------------------------------------------------------
  // Colours

  /** `viktor.Color(r, g, b)`. */
  datatype Color = Color(r: int, g: int, b: int)

  /** A value of a classification-table cell. */
  datatype Cell = CNone | CNum(num: real) | CText(text: string) | CTuple(items: seq<int>) | CColor(color: Color)

  /** `Color(*args)`: exactly three arguments, or TypeError. */
  function ColorOf(args: seq<int>): (r: Result<Color>)
    ensures r.Ok? <==> |args| == 3
    ensures r.Ok? ==> r.value == Color(args[0], args[1], args[2])
  {
    if |args| == 3 then Ok(Color(args[0], args[1], args[2])) else Err(TypeError)
  }

  /** `[int(element) for element in parts]`: the first unreadable part raises ValueError. */
  function ParseInts(parts: seq<string>): (r: Result<seq<int>>)
    ensures r.Ok? <==> forall i :: 0 <= i < |parts| ==> ParseInt(parts[i]).Some?
    ensures r.Ok? ==> |r.value| == |parts| && forall i :: 0 <= i < |parts| ==> r.value[i] == ParseInt(parts[i]).value
    ensures r.Err? ==> r.error == ValueError
  {
    if parts == [] then Ok([])
    else
      match ParseInt(parts[0])
      case None => Err(ValueError)
      case Some(v) =>
        var rest :- ParseInts(parts[1..]);
        Ok([v] + rest)
  }

  /** `convert_to_color`: a tuple passes through; a string is stripped, cut at commas and each piece read as an int. */
  function ConvertToColor(rgb: Cell): (r: Result<Color>)
    ensures rgb.CTuple? ==> r == ColorOf(rgb.items)
    ensures !rgb.CTuple? && !rgb.CText? ==> r == Err(AttributeError("strip"))
  {
    match rgb
    case CTuple(items) => ColorOf(items)
    case CText(text) =>
      var ints :- ParseInts(Split(Strip(text), ","));
      ColorOf(ints)
    case _ => Err(AttributeError("strip"))
  }

  /** An integer's text: no comma, no whitespace at either end. */
  lemma IntToStringChars(i: int)
    ensures var s := IntToString(i);
      s != [] && ',' !in s && !IsSpace(s[0]) && !IsSpace(s[|s| - 1])
  {
    var d := NatToString(if i < 0 then -i else i);
    NoSpaceInDigits(d);
    assert forall k :: 0 <= k < |d| ==> d[k] != ',';
  }

  lemma JoinThree(a: string, b: string, c: string, sep: string)
    ensures Join([a, b, c], sep) == a + sep + b + sep + c
  {
    JoinCons(a, [b, c], sep);
    JoinCons(b, [c], sep);
    assert [a, b, c] == [a] + [b, c] && [b, c] == [b] + [c];
  }

  /** `"a,<pad>b,<pad>c".strip().split(",")` gives the three pieces back. */
  lemma SplitColorText(a: string, b: string, c: string, pad: string)
    requires forall k :: 0 <= k < |pad| ==> IsSpace(pad[k])
    requires a != [] && c != [] && !IsSpace(a[0]) && !IsSpace(c[|c| - 1])
    requires ',' !in a && ',' !in b && ',' !in c
    ensures Split(Strip(a + "," + pad + b + "," + pad + c), ",") == [a, pad + b, pad + c]
  {
    var text := a + "," + pad + b + "," + pad + c;
    assert text[0] == a[0];
    assert text[|text| - 1] == c[|c| - 1];
    StripUnchanged(text);
    JoinThree(a, pad + b, pad + c, ",");
    assert text == a + "," + (pad + b) + "," + (pad + c);
    assert forall k :: 0 <= k < |pad| ==> pad[k] != ',';
    assert ',' !in pad + b && ',' !in pad + c;
    SplitJoin([a, pad + b, pad + c], ",");
  }

  /** A colour written as `"r,<pad>g,<pad>b"` (as in `"255, 0, 0"`) reads back as that colour. */
  lemma ColorTextRoundTrip(c: Color, pad: string)
    requires forall k :: 0 <= k < |pad| ==> IsSpace(pad[k])
    ensures ConvertToColor(CText(IntToString(c.r) + "," + pad + IntToString(c.g) + "," + pad + IntToString(c.b))) == Ok(c)
  {
    var sr, sg, sb := IntToString(c.r), IntToString(c.g), IntToString(c.b);
    IntToStringChars(c.r);
    IntToStringChars(c.g);
    IntToStringChars(c.b);
    SplitColorText(sr, sg, sb, pad);
    ParseIntOfIntToString(c.r, "");
    assert "" + sr == sr;
    ParseIntOfIntToString(c.g, pad);
    ParseIntOfIntToString(c.b, pad);
    ParseThree(sr, pad + sg, pad + sb);
  }

  lemma ParseThree(a: string, b: string, c: string)
    requires ParseInt(a).Some? && ParseInt(b).Some? && ParseInt(c).Some?
    ensures ParseInts([a, b, c]) == Ok([ParseInt(a).value, ParseInt(b).value, ParseInt(c).value])
  {
    var parts := [a, b, c];
    assert parts[0] == a && parts[1] == b && parts[2] == c;
    var r := ParseInts(parts);
    assert r.Ok?;
    assert r.value[0] == ParseInt(a).value && r.value[1] == ParseInt(b).value && r.value[2] == ParseInt(c).value;
    assert |r.value| == 3;
    assert r.value == [ParseInt(a).value, ParseInt(b).value, ParseInt(c).value];
    assert r == Ok(r.value);
  }

  // ---------------------------------------------------------------------------
  // The classification table

  /** A row of the classification table: a dictionary of cells. */
  type Row = map<string, Cell>

  /**
   * `_update_classification_table`'s body for one row, step by step: both
   * minima set to `None`, the maxima copied from `gamma_dry`/`gamma_wet`,
   * `ui_name` copied from `name`. A missing key raises KeyError and leaves the
   * assignments made before it.
   */
  function EnrichedRow(row: Row): (Row, Option<PyError>) {
    var row1 := row["gamma_dry_min" := CNone];
    if "gamma_dry" !in row1 then (row1, Some(KeyError("gamma_dry")))
    else
      var row2 := row1["gamma_dry_max" := row1["gamma_dry"]]["gamma_wet_min" := CNone];
      if "gamma_wet" !in row2 then (row2, Some(KeyError("gamma_wet")))
      else
        var row3 := row2["gamma_wet_max" := row2["gamma_wet"]];
        if "name" !in row3 then (row3, Some(KeyError("name")))
        else (row3["ui_name" := row3["name"]], None)
  }

  /** The keys `_update_classification_table` writes. */
  const EnrichedKeys: set<string> := {"gamma_dry_min", "gamma_dry_max", "gamma_wet_min", "gamma_wet_max", "ui_name"}

  /**
   * A row with `gamma_dry`, `gamma_wet` and `name` gains the gamma bounds and
   * the UI name and keeps every other entry; a row without them fails with
   * KeyError naming the first one missing.
   */
  lemma EnrichedRowFields(row: Row)
    ensures EnrichedRow(row).1.None? <==> "gamma_dry" in row && "gamma_wet" in row && "name" in row
    ensures EnrichedRow(row).1.None? ==>
      var r := EnrichedRow(row).0;
      r.Keys == row.Keys + EnrichedKeys &&
      r["gamma_dry_min"] == CNone && r["gamma_dry_max"] == row["gamma_dry"] &&
      r["gamma_wet_min"] == CNone && r["gamma_wet_max"] == row["gamma_wet"] &&
      r["ui_name"] == row["name"] &&
      forall k :: k in row && k !in EnrichedKeys ==> r[k] == row[k]
    ensures "gamma_dry" !in row ==> EnrichedRow(row).1 == Some(KeyError("gamma_dry"))
    ensures "gamma_dry" in row && "gamma_wet" !in row ==> EnrichedRow(row).1 == Some(KeyError("gamma_wet"))
    ensures "gamma_dry" in row && "gamma_wet" in row && "name" !in row ==> EnrichedRow(row).1 == Some(KeyError("name"))
  {
  }

  /** The first row, from `i` on, on which `step` fails. */
  function FirstFailure(rows: seq<Row>, i: nat, step: Row -> (Row, Option<PyError>)): (r: Option<nat>)
    requires i <= |rows|
    ensures r.Some? ==> i <= r.value < |rows| && step(rows[r.value]).1.Some?
    ensures r.Some? ==> forall j :: i <= j < r.value ==> step(rows[j]).1.None?
    ensures r.None? ==> forall j :: i <= j < |rows| ==> step(rows[j]).1.None?
    decreases |rows| - i
  {
    if i == |rows| then None
    else if step(rows[i]).1.Some? then Some(i)
    else FirstFailure(rows, i + 1, step)
  }

  /**
   * The in-place row loop: each row replaced by its updated copy in turn; an
   * error stops the loop with the failing row partly updated and the rows
   * after it untouched. The same table comes back on success.
   */
  method UpdateRows(table: array<Row>, step: Row -> (Row, Option<PyError>)) returns (r: Result<array<Row>>)
    modifies table
    ensures var stop := FirstFailure(old(table[..]), 0, step);
      (r.Ok? <==> stop.None?) && (r.Ok? ==> r.value == table) &&
      (r.Err? ==> r.error == step(old(table[stop.value])).1.value) &&
      forall i :: 0 <= i < table.Length ==>
        table[i] == if stop.None? || i <= stop.value then step(old(table[i])).0 else old(table[i])
  {
    ghost var before := table[..];
    for i := 0 to table.Length
      invariant FirstFailure(before, 0, step) == FirstFailure(before, i, step)
      invariant forall j :: 0 <= j < table.Length ==> table[j] == if j < i then step(before[j]).0 else before[j]
    {
      var (row, err) := step(table[i]);
      table[i] := row;
      if err.Some? {
        return Err(err.value);
      }
    }
    return Ok(table);
  }

  /** `_update_classification_table(classification_table)`. */
  method UpdateClassificationTable(table: array<Row>) returns (r: Result<array<Row>>)
    modifies table
    ensures var stop := FirstFailure(old(table[..]), 0, EnrichedRow);
      (r.Ok? <==> stop.None?) && (r.Ok? ==> r.value == table) &&
      (r.Err? ==> r.error == EnrichedRow(old(table[stop.value])).1.value) &&
      forall i :: 0 <= i < table.Length ==>
        table[i] == if stop.None? || i <= stop.value then EnrichedRow(old(table[i])).0 else old(table[i])
  {
    r := UpdateRows(table, EnrichedRow);
  }

  /** `_update_color_string`'s body for one row: a colour that is not yet a `Color` is converted. */
  function ColoredRow(row: Row): (Row, Option<PyError>) {
    if "color" !in row then (row, Some(KeyError("color")))
    else if row["color"].CColor? then (row, None)
    else
      match ConvertToColor(row["color"])
      case Ok(c) => (row["color" := CColor(c)], None)
      case Err(e) => (row, Some(e))
  }

  /** After a successful update every colour is a `Color`, the converted one, and nothing else in the row changes. */
  lemma ColoredRowFields(row: Row)
    ensures ColoredRow(row).1.None? <==> "color" in row && (row["color"].CColor? || ConvertToColor(row["color"]).Ok?)
    ensures ColoredRow(row).1.None? ==>
      var r := ColoredRow(row).0;
      r.Keys == row.Keys && r["color"].CColor? &&
      (!row["color"].CColor? ==> r["color"] == CColor(ConvertToColor(row["color"]).value)) &&
      forall k :: k in row && k != "color" ==> r[k] == row[k]
  {
  }

  /** `_update_color_string(classification_table)`. */
  method UpdateColorString(table: array<Row>) returns (r: Result<array<Row>>)
    modifies table
    ensures var stop := FirstFailure(old(table[..]), 0, ColoredRow);
      (r.Ok? <==> stop.None?) && (r.Ok? ==> r.value == table) &&
      (r.Err? ==> r.error == ColoredRow(old(table[stop.value])).1.value) &&
      forall i :: 0 <= i < table.Length ==>
        table[i] == if stop.None? || i <= stop.value then ColoredRow(old(table[i])).0 else old(table[i])
  {
    r := UpdateRows(table, ColoredRow);
  }

  // ---------------------------------------------------------------------------
  // The classification method and the water level

  /** The classification methods of the SDK, holding the table they were given. */
  datatype ClassificationMethod = RobertsonMethod(table: seq<Row>) | TableMethod(table: seq<Row>, groundWaterLevel: real)

  /** Which method a name selects: `robertson` or `table`, anything else is not implemented. */
  function MethodKind(name: string): (r: Result<bool>)
    ensures r.Ok? <==> name == "robertson" || name == "table"
    ensures r.Ok? ==> (r.value <==> name == "robertson")
    ensures r.Err? ==> r.error == UserError("The " + name + " method has not yet been implemented")
  {
    if name == "robertson" then Ok(true)
    else if name == "table" then Ok(false)
    else Err(UserError("The " + name + " method has not yet been implemented"))
  }

  /** `Classification`: the selected method's name and its table (`None` when the parameters hold none under that name). */
  class Classification {
    const methodName: string
    const table: Option<array<Row>>

    constructor (methodName: string, table: Option<array<Row>>)
      ensures this.methodName == methodName && this.table == table
    {
      this.methodName := methodName;
      this.table := table;
    }

    /**
     * `Classification.method(ground_water_level)`: the `table` property
     * updates the rows in place (colours for Robertson, gamma bounds for the
     * table method) and the method is built on them; another name raises
     * UserError, a missing table TypeError.
     */
    method Method(groundWaterLevel: real) returns (r: Result<ClassificationMethod>)
      modifies if table.Some? then {table.value} else {}
      ensures MethodKind(methodName).Err? ==> r == Err(MethodKind(methodName).error)
      ensures MethodKind(methodName).Ok? && table.None? ==> r == Err(TypeError)
      ensures r.Ok? ==> table.Some? && r.value.table == table.value[..]
      ensures r.Ok? ==> (r.value.RobertsonMethod? <==> methodName == "robertson")
      ensures r.Ok? && r.value.TableMethod? ==> r.value.groundWaterLevel == groundWaterLevel
      ensures r.Ok? && methodName == "robertson" ==>
        forall i :: 0 <= i < table.value.Length ==> table.value[i] == ColoredRow(old(table.value[i])).0
      ensures r.Ok? && methodName == "table" ==>
        forall i :: 0 <= i < table.value.Length ==> table.value[i] == EnrichedRow(old(table.value[i])).0
      ensures methodName == "robertson" && table.Some? ==>
        var stop := FirstFailure(old(table.value[..]), 0, ColoredRow);
        (r.Ok? <==> stop.None?) &&
        (r.Err? ==> r.error == ColoredRow(old(table.value[stop.value])).1.value) &&
        forall i :: 0 <= i < table.value.Length ==>
          table.value[i] == if stop.None? || i <= stop.value then ColoredRow(old(table.value[i])).0 else old(table.value[i])
      ensures methodName == "table" && table.Some? ==>
        var stop := FirstFailure(old(table.value[..]), 0, EnrichedRow);
        (r.Ok? <==> stop.None?) &&
        (r.Err? ==> r.error == EnrichedRow(old(table.value[stop.value])).1.value) &&
        forall i :: 0 <= i < table.value.Length ==>
          table.value[i] == if stop.None? || i <= stop.value then EnrichedRow(old(table.value[i])).0 else old(table.value[i])
    {
      if methodName == "robertson" {
        if table.None? {
          return Err(TypeError);
        }
        var rows := UpdateColorString(table.value);
        if rows.Err? {
          return Err(rows.error);
        }
        return Ok(RobertsonMethod(rows.value[..]));
      }
      if methodName == "table" {
        if table.None? {
          return Err(TypeError);
        }
        var rows := UpdateClassificationTable(table.value);
        if rows.Err? {
          return Err(rows.error);
        }
        return Ok(TableMethod(rows.value[..], groundWaterLevel));
      }
      return Err(UserError("The " + methodName + " method has not yet been implemented"));
    }
  }

  /** The parsed CPT object as `get_water_level` sees it: the attributes it may have. */
  datatype CptData = CptData(waterLevel: Option<real>, groundLevelWrtReference: Option<real>)

  /**
   * `get_water_level`: the parsed water level when there is one, else 1 m
   * below the surface (the reference level is in mm); with neither, the
   * attribute access raises.
   */
  function GetWaterLevel(cpt: CptData): (r: Result<real>)
    ensures cpt.waterLevel.Some? ==> r == Ok(cpt.waterLevel.value)
    ensures cpt.waterLevel.None? ==> (r.Ok? <==> cpt.groundLevelWrtReference.Some?)
    ensures cpt.waterLevel.None? && r.Ok? ==> (r.value + 1.0) * 1000.0 == cpt.groundLevelWrtReference.value
    ensures r.Err? ==> r.error == AttributeError("ground_level_wrt_reference")
  {
    if cpt.waterLevel.Some? then Ok(cpt.waterLevel.value)
    else if cpt.groundLevelWrtReference.Some? then Ok(cpt.groundLevelWrtReference.value / 1000.0 - 1.0)
    else Err(AttributeError("ground_level_wrt_reference"))
  }
}
