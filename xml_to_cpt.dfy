/**
 * `convert_xml_dict_to_cpt_dict`: from the flattened BRO XML record to the
 * internal CPT record. The `parameters` flags choose the columns of five
 * channels, the encoded value block is cut into rows, the rows are sorted by
 * the elevation column, the sentinel -999999 becomes `None`, units are
 * converted, and a missing friction ratio is derived as `fs / qc`.
 */
module XmlToCpt {
  import opened Base
  import opened Strings
  import opened Numbers
  import opened Sorting
  import opened CodeTables
  import opened XmlTree
  import opened OrderedDict

  // ---------------------------------------------------------------------------
  // The column mapping: channel key -> column index, in insertion order

  type ColumnMap = ODict<nat>

  /** The five channels of `measurement_data`. */
  const ChannelKeys: set<string> := {"Rf", "fs", "qc", "elevation", "corrected_depth"}

  predicate KeysAreChannels(m: ColumnMap) {
    forall i :: 0 <= i < |m| ==> m[i].0 in ChannelKeys
  }

  lemma SetKeepsChannels(m: ColumnMap, k: string, v: nat)
    requires KeysAreChannels(m) && k in ChannelKeys
    ensures KeysAreChannels(Set(m, k, v))
  {
    SetKeys(m, k, v);
    var r := Set(m, k, v);
    forall i | 0 <= i < |r| ensures r[i].0 in ChannelKeys {
      assert Keys(r)[i] == r[i].0;
      if i < |m| {
        assert Keys(m)[i] == m[i].0;
      }
    }
  }

  /** The inner loop over `GEF_XML_MAPPING` for parameter `i`, from mapping entry `j` on. */
  function AssignParameter(m: ColumnMap, i: nat, tag: string, flag: bool, j: nat): ColumnMap
    requires j <= |GefXmlMapping|
    decreases |GefXmlMapping| - j
  {
    if j == |GefXmlMapping| then m
    else
      var (key, xmlName) := GefXmlMapping[j];
      AssignParameter(if tag == xmlName && flag then Set(m, key, i) else m, i, tag, flag, j + 1)
  }

  /** The mapping after the first `n` parameters. */
  function MappingOf(params: seq<(string, bool)>, n: nat): ColumnMap
    requires n <= |params|
  {
    if n == 0 then [] else AssignParameter(MappingOf(params, n - 1), n - 1, params[n - 1].0, params[n - 1].1, 0)
  }

  /** The nested loop that fills `mapping`. */
  method ColumnMapping(params: seq<(string, bool)>) returns (mapping: ColumnMap)
    ensures mapping == MappingOf(params, |params|)
  {
    mapping := [];
    for i := 0 to |params|
      invariant mapping == MappingOf(params, i)
    {
      var (tag, value) := params[i];
      ghost var before := mapping;
      for j := 0 to |GefXmlMapping|
        invariant AssignParameter(mapping, i, tag, value, j) == AssignParameter(before, i, tag, value, 0)
      {
        var (key, xmlName) := GefXmlMapping[j];
        if tag == xmlName && value {
          mapping := Set<nat>(mapping, key, i);
        }
      }
    }
  }

  /** The XML label of a channel key in `GEF_XML_MAPPING`. */
  function LabelOf(key: string): Option<string> {
    if key == "Rf" then Some("frictionRatio")
    else if key == "fs" then Some("localFriction")
    else if key == "qc" then Some("coneResistance")
    else if key == "elevation" || key == "corrected_depth" then Some("depth")
    else None
  }

  lemma LabelOfMatchesTable(key: string, xmlName: string)
    ensures (exists t :: 0 <= t < |GefXmlMapping| && GefXmlMapping[t] == (key, xmlName)) <==> LabelOf(key) == Some(xmlName)
  {
    if LabelOf(key) == Some(xmlName) {
      var t := if key == "Rf" then 0 else if key == "fs" then 1 else if key == "qc" then 2
        else if key == "elevation" then 3 else 4;
      assert GefXmlMapping[t] == (key, xmlName);
    }
  }

  lemma {:induction false} AssignParameterGet(m: ColumnMap, i: nat, tag: string, flag: bool, j: nat, k: string)
    requires j <= |GefXmlMapping|
    ensures Get(AssignParameter(m, i, tag, flag, j), k) ==
      if flag && exists t :: j <= t < |GefXmlMapping| && GefXmlMapping[t] == (k, tag) then Some(i) else Get(m, k)
    decreases |GefXmlMapping| - j
  {
    if j < |GefXmlMapping| {
      var (key, xmlName) := GefXmlMapping[j];
      var m' := if tag == xmlName && flag then Set(m, key, i) else m;
      AssignParameterGet(m', i, tag, flag, j + 1, k);
      if tag == xmlName && flag {
        GetSet(m, key, i, k);
      }
      if flag && exists t :: j <= t < |GefXmlMapping| && GefXmlMapping[t] == (k, tag) {
        var t :| j <= t < |GefXmlMapping| && GefXmlMapping[t] == (k, tag);
        if t > j {
          assert exists t :: j + 1 <= t < |GefXmlMapping| && GefXmlMapping[t] == (k, tag);
        }
      }
    }
  }

  lemma {:induction false} AssignParameterKeeps(m: ColumnMap, i: nat, tag: string, flag: bool, j: nat)
    requires j <= |GefXmlMapping| && Distinct(m) && KeysAreChannels(m)
    ensures Distinct(AssignParameter(m, i, tag, flag, j)) && KeysAreChannels(AssignParameter(m, i, tag, flag, j))
    decreases |GefXmlMapping| - j
  {
    if j < |GefXmlMapping| {
      var (key, xmlName) := GefXmlMapping[j];
      if tag == xmlName && flag {
        SetDistinct(m, key, i);
        SetKeepsChannels(m, key, i);
      }
      AssignParameterKeeps(if tag == xmlName && flag then Set(m, key, i) else m, i, tag, flag, j + 1);
    }
  }

  /** Every mapping has distinct keys, all of them channels. */
  lemma {:induction false} MappingOfIsWellFormed(params: seq<(string, bool)>, n: nat)
    requires n <= |params|
    ensures Distinct(MappingOf(params, n)) && KeysAreChannels(MappingOf(params, n))
  {
    if n > 0 {
      MappingOfIsWellFormed(params, n - 1);
      AssignParameterKeeps(MappingOf(params, n - 1), n - 1, params[n - 1].0, params[n - 1].1, 0);
    }
  }

  /** The last of the first `n` parameters with tag `xmlName` and flag True. */
  function LastFlagged(params: seq<(string, bool)>, n: nat, xmlName: string): (r: Option<nat>)
    requires n <= |params|
    ensures r.Some? ==> r.value < n && params[r.value] == (xmlName, true)
    ensures r.Some? ==> forall i :: r.value < i < n ==> params[i] != (xmlName, true)
    ensures r.None? ==> forall i :: 0 <= i < n ==> params[i] != (xmlName, true)
  {
    if n == 0 then None
    else if params[n - 1] == (xmlName, true) then Some(n - 1)
    else LastFlagged(params, n - 1, xmlName)
  }

  /**
   * A channel is mapped to column `i` exactly when parameter `i` carries the
   * channel's XML label with flag True and no later parameter does; keys
   * outside `GEF_XML_MAPPING` are never mapped.
   */
  lemma {:induction false} MappingOfIsLastFlagged(params: seq<(string, bool)>, n: nat, k: string)
    requires n <= |params|
    ensures Get(MappingOf(params, n), k) == if LabelOf(k).Some? then LastFlagged(params, n, LabelOf(k).value) else None
  {
    if n > 0 {
      var (tag, flag) := params[n - 1];
      MappingOfIsLastFlagged(params, n - 1, k);
      AssignParameterGet(MappingOf(params, n - 1), n - 1, tag, flag, 0, k);
      LabelOfMatchesTable(k, tag);
    }
  }

  /** `elevation` and `corrected_depth` share the label `depth`, so they always read the same column. */
  lemma ElevationAndCorrectedDepthShareColumn(params: seq<(string, bool)>)
    ensures Get(MappingOf(params, |params|), "elevation") == Get(MappingOf(params, |params|), "corrected_depth")
  {
    MappingOfIsLastFlagged(params, |params|, "elevation");
    MappingOfIsLastFlagged(params, |params|, "corrected_depth");
  }

  // ---------------------------------------------------------------------------
  // Rows of the value block

  /** `s.split(sep)` with the separator taken from the record. */
  function SplitOn(s: string, sepF: Flat): Result<seq<string>> {
    var sep :- TextOrNone(sepF);
    SplitBy(s, sep)
  }

  /** Each block split on the token separator; the first failure raises. */
  function SplitEach(blocks: seq<string>, tok: Flat): (r: Result<seq<Row>>)
    ensures r.Ok? ==> |r.value| == |blocks| && forall i :: 0 <= i < |blocks| ==> SplitOn(blocks[i], tok) == Ok(r.value[i])
  {
    if blocks == [] then Ok([])
    else
      var first :- SplitOn(blocks[0], tok);
      var rest :- SplitEach(blocks[1..], tok);
      Ok([first] + rest)
  }

  /** `[row.split(tok) for row in values.split(blk)[:-1]]`. */
  function SplitRows(values: string, tok: Flat, blk: Flat): Result<seq<Row>> {
    var blocks :- SplitOn(values, blk);
    SplitEach(if blocks == [] then [] else blocks[..|blocks| - 1], tok)
  }

  /** Rows written as fields joined by `tok`, each row closed by `blk`. */
  function EncodeRows(rows: seq<Row>, tok: string, blk: string): string {
    if rows == [] then "" else Join(rows[0], tok) + blk + EncodeRows(rows[1..], tok, blk)
  }

  /** Fields that hold neither separator character. */
  predicate CleanFields(rows: seq<Row>, t: char, b: char) {
    forall i, j :: 0 <= i < |rows| && 0 <= j < |rows[i]| ==> t !in rows[i][j] && b !in rows[i][j]
  }

  lemma {:induction false} EncodeRowsAsJoin(rows: seq<Row>, tok: string, blk: string)
    ensures EncodeRows(rows, tok, blk) == Join(seq(|rows|, i requires 0 <= i < |rows| => Join(rows[i], tok)) + [""], blk)
    decreases |rows|
  {
    var blocks := seq(|rows|, i requires 0 <= i < |rows| => Join(rows[i], tok));
    if rows != [] {
      EncodeRowsAsJoin(rows[1..], tok, blk);
      var rest := seq(|rows[1..]|, i requires 0 <= i < |rows[1..]| => Join(rows[1..][i], tok));
      assert blocks + [""] == [Join(rows[0], tok)] + (rest + [""]);
      JoinCons(Join(rows[0], tok), rest + [""], blk);
    }
  }

  /**
   * Splitting recovers the rows from their encoding, for one-character
   * separators that no field contains and rows that are not empty.
   */
  lemma SplitRowsOfEncoded(rows: seq<Row>, t: char, b: char)
    requires t != b && CleanFields(rows, t, b)
    requires forall i :: 0 <= i < |rows| ==> |rows[i]| >= 1
    ensures SplitRows(EncodeRows(rows, [t], [b]), FText(Some([t])), FText(Some([b]))) == Ok(rows)
  {
    var blocks := seq(|rows|, i requires 0 <= i < |rows| => Join(rows[i], [t]));
    EncodeRowsAsJoin(rows, [t], [b]);
    forall i | 0 <= i < |blocks + [""]| ensures b !in (blocks + [""])[i] {
      if i < |rows| {
        JoinAvoids(rows[i], [t], b);
      }
    }
    SplitJoin(blocks + [""], [b]);
    assert (blocks + [""])[..|blocks|] == blocks;
    forall i | 0 <= i < |rows| ensures SplitOn(blocks[i], FText(Some([t]))) == Ok(rows[i]) {
      SplitJoin(rows[i], [t]);
    }
    SplitEachOfSplits(blocks, rows, FText(Some([t])));
  }

  lemma {:induction false} SplitEachOfSplits(blocks: seq<string>, rows: seq<Row>, tok: Flat)
    requires |blocks| == |rows| && forall i :: 0 <= i < |rows| ==> SplitOn(blocks[i], tok) == Ok(rows[i])
    ensures SplitEach(blocks, tok) == Ok(rows)
    decreases |blocks|
  {
    if blocks != [] {
      assert SplitEach(blocks[1..], tok) == Ok(rows[1..]) by {
        SplitEachOfSplits(blocks[1..], rows[1..], tok);
      }
      assert SplitOn(blocks[0], tok) == Ok(rows[0]);
      assert rows == [rows[0]] + rows[1..];
    }
  }

  // ---------------------------------------------------------------------------
  // Sorting and filling the channels

  const MissingElevation: PyError := UserException("Missing \"elevation\" in XML data")

  /**
   * `sorted(data_rows, key=lambda x: float(x[mapping['elevation']]))`: the key is
   * only computed when there is a row, and a missing `elevation` raises the
   * user-facing error.
   */
  function SortByElevation(rows: seq<Row>, mapping: ColumnMap): (r: Result<seq<Row>>)
    ensures rows == [] ==> r == Ok([])
    ensures rows != [] && Get(mapping, "elevation").None? ==> r == Err(MissingElevation)
    ensures rows != [] && Get(mapping, "elevation").Some? ==> r == SortRowsByColumn(rows, Get(mapping, "elevation").value)
  {
    if rows == [] then Ok([])
    else match Get(mapping, "elevation")
      case None => Err(MissingElevation)
      case Some(c) => SortRowsByColumn(rows, c)
  }

  const Sentinel: real := -999999.0

  /** One converted cell: the sentinel becomes None, elevation and corrected depth go to millimetres, Rf from percent to a fraction. */
  function CellValue(key: string, v: real, offset: int): (c: Option<real>)
    ensures c.None? <==> v == Sentinel
    ensures c.Some? && key == "Rf" ==> c.value * 100.0 == v
    ensures c.Some? && key !in {"Rf", "elevation", "corrected_depth"} ==> c.value == v
    ensures c.Some? && key == "elevation" ==> c.value == (offset - Trunc(v * 1000.0)) as real
    ensures c.Some? && key == "corrected_depth" ==> c.value == Trunc(v * 1000.0) as real
  {
    if v == Sentinel then None
    else if key == "elevation" then Some((offset - Trunc(v * 1000.0)) as real)
    else if key == "corrected_depth" then Some(Trunc(v * 1000.0) as real)
    else if key == "Rf" then Some(v / 100.0)
    else Some(v)
  }

  /** A channel read from column `col` of every row. */
  function Channel(rows: seq<Row>, col: nat, key: string, offset: int): (r: seq<Option<real>>)
    ensures |r| == |rows|
  {
    seq(|rows|, n requires 0 <= n < |rows| => CellValue(key, KeyOrZero(rows[n], col), offset))
  }

  /** A mapped channel read from its column, an unmapped one empty. */
  function ExpectedChannel(rows: seq<Row>, mapping: ColumnMap, k: string, offset: int): seq<Option<real>> {
    match Get(mapping, k)
    case Some(c) => Channel(rows, c, k, offset)
    case None => []
  }

  /** What the fill loop produces: each channel as `ExpectedChannel` gives it. */
  function ExpectedData(rows: seq<Row>, mapping: ColumnMap, offset: int): (r: Channels)
    ensures r.Keys == ChannelKeys
  {
    map k | k in ChannelKeys :: ExpectedChannel(rows, mapping, k, offset)
  }

  /** The error of the first unreadable mapped column of `row`, from mapping entry `t` on. */
  function RowError(row: Row, mapping: ColumnMap, t: nat): Option<PyError>
    requires t <= |mapping|
    decreases |mapping| - t
  {
    if t == |mapping| then None
    else if KeyOf(row, mapping[t].1).Err? then Some(KeyOf(row, mapping[t].1).error)
    else RowError(row, mapping, t + 1)
  }

  /** The error of the first unreadable cell, row by row from row `n`. */
  function CellError(rows: seq<Row>, mapping: ColumnMap, n: nat): Option<PyError>
    requires n <= |rows|
    decreases |rows| - n
  {
    if n == |rows| then None
    else if RowError(rows[n], mapping, 0).Some? then RowError(rows[n], mapping, 0)
    else CellError(rows, mapping, n + 1)
  }

  /** Every mapped column of every row holds a number. */
  predicate CellsReadable(rows: seq<Row>, mapping: ColumnMap) {
    forall n, t :: 0 <= n < |rows| && 0 <= t < |mapping| ==> KeyOf(rows[n], mapping[t].1).Ok?
  }

  lemma RowErrorNoneIff(row: Row, mapping: ColumnMap, t: nat)
    requires t <= |mapping|
    ensures RowError(row, mapping, t).None? <==> forall t' :: t <= t' < |mapping| ==> KeyOf(row, mapping[t'].1).Ok?
  {
    if RowError(row, mapping, t).None? {
      forall t' | t <= t' < |mapping| ensures KeyOf(row, mapping[t'].1).Ok? {
        RowErrorNoneAt(row, mapping, t, t');
        assert RowError(row, mapping, t').None?;
      }
    } else {
      RowErrorSomeAt(row, mapping, t);
    }
  }

  /** No error from column `t` on means none from any later column on either. */
  lemma {:induction false} RowErrorNoneAt(row: Row, mapping: ColumnMap, t: nat, t': nat)
    requires t <= t' <= |mapping| && RowError(row, mapping, t).None?
    ensures RowError(row, mapping, t').None?
    decreases t' - t
  {
    if t < t' {
      RowErrorNoneAt(row, mapping, t + 1, t');
    }
  }

  /** An error from column `t` on comes from some column `t'`. */
  lemma {:induction false} RowErrorSomeAt(row: Row, mapping: ColumnMap, t: nat)
    requires t <= |mapping| && RowError(row, mapping, t).Some?
    ensures exists t' :: t <= t' < |mapping| && KeyOf(row, mapping[t'].1).Err?
    decreases |mapping| - t
  {
    if KeyOf(row, mapping[t].1).Ok? {
      RowErrorSomeAt(row, mapping, t + 1);
    }
  }

  lemma {:induction false} RowErrorKind(row: Row, mapping: ColumnMap, t: nat)
    requires t <= |mapping|
    ensures RowError(row, mapping, t).Some? ==> RowError(row, mapping, t).value in {IndexError, ValueError}
    decreases |mapping| - t
  {
    if t < |mapping| {
      RowErrorKind(row, mapping, t + 1);
    }
  }

  lemma CellErrorNoneIff(rows: seq<Row>, mapping: ColumnMap, n: nat)
    requires n <= |rows|
    ensures CellError(rows, mapping, n).None? <==> forall n' :: n <= n' < |rows| ==> RowError(rows[n'], mapping, 0).None?
  {
    if CellError(rows, mapping, n).None? {
      forall n' | n <= n' < |rows| ensures RowError(rows[n'], mapping, 0).None? {
        CellErrorNoneAt(rows, mapping, n, n');
      }
    } else {
      CellErrorSomeAt(rows, mapping, n);
    }
  }

  /** No error from row `n` on means row `n'` reads. */
  lemma {:induction false} CellErrorNoneAt(rows: seq<Row>, mapping: ColumnMap, n: nat, n': nat)
    requires n <= n' < |rows| && CellError(rows, mapping, n).None?
    ensures RowError(rows[n'], mapping, 0).None?
    decreases n' - n
  {
    assert RowError(rows[n], mapping, 0).None?;
    if n < n' {
      assert CellError(rows, mapping, n + 1).None?;
      CellErrorNoneAt(rows, mapping, n + 1, n');
    }
  }

  /** An error from row `n` on comes from some row `n'`. */
  lemma {:induction false} CellErrorSomeAt(rows: seq<Row>, mapping: ColumnMap, n: nat)
    requires n <= |rows| && CellError(rows, mapping, n).Some?
    ensures exists n' :: n <= n' < |rows| && RowError(rows[n'], mapping, 0).Some?
    decreases |rows| - n
  {
    if RowError(rows[n], mapping, 0).None? {
      CellErrorSomeAt(rows, mapping, n + 1);
    }
  }

  lemma {:induction false} CellErrorKind(rows: seq<Row>, mapping: ColumnMap, n: nat)
    requires n <= |rows|
    ensures CellError(rows, mapping, n).Some? ==> CellError(rows, mapping, n).value in {IndexError, ValueError}
    decreases |rows| - n
  {
    if n < |rows| {
      CellErrorKind(rows, mapping, n + 1);
      RowErrorKind(rows[n], mapping, 0);
    }
  }

  /** The fill either reads every cell or stops at an unreadable one, with IndexError or ValueError. */
  lemma FillFailsIffUnreadable(rows: seq<Row>, mapping: ColumnMap)
    ensures CellError(rows, mapping, 0).None? <==> CellsReadable(rows, mapping)
    ensures CellError(rows, mapping, 0).Some? ==> CellError(rows, mapping, 0).value in {IndexError, ValueError}
  {
    CellErrorNoneIff(rows, mapping, 0);
    CellErrorKind(rows, mapping, 0);
    forall n | 0 <= n < |rows| {
      RowErrorNoneIff(rows[n], mapping, 0);
    }
  }

  function FillSpec(rows: seq<Row>, mapping: ColumnMap, offset: int): Result<Channels> {
    match CellError(rows, mapping, 0)
    case Some(e) => Err(e)
    case None => Ok(ExpectedData(rows, mapping, offset))
  }

  /** Keys handled by mapping entries `0..t`. */
  predicate Among(m: ColumnMap, t: nat, k: string) {
    exists t' :: 0 <= t' < t && t' < |m| && m[t'].0 == k
  }

  /** The channels while row `n` is being appended: entries `0..t` of the mapping are done. */
  predicate PartialRow(md: Channels, before: Channels, rows: seq<Row>, n: nat, mapping: ColumnMap, t: nat, offset: int)
    requires n < |rows|
  {
    md.Keys == ChannelKeys && before.Keys == ChannelKeys &&
    forall k :: k in ChannelKeys ==>
      md[k] == if Among(mapping, t, k) then ExpectedChannel(rows[..n + 1], mapping, k, offset) else before[k]
  }

  lemma FillStep(md: Channels, before: Channels, rows: seq<Row>, n: nat, mapping: ColumnMap, t: nat, offset: int, v: real)
    requires n < |rows| && t < |mapping| && Distinct(mapping) && KeysAreChannels(mapping)
    requires before == ExpectedData(rows[..n], mapping, offset)
    requires PartialRow(md, before, rows, n, mapping, t, offset)
    requires KeyOf(rows[n], mapping[t].1) == Ok(v)
    ensures var key := mapping[t].0;
      PartialRow(md[key := md[key] + [CellValue(key, v, offset)]], before, rows, n, mapping, t + 1, offset)
  {
    var key := mapping[t].0;
    var md' := md[key := md[key] + [CellValue(key, v, offset)]];
    assert key in ChannelKeys;
    assert md'.Keys == ChannelKeys;
    forall k | k in ChannelKeys
      ensures md'[k] == if Among(mapping, t + 1, k) then ExpectedChannel(rows[..n + 1], mapping, k, offset) else before[k]
    {
      FillStepAt(md, before, rows, n, mapping, t, offset, v, k);
    }
  }

  /** `FillStep` for one channel `k`. */
  lemma FillStepAt(md: Channels, before: Channels, rows: seq<Row>, n: nat, mapping: ColumnMap, t: nat, offset: int, v: real, k: string)
    requires n < |rows| && t < |mapping| && Distinct(mapping) && KeysAreChannels(mapping)
    requires before == ExpectedData(rows[..n], mapping, offset)
    requires PartialRow(md, before, rows, n, mapping, t, offset)
    requires KeyOf(rows[n], mapping[t].1) == Ok(v) && k in ChannelKeys
    ensures var key := mapping[t].0;
      var md' := md[key := md[key] + [CellValue(key, v, offset)]];
      md'[k] == if Among(mapping, t + 1, k) then ExpectedChannel(rows[..n + 1], mapping, k, offset) else before[k]
  {
    var (key, col) := mapping[t];
    AmongStep(mapping, t, k);
    if k == key {
      NotAmongYet(mapping, t);
      assert md[key] == before[key];
      GetAt(mapping, t);
      assert KeyOrZero(rows[n], col) == v;
      ChannelSnoc(rows, n, col, key, offset);
      assert before[key] == Channel(rows[..n], col, key, offset);
    }
  }

  /** Reading one more row appends its cell to a channel. */
  lemma ChannelSnoc(rows: seq<Row>, n: nat, col: nat, key: string, offset: int)
    requires n < |rows|
    ensures Channel(rows[..n + 1], col, key, offset) == Channel(rows[..n], col, key, offset) + [CellValue(key, KeyOrZero(rows[n], col), offset)]
  {
    assert rows[..n + 1][..n] == rows[..n];
  }

  lemma AmongStep(m: ColumnMap, t: nat, k: string)
    requires t < |m|
    ensures Among(m, t + 1, k) <==> Among(m, t, k) || m[t].0 == k
  {
    if Among(m, t + 1, k) && !Among(m, t, k) {
      var t' :| 0 <= t' < t + 1 && t' < |m| && m[t'].0 == k;
      assert t' == t;
    }
  }

  lemma NotAmongYet(m: ColumnMap, t: nat)
    requires Distinct(m) && t < |m|
    ensures !Among(m, t, m[t].0)
  {
  }

  lemma FillRowDone(md: Channels, before: Channels, rows: seq<Row>, n: nat, mapping: ColumnMap, offset: int)
    requires n < |rows| && before == ExpectedData(rows[..n], mapping, offset)
    requires PartialRow(md, before, rows, n, mapping, |mapping|, offset)
    ensures md == ExpectedData(rows[..n + 1], mapping, offset)
  {
    forall k | k in ChannelKeys ensures md[k] == ExpectedData(rows[..n + 1], mapping, offset)[k] {
      if !Among(mapping, |mapping|, k) {
        GetAbsent(mapping, k);
      }
    }
  }

  /** The row loop of `convert_xml_dict_to_cpt_dict`: one append per row and mapped channel. */
  method FillMeasurementData(rows: seq<Row>, mapping: ColumnMap, offset: int) returns (r: Result<Channels>)
    requires Distinct(mapping) && KeysAreChannels(mapping)
    ensures r == FillSpec(rows, mapping, offset)
  {
    var md: Channels := map k | k in ChannelKeys :: [];
    assert md == ExpectedData(rows[..0], mapping, offset);
    for n := 0 to |rows|
      invariant CellError(rows, mapping, n) == CellError(rows, mapping, 0)
      invariant md == ExpectedData(rows[..n], mapping, offset)
    {
      var row := rows[n];
      ghost var before := md;
      for t := 0 to |mapping|
        invariant RowError(row, mapping, t) == RowError(row, mapping, 0)
        invariant PartialRow(md, before, rows, n, mapping, t, offset)
      {
        var (key, col) := mapping[t];
        if col >= |row| {
          return Err(IndexError);
        }
        var v := ParseFloat(row[col]);
        if v.None? {
          return Err(ValueError);
        }
        FillStep(md, before, rows, n, mapping, t, offset, v.value);
        md := md[key := md[key] + [CellValue(key, v.value, offset)]];
      }
      FillRowDone(md, before, rows, n, mapping, offset);
    }
    assert rows[..|rows|] == rows;
    return Ok(md);
  }

  /** `[fs / qc for qc, fs in zip(qc_list, fs_list)]`: None operands raise TypeError, a zero cone resistance ZeroDivisionError. */
  function DeriveRf(qc: seq<Option<real>>, fs: seq<Option<real>>): (r: Result<seq<Option<real>>>)
    ensures r.Ok? <==> forall i :: 0 <= i < |qc| && i < |fs| ==> qc[i].Some? && fs[i].Some? && qc[i].value != 0.0
    ensures r.Ok? ==> |r.value| == (if |qc| < |fs| then |qc| else |fs|)
    ensures r.Ok? ==> forall i :: 0 <= i < |r.value| ==> qc[i].Some? && qc[i].value != 0.0 && r.value[i] == Some(fs[i].value / qc[i].value)
  {
    if qc == [] || fs == [] then Ok([])
    else if fs[0].None? || qc[0].None? then Err(TypeError)
    else if qc[0].value == 0.0 then Err(ZeroDivisionError)
    else
      var rest :- DeriveRf(qc[1..], fs[1..]);
      Ok([Some(fs[0].value / qc[0].value)] + rest)
  }

  /** `if not measurement_data['Rf']`: an empty friction-ratio channel is derived from the others. */
  function WithRf(md: Channels): (r: Result<Channels>)
    requires md.Keys == ChannelKeys
    ensures r.Ok? ==> r.value.Keys == ChannelKeys
    ensures md["Rf"] != [] ==> r == Ok(md)
    ensures r.Ok? ==> forall k :: k in ChannelKeys && k != "Rf" ==> r.value[k] == md[k]
    ensures md["Rf"] == [] ==> (r.Ok? <==> DeriveRf(md["qc"], md["fs"]).Ok?)
    ensures md["Rf"] == [] && r.Ok? ==> r.value["Rf"] == DeriveRf(md["qc"], md["fs"]).value
    ensures md["Rf"] == [] && r.Err? ==> r.error == DeriveRf(md["qc"], md["fs"]).error
  {
    if md["Rf"] != [] then Ok(md)
    else
      var rf :- DeriveRf(md["qc"], md["fs"]);
      Ok(md["Rf" := rf])
  }

  // ---------------------------------------------------------------------------
  // The stages of the conversion, in the order the source evaluates them

  /** `munchify(xml_dict).dispatchDocument.CPT_O`. */
  function CptO(xmlDict: Flat): Result<Flat> {
    Path(xmlDict, ["dispatchDocument", "CPT_O"])
  }

  /** `int(float(offset) * 1000)`: the ground level in whole millimetres. */
  function OffsetMm(xmlData: Flat): Result<int> {
    var f :- Path(xmlData, ["deliveredVerticalPosition", "offset"]);
    var v :- FloatOf(f);
    Ok(Trunc(v * 1000.0))
  }

  function ParametersOf(xmlData: Flat): Result<seq<(string, bool)>> {
    var p :- Path(xmlData, ["conePenetrometerSurvey", "parameters"]);
    if p.FParams? then Ok(p.params) else Err(TypeError)
  }

  const EncodingPath: seq<string> := ["conePenetrometerSurvey", "conePenetrationTest", "cptResult", "encoding", "TextEncoding"]

  /** Token and block separators: `','` and `';'` unless `TextEncoding` is truthy, then its own two. */
  function Separators(xmlData: Flat): (r: Result<(Flat, Flat)>)
    ensures Path(xmlData, EncodingPath).Ok? && !Truthy(Path(xmlData, EncodingPath).value) ==> r == Ok((FText(Some(",")), FText(Some(";"))))
    ensures r.Ok? ==> Path(xmlData, EncodingPath).Ok?
    ensures r.Ok? && Truthy(Path(xmlData, EncodingPath).value) ==>
      var enc := Path(xmlData, EncodingPath).value;
      enc.FDict? && "tokenSeparator" in enc.entries && "blockSeparator" in enc.entries &&
      r.value == (enc.entries["tokenSeparator"], enc.entries["blockSeparator"])
  {
    var enc :- Path(xmlData, EncodingPath);
    if Truthy(enc) then
      var tok :- Attr(enc, "tokenSeparator");
      var blk :- Attr(enc, "blockSeparator");
      Ok((tok, blk))
    else Ok((FText(Some(",")), FText(Some(";"))))
  }

  /** The rows of `cptResult['values']`. */
  function DataRows(xmlData: Flat): Result<seq<Row>> {
    var seps :- Separators(xmlData);
    var cptResult :- Path(xmlData, ["conePenetrometerSurvey", "conePenetrationTest", "cptResult"]);
    var valuesF :- Item(cptResult, "values");
    var values :- StrOf(valuesF, "split");
    SplitRows(values, seps.0, seps.1)
  }

  /** The `measurement_data` dictionary. */
  function Measurements(xmlData: Flat): (r: Result<Channels>)
    ensures r.Ok? ==> r.value.Keys == ChannelKeys
  {
    var offset :- OffsetMm(xmlData);
    var params :- ParametersOf(xmlData);
    var mapping := MappingOf(params, |params|);
    var rows :- DataRows(xmlData);
    var sorted :- SortByElevation(rows, mapping);
    var md :- FillSpec(sorted, mapping, offset);
    WithRf(md)
  }

  // ---------------------------------------------------------------------------
  // Headers

  /** The five cone dimensions of the header. */
  datatype ConeGeometry = ConeGeometry(
    coneTipArea: Option<real>,
    frictionSleeveArea: Option<real>,
    surfaceAreaQuotientTip: Option<real>,
    surfaceAreaQuotientFrictionSleeve: Option<real>,
    distanceConeToCentreFrictionSleeve: Option<real>)

  /** `float(source.path) if presence in keys.keys() else None`. */
  function FloatIfPresent(keys: Flat, presence: string, source: Flat, path: seq<string>): (r: Result<Option<real>>)
    ensures keys.FDict? && presence !in keys.entries ==> r == Ok(None)
    ensures keys.FDict? && presence in keys.entries && Path(source, path).Ok? ==> r == (match FloatOf(Path(source, path).value) case Ok(v) => Ok(Some(v)) case Err(e) => Err(e))
  {
    if !keys.FDict? then Err(AttributeError("keys"))
    else if presence in keys.entries then
      var f :- Path(source, path);
      var v :- FloatOf(f);
      Ok(Some(v))
    else Ok(None)
  }

  const PenetrometerPath: seq<string> := ["conePenetrometerSurvey", "conePenetrometer"]

  /** The cone dimensions as the source computes them: presence is tested among the keys of `CPT_O` itself. */
  function ConeGeometryAsWritten(xmlData: Flat): Result<ConeGeometry> {
    var csq :- FloatIfPresent(xmlData, "coneSurfaceQuotient", xmlData, PenetrometerPath + ["coneSurfaceQuotient"]);
    var fsq :- FloatIfPresent(xmlData, "frictionSleeveSurfaceQuotient", xmlData, PenetrometerPath + ["coneSurfaceQuotient"]);
    var ctd :- FloatIfPresent(xmlData, "coneToFrictionSleeveDistance", xmlData, PenetrometerPath + ["coneToFrictionSleeveDistance"]);
    var csa :- FloatIfPresent(xmlData, "coneSurfaceArea", xmlData, PenetrometerPath + ["coneSurfaceArea"]);
    var fsa :- FloatIfPresent(xmlData, "frictionSleeveSurfaceArea", xmlData, PenetrometerPath + ["frictionSleeveSurfaceArea"]);
    Ok(ConeGeometry(csa, fsa, csq, fsq, ctd))
  }

  /** The cone dimensions as intended: each one read from its own field of `conePenetrometer`, when that field is there. */
  function ConeGeometryOf(xmlData: Flat): Result<ConeGeometry> {
    var cp :- Path(xmlData, PenetrometerPath);
    var csq :- FloatIfPresent(cp, "coneSurfaceQuotient", cp, ["coneSurfaceQuotient"]);
    var fsq :- FloatIfPresent(cp, "frictionSleeveSurfaceQuotient", cp, ["frictionSleeveSurfaceQuotient"]);
    var ctd :- FloatIfPresent(cp, "coneToFrictionSleeveDistance", cp, ["coneToFrictionSleeveDistance"]);
    var csa :- FloatIfPresent(cp, "coneSurfaceArea", cp, ["coneSurfaceArea"]);
    var fsa :- FloatIfPresent(cp, "frictionSleeveSurfaceArea", cp, ["frictionSleeveSurfaceArea"]);
    Ok(ConeGeometry(csa, fsa, csq, fsq, ctd))
  }

  const GeometryFields: set<string> :=
    {"coneSurfaceQuotient", "frictionSleeveSurfaceQuotient", "coneToFrictionSleeveDistance", "coneSurfaceArea", "frictionSleeveSurfaceArea"}

  /** As written, a `CPT_O` without the five names at its own level (the BRO layout) gets no cone dimensions at all. */
  lemma ConeGeometryAsWrittenIsAlwaysEmpty(xmlData: Flat)
    requires xmlData.FDict? && forall name :: name in GeometryFields ==> name !in xmlData.entries
    ensures ConeGeometryAsWritten(xmlData) == Ok(ConeGeometry(None, None, None, None, None))
  {
  }

  /** A record whose cone penetrometer has tip area `area` and the two quotients `tip` and `sleeve`. */
  function GeometryExample(area: string, tip: string, sleeve: string): Flat {
    FDict(map["conePenetrometerSurvey" := FDict(map["conePenetrometer" := FDict(map[
      "coneSurfaceArea" := FText(Some(area)),
      "coneSurfaceQuotient" := FText(Some(tip)),
      "frictionSleeveSurfaceQuotient" := FText(Some(sleeve))])])])
  }

  /** Any readable tip area is lost as written and kept by the corrected reading. */
  lemma ConeTipAreaIsLost(area: string, tip: string, sleeve: string)
    requires ParseFloat(area).Some? && ParseFloat(tip).Some? && ParseFloat(sleeve).Some?
    ensures ConeGeometryAsWritten(GeometryExample(area, tip, sleeve)).Ok?
    ensures ConeGeometryAsWritten(GeometryExample(area, tip, sleeve)).value.coneTipArea == None
    ensures ConeGeometryOf(GeometryExample(area, tip, sleeve)).Ok?
    ensures ConeGeometryOf(GeometryExample(area, tip, sleeve)).value.coneTipArea == ParseFloat(area)
    ensures ConeGeometryOf(GeometryExample(area, tip, sleeve)).value.surfaceAreaQuotientFrictionSleeve == ParseFloat(sleeve)
  {
    ConeGeometryAsWrittenIsAlwaysEmpty(GeometryExample(area, tip, sleeve));
    ExampleReadByCorrected(area, tip, sleeve);
  }

  /** The corrected reading of the example record finds the tip area and the sleeve quotient. */
  lemma ExampleReadByCorrected(area: string, tip: string, sleeve: string)
    requires ParseFloat(area).Some? && ParseFloat(tip).Some? && ParseFloat(sleeve).Some?
    ensures ConeGeometryOf(GeometryExample(area, tip, sleeve)).Ok?
    ensures ConeGeometryOf(GeometryExample(area, tip, sleeve)).value.coneTipArea == ParseFloat(area)
    ensures ConeGeometryOf(GeometryExample(area, tip, sleeve)).value.surfaceAreaQuotientFrictionSleeve == ParseFloat(sleeve)
  {
    GeometryExamplePaths(area, tip, sleeve);
    var cp := GeometryExample(area, tip, sleeve).entries["conePenetrometerSurvey"].entries["conePenetrometer"];
    assert FloatIfPresent(cp, "coneSurfaceQuotient", cp, ["coneSurfaceQuotient"]) == Ok(ParseFloat(tip));
    assert FloatIfPresent(cp, "frictionSleeveSurfaceQuotient", cp, ["frictionSleeveSurfaceQuotient"]) == Ok(ParseFloat(sleeve));
    assert FloatIfPresent(cp, "coneToFrictionSleeveDistance", cp, ["coneToFrictionSleeveDistance"]) == Ok(None);
    assert FloatIfPresent(cp, "coneSurfaceArea", cp, ["coneSurfaceArea"]) == Ok(ParseFloat(area));
    assert FloatIfPresent(cp, "frictionSleeveSurfaceArea", cp, ["frictionSleeveSurfaceArea"]) == Ok(None);
  }

  /** Where the fields of the example record are found. */
  lemma GeometryExamplePaths(area: string, tip: string, sleeve: string)
    ensures var cp := GeometryExample(area, tip, sleeve).entries["conePenetrometerSurvey"].entries["conePenetrometer"];
      Path(GeometryExample(area, tip, sleeve), PenetrometerPath) == Ok(cp) &&
      Path(cp, ["coneSurfaceArea"]) == Ok(FText(Some(area))) &&
      Path(cp, ["coneSurfaceQuotient"]) == Ok(FText(Some(tip))) &&
      Path(cp, ["frictionSleeveSurfaceQuotient"]) == Ok(FText(Some(sleeve)))
  {
    var x := GeometryExample(area, tip, sleeve);
    var survey := x.entries["conePenetrometerSurvey"];
    var cp := survey.entries["conePenetrometer"];
    assert Path(survey, ["conePenetrometer"]) == Ok(cp) by {
      assert Path(cp, []) == Ok(cp);
    }
    assert Path(cp, ["coneSurfaceArea"]) == Ok(FText(Some(area))) by {
      assert Path(FText(Some(area)), []) == Ok(FText(Some(area)));
    }
    assert Path(cp, ["coneSurfaceQuotient"]) == Ok(FText(Some(tip))) by {
      assert Path(FText(Some(tip)), []) == Ok(FText(Some(tip)));
    }
    assert Path(cp, ["frictionSleeveSurfaceQuotient"]) == Ok(FText(Some(sleeve))) by {
      assert Path(FText(Some(sleeve)), []) == Ok(FText(Some(sleeve)));
    }
  }

  /** As written, the friction-sleeve quotient is the cone quotient whenever it is reported. */
  lemma SleeveQuotientReadsConeQuotient(xmlData: Flat)
    requires ConeGeometryAsWritten(xmlData).Ok?
    ensures ConeGeometryAsWritten(xmlData).value.surfaceAreaQuotientFrictionSleeve.Some? ==>
      ConeGeometryAsWritten(xmlData).value.surfaceAreaQuotientFrictionSleeve ==
      Some(FloatOf(Path(xmlData, PenetrometerPath + ["coneSurfaceQuotient"]).value).value)
  {
  }

  /** The corrected reading reports a dimension exactly when `conePenetrometer` has it, with its own value. */
  lemma ConeGeometryOfReadsOwnFields(xmlData: Flat)
    requires ConeGeometryOf(xmlData).Ok?
    ensures var cp := Path(xmlData, PenetrometerPath).value; var g := ConeGeometryOf(xmlData).value;
      cp.FDict? &&
      (g.coneTipArea.Some? <==> "coneSurfaceArea" in cp.entries) &&
      (g.frictionSleeveArea.Some? <==> "frictionSleeveSurfaceArea" in cp.entries) &&
      (g.surfaceAreaQuotientTip.Some? <==> "coneSurfaceQuotient" in cp.entries) &&
      (g.surfaceAreaQuotientFrictionSleeve.Some? <==> "frictionSleeveSurfaceQuotient" in cp.entries) &&
      (g.distanceConeToCentreFrictionSleeve.Some? <==> "coneToFrictionSleeveDistance" in cp.entries) &&
      (g.surfaceAreaQuotientFrictionSleeve.Some? ==>
        g.surfaceAreaQuotientFrictionSleeve == Some(FloatOf(cp.entries["frictionSleeveSurfaceQuotient"]).value))
  {
  }

  /** `list(map(float, parts))`. */
  function FloatsOf(parts: seq<string>): (r: Result<seq<real>>)
    ensures r.Ok? <==> forall i :: 0 <= i < |parts| ==> ParseFloat(parts[i]).Some?
    ensures r.Ok? ==> |r.value| == |parts| && forall i :: 0 <= i < |parts| ==> Some(r.value[i]) == ParseFloat(parts[i])
  {
    if parts == [] then Ok([])
    else
      match ParseFloat(parts[0])
      case None => Err(ValueError)
      case Some(v) =>
        var rest :- FloatsOf(parts[1..]);
        Ok([v] + rest)
  }

  datatype CptHeaders = CptHeaders(
    name: Flat,
    gefFileDate: Flat,
    heightSystem: Flat,
    fixedHorizontalLevel: Flat,
    coneType: Flat,
    geometry: ConeGeometry,
    excavationDepth: Flat,
    correctedDepth: real,
    xyCoordinates: seq<real>,
    groundLevelWrtReferenceM: real,
    groundLevelWrtReference: real)

  const PosPath: seq<string> := ["deliveredLocation", "location", "pos"]

  /** `list(map(float, pos.split(' ')))`: one coordinate per space-separated part. */
  function Coordinates(xmlData: Flat): (r: Result<seq<real>>)
    ensures r.Ok? ==>
      Path(xmlData, PosPath).Ok? && StrOf(Path(xmlData, PosPath).value, "split").Ok? &&
      var parts := Split(StrOf(Path(xmlData, PosPath).value, "split").value, " ");
      |r.value| == |parts| && forall i :: 0 <= i < |parts| ==> Some(r.value[i]) == ParseFloat(parts[i])
  {
    var posF :- Path(xmlData, PosPath);
    var pos :- StrOf(posF, "split");
    FloatsOf(Split(pos, " "))
  }

  /** `float(deliveredVerticalPosition.offset)`: the ground level in metres. */
  function GroundLevel(xmlData: Flat): Result<real> {
    var offsetF :- Path(xmlData, ["deliveredVerticalPosition", "offset"]);
    FloatOf(offsetF)
  }

  /** The whole-millimetre offset the elevations use is the truncated ground level in millimetres. */
  lemma OffsetMmIsTruncatedGroundLevel(xmlData: Flat)
    requires GroundLevel(xmlData).Ok?
    ensures OffsetMm(xmlData) == Ok(Trunc(GroundLevel(xmlData).value * 1000.0))
  {
  }

  const FinalDepthPath: seq<string> := ["conePenetrometerSurvey", "trajectory", "finalDepth"]

  /** The `headers` dictionary, fields evaluated in the order the source lists them. */
  function HeadersOf(xmlData: Flat, geometry: ConeGeometry): (r: Result<CptHeaders>)
    ensures r.Ok? <==>
      Attr(xmlData, "broId").Ok? && Path(xmlData, ["researchReportDate", "date"]).Ok? &&
      Path(xmlData, ["deliveredVerticalPosition", "verticalDatum"]).Ok? &&
      Path(xmlData, ["deliveredVerticalPosition", "localVerticalReferencePoint"]).Ok? &&
      Path(xmlData, PenetrometerPath + ["conePenetrometerType"]).Ok? &&
      Path(xmlData, ["conePenetrometerSurvey", "trajectory", "predrilledDepth"]).Ok? &&
      Path(xmlData, FinalDepthPath).Ok? && FloatOf(Path(xmlData, FinalDepthPath).value).Ok? &&
      Coordinates(xmlData).Ok? && GroundLevel(xmlData).Ok?
    ensures r.Ok? ==> Attr(xmlData, "broId") == Ok(r.value.name)
    ensures r.Ok? ==> Path(xmlData, ["researchReportDate", "date"]) == Ok(r.value.gefFileDate)
    ensures r.Ok? ==> Path(xmlData, ["deliveredVerticalPosition", "verticalDatum"]) == Ok(r.value.heightSystem)
    ensures r.Ok? ==> Path(xmlData, ["deliveredVerticalPosition", "localVerticalReferencePoint"]) == Ok(r.value.fixedHorizontalLevel)
    ensures r.Ok? ==> Path(xmlData, PenetrometerPath + ["conePenetrometerType"]) == Ok(r.value.coneType)
    ensures r.Ok? ==> r.value.geometry == geometry
    ensures r.Ok? ==> Path(xmlData, ["conePenetrometerSurvey", "trajectory", "predrilledDepth"]) == Ok(r.value.excavationDepth)
    ensures r.Ok? ==> r.value.correctedDepth == FloatOf(Path(xmlData, FinalDepthPath).value).value * 1000.0
    ensures r.Ok? ==> GroundLevel(xmlData) == Ok(r.value.groundLevelWrtReferenceM)
    ensures r.Ok? ==> r.value.groundLevelWrtReference == r.value.groundLevelWrtReferenceM * 1000.0
    ensures r.Ok? ==> Coordinates(xmlData) == Ok(r.value.xyCoordinates)
  {
    var name :- Attr(xmlData, "broId");
    var date :- Path(xmlData, ["researchReportDate", "date"]);
    var heightSystem :- Path(xmlData, ["deliveredVerticalPosition", "verticalDatum"]);
    var level :- Path(xmlData, ["deliveredVerticalPosition", "localVerticalReferencePoint"]);
    var coneType :- Path(xmlData, PenetrometerPath + ["conePenetrometerType"]);
    var excavation :- Path(xmlData, ["conePenetrometerSurvey", "trajectory", "predrilledDepth"]);
    var finalDepthF :- Path(xmlData, FinalDepthPath);
    var finalDepth :- FloatOf(finalDepthF);
    var xy :- Coordinates(xmlData);
    var offset :- GroundLevel(xmlData);
    Ok(CptHeaders(name, date, heightSystem, level, coneType, geometry, excavation,
      finalDepth * 1000.0, xy, offset, offset * 1000.0))
  }

  datatype CptRecord = CptRecord(headers: CptHeaders, measurementData: Channels)

  /**
   * `convert_xml_dict_to_cpt_dict`: the measurement channels, then the cone
   * dimensions as the source computes them, then the headers. The record
   * fails exactly when one of those stages fails.
   */
  function ConvertXmlDictToCptDict(xmlDict: Flat): (r: Result<CptRecord>)
    ensures r.Ok? <==>
      CptO(xmlDict).Ok? && Measurements(CptO(xmlDict).value).Ok? &&
      ConeGeometryAsWritten(CptO(xmlDict).value).Ok? &&
      HeadersOf(CptO(xmlDict).value, ConeGeometryAsWritten(CptO(xmlDict).value).value).Ok?
    ensures r.Ok? ==> r.value.measurementData.Keys == ChannelKeys
    ensures r.Ok? ==> r.value.measurementData == Measurements(CptO(xmlDict).value).value
    ensures r.Ok? ==> r.value.headers == HeadersOf(CptO(xmlDict).value, ConeGeometryAsWritten(CptO(xmlDict).value).value).value
  {
    var xmlData :- CptO(xmlDict);
    var md :- Measurements(xmlData);
    var geometry :- ConeGeometryAsWritten(xmlData);
    var headers :- HeadersOf(xmlData, geometry);
    Ok(CptRecord(headers, md))
  }

  /**
   * A BRO record keeps the five dimensions under `conePenetrometer`, not at
   * the top of `CPT_O`, so its converted headers never carry them, whatever
   * the penetrometer holds.
   */
  lemma BroRecordLosesConeGeometry(xmlDict: Flat)
    requires ConvertXmlDictToCptDict(xmlDict).Ok?
    requires CptO(xmlDict).value.FDict? && forall name :: name in GeometryFields ==> name !in CptO(xmlDict).value.entries
    ensures ConvertXmlDictToCptDict(xmlDict).value.headers.geometry == ConeGeometry(None, None, None, None, None)
  {
    ConeGeometryAsWrittenIsAlwaysEmpty(CptO(xmlDict).value);
  }

  // ---------------------------------------------------------------------------
  // Properties of the conversion

  /**
   * Every mapped channel gets one entry per row, read from its column of the
   * rows sorted by elevation; an unmapped channel other than Rf stays empty.
   */
  lemma MeasurementsPerChannel(xmlData: Flat)
    requires Measurements(xmlData).Ok?
    ensures var params := ParametersOf(xmlData).value;
      var mapping := MappingOf(params, |params|);
      var rows := DataRows(xmlData).value;
      var sorted := SortByElevation(rows, mapping).value;
      var md := Measurements(xmlData).value;
      |sorted| == |rows| &&
      CellsReadable(sorted, mapping) &&
      (forall k :: k in ChannelKeys && Get(mapping, k).Some? ==>
        md[k] == Channel(sorted, Get(mapping, k).value, k, OffsetMm(xmlData).value)) &&
      (forall k :: k in ChannelKeys && k != "Rf" && Get(mapping, k).None? ==> md[k] == [])
  {
    var params := ParametersOf(xmlData).value;
    var mapping := MappingOf(params, |params|);
    var rows := DataRows(xmlData).value;
    var sorted := SortByElevation(rows, mapping).value;
    FillFailsIffUnreadable(sorted, mapping);
    var filled := FillSpec(sorted, mapping, OffsetMm(xmlData).value).value;
    if Get(mapping, "Rf").Some? && sorted == [] {
      assert filled["Rf"] == [];
      assert filled["qc"] == [] && filled["fs"] == [];
    }
  }

  /** Rows and a missing elevation column make the conversion raise the user-facing error. */
  lemma MissingElevationRaises(xmlData: Flat)
    requires OffsetMm(xmlData).Ok? && ParametersOf(xmlData).Ok? && DataRows(xmlData).Ok?
    requires DataRows(xmlData).value != []
    requires forall i :: 0 <= i < |ParametersOf(xmlData).value| ==> ParametersOf(xmlData).value[i] != ("depth", true)
    ensures Measurements(xmlData) == Err(MissingElevation)
  {
    var params := ParametersOf(xmlData).value;
    MappingOfIsLastFlagged(params, |params|, "elevation");
  }

  lemma TruncMonotone(x: real, y: real)
    requires x <= y
    ensures Trunc(x) <= Trunc(y)
  {
  }

  /** A deeper reading gives a lower (or equal) elevation. */
  lemma ElevationCellMonotone(vi: real, vj: real, offset: int)
    requires vi <= vj
    requires CellValue("elevation", vi, offset).Some? && CellValue("elevation", vj, offset).Some?
    ensures CellValue("elevation", vi, offset).value >= CellValue("elevation", vj, offset).value
  {
    TruncMonotone(vi * 1000.0, vj * 1000.0);
  }

  /** Over rows sorted by column `c`, the elevations read from `c` never increase. */
  lemma ChannelElevationDescends(rows: seq<Row>, c: nat, offset: int)
    requires AllKeyed(rows, c)
    requires forall i, j :: 0 <= i < j < |rows| ==> KeyOf(rows[i], c).value <= KeyOf(rows[j], c).value
    ensures var ch := Channel(rows, c, "elevation", offset);
      forall i, j :: 0 <= i < j < |ch| && ch[i].Some? && ch[j].Some? ==> ch[i].value >= ch[j].value
  {
    var ch := Channel(rows, c, "elevation", offset);
    forall i, j | 0 <= i < j < |ch| && ch[i].Some? && ch[j].Some? ensures ch[i].value >= ch[j].value {
      var vi, vj := KeyOrZero(rows[i], c), KeyOrZero(rows[j], c);
      assert vi == KeyOf(rows[i], c).value && vj == KeyOf(rows[j], c).value;
      ElevationCellMonotone(vi, vj, offset);
    }
  }

  /** Elevations come out non-increasing (the rows are in ascending depth), skipping the None cells. */
  lemma ElevationDescends(xmlData: Flat)
    requires Measurements(xmlData).Ok?
    ensures var md := Measurements(xmlData).value;
      forall i, j :: 0 <= i < j < |md["elevation"]| && md["elevation"][i].Some? && md["elevation"][j].Some? ==>
        md["elevation"][i].value >= md["elevation"][j].value
  {
    var params := ParametersOf(xmlData).value;
    var mapping := MappingOf(params, |params|);
    var rows := DataRows(xmlData).value;
    MeasurementsPerChannel(xmlData);
    if Get(mapping, "elevation").Some? && rows != [] {
      var c := Get(mapping, "elevation").value;
      SortRowsByColumnIsSorted(rows, c);
      ChannelElevationDescends(SortRowsByColumn(rows, c).value, c, OffsetMm(xmlData).value);
    }
  }
}
