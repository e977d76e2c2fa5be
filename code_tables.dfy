/**
 * The static vocabulary of the conversion: the data-block column registry,
 * the four descriptive-name -> GEF-code tables (total lookups whose unknown
 * keys give "-"), the channel -> XML parameter-name mapping, and the two text
 * helpers `undo_camelcase` and `replace_multiple`.
 */
module CodeTables {
  import opened Base
  import opened Strings

  /** One entry of the column registry: numeric id, description and unit. */
  datatype ColumnDef = ColumnDef(id: nat, description: string, units: string)

  /** `databloc_cols_def`, in its fixed order. */
  const DatablocColsDef: seq<ColumnDef> := [
    ColumnDef(1, "penetration length", "m"),
    ColumnDef(2, "cone resistance", "MPa"),
    ColumnDef(3, "local friction", "MPa"),
    ColumnDef(4, "friction ratio", "-"),
    ColumnDef(5, "pore pressure u1", "MPa"),
    ColumnDef(6, "pore pressure u2", "MPa"),
    ColumnDef(7, "pore pressure u3", "MPa"),
    ColumnDef(8, "inclination resultant", "degrees"),
    ColumnDef(9, "inclination ns", "degrees"),
    ColumnDef(10, "inclination ew", "degrees"),
    ColumnDef(11, "depth", "m"),
    ColumnDef(12, "elapsed time", "s"),
    ColumnDef(13, "corrected cone resistance", "MPa"),
    ColumnDef(14, "net cone resistance", "MPa"),
    ColumnDef(15, "pore ratio", "-"),
    ColumnDef(21, "inclination x", "degrees"),
    ColumnDef(22, "inclination y", "degrees"),
    ColumnDef(23, "electrical conductivity", "S/m"),
    ColumnDef(31, "magnetic field strength x", "nT"),
    ColumnDef(32, "magnetic field strength y", "nT"),
    ColumnDef(33, "magnetic field strength z", "nT"),
    ColumnDef(34, "magnetic field strength total", "nT"),
    ColumnDef(35, "magnetic inclination", "degrees"),
    ColumnDef(36, "magnetic declination", "degrees")
  ]

  /**
   * `[w for w in databloc_cols_def if w['description'] == d][0]`: the first
   * registry entry with that description; `None` where Python's `[0]` raises
   * IndexError.
   */
  function FindColumn(d: string): Option<ColumnDef> {
    FindColumnIn(DatablocColsDef, d)
  }

  /** The first entry of `defs` with description `d`. */
  function FindColumnIn(defs: seq<ColumnDef>, d: string): Option<ColumnDef> {
    if defs == [] then None
    else if defs[0].description == d then Some(defs[0])
    else FindColumnIn(defs[1..], d)
  }

  lemma {:induction false} FindColumnInIsFirstMatch(defs: seq<ColumnDef>, d: string)
    ensures FindColumnIn(defs, d).None? <==> forall k :: 0 <= k < |defs| ==> defs[k].description != d
    ensures FindColumnIn(defs, d).Some? ==>
      exists k :: 0 <= k < |defs| && defs[k] == FindColumnIn(defs, d).value &&
        defs[k].description == d && forall k' :: 0 <= k' < k ==> defs[k'].description != d
  {
    if defs != [] && defs[0].description != d {
      FindColumnInIsFirstMatch(defs[1..], d);
      if FindColumnIn(defs, d).Some? {
        var k :| 0 <= k < |defs[1..]| && defs[1..][k] == FindColumnIn(defs, d).value &&
          defs[1..][k].description == d && forall k' :: 0 <= k' < k ==> defs[1..][k'].description != d;
        assert defs[k + 1] == defs[1..][k];
      }
    } else if defs != [] {
      assert defs[0] == FindColumnIn(defs, d).value;
    }
  }

  /** The lookup finds the first registry entry with the description, and nothing exactly when no entry has it. */
  lemma FindColumnIsFirstMatch(d: string)
    ensures FindColumn(d).None? <==> forall k :: 0 <= k < |DatablocColsDef| ==> DatablocColsDef[k].description != d
    ensures FindColumn(d).Some? ==>
      exists k :: 0 <= k < |DatablocColsDef| && DatablocColsDef[k] == FindColumn(d).value &&
        DatablocColsDef[k].description == d && forall k' :: 0 <= k' < k ==> DatablocColsDef[k'].description != d
  {
    FindColumnInIsFirstMatch(DatablocColsDef, d);
  }

  // ---------------------------------------------------------------------------
  // Code tables. Each is a `defaultdict(lambda: '-', {...})`: a key it does not
  // hold (including None) gives "-", and nothing raises.

  const ZidCodes: map<string, string> := map[
    "Low Low Water Spring" := "00001",
    "NAP" := "31000",
    "Ostend Level" := "32000",
    "TAW" := "32001",
    "Normal Null" := "49000"
  ]

  const StopCriteria: map<string, string> := map[
    "wegdrukkracht" := "1",
    "obstakel" := "6",
    "storing" := "8",
    "einddiepte" := "0",
    "bezwijkrisico" := "7"
  ]

  const CptMethod: map<string, string> := map[
    "elektrischContinu" := "4",
    "elektrisch" := "0"
  ]

  const XyidCodes: map<string, string> := map[
    "Geographic Coordinate System" := "00001",
    "SPCS" := "01000",
    "RD" := "31000",
    "RDNAPTRANS2008" := "31000",
    "UTM-3N" := "31001",
    "UTM-9N" := "31002",
    "Belgian Bessel" := "32000",
    "Gauss-Krüger" := "49000"
  ]

  /** The fallback code of every table. */
  const Unknown: string := "-"

  /** `table[key]` on a defaultdict with fallback "-"; `None` is a key no table holds. */
  function Lookup(table: map<string, string>, key: Option<string>): (code: string)
    ensures key.Some? && key.value in table ==> code == table[key.value]
    ensures key.None? || key.value !in table ==> code == Unknown
  {
    if key.Some? && key.value in table then table[key.value] else Unknown
  }

  /** No table uses the fallback as a real code, so "-" means exactly "not in the table". */
  lemma FallbackMeansUnknown(key: Option<string>)
    ensures Lookup(ZidCodes, key) == Unknown <==> key.None? || key.value !in ZidCodes
    ensures Lookup(StopCriteria, key) == Unknown <==> key.None? || key.value !in StopCriteria
    ensures Lookup(CptMethod, key) == Unknown <==> key.None? || key.value !in CptMethod
    ensures Lookup(XyidCodes, key) == Unknown <==> key.None? || key.value !in XyidCodes
  {
    assert Unknown !in ZidCodes.Values;
    assert Unknown !in StopCriteria.Values;
    assert Unknown !in CptMethod.Values;
    assert Unknown !in XyidCodes.Values;
  }

  /** The fixed codes the tables give, e.g. both Dutch coordinate systems give 31000. */
  lemma KnownCodes()
    ensures Lookup(ZidCodes, Some("NAP")) == "31000"
    ensures Lookup(ZidCodes, Some("TAW")) == "32001"
    ensures Lookup(XyidCodes, Some("RD")) == Lookup(XyidCodes, Some("RDNAPTRANS2008")) == "31000"
    ensures Lookup(StopCriteria, Some("einddiepte")) == "0"
    ensures Lookup(CptMethod, Some("elektrischContinu")) == "4"
  {
  }

  /** `GEF_XML_MAPPING`: channel key -> XML parameter name, in dictionary order. */
  const GefXmlMapping: seq<(string, string)> := [
    ("Rf", "frictionRatio"),
    ("fs", "localFriction"),
    ("qc", "coneResistance"),
    ("elevation", "depth"),
    ("corrected_depth", "depth")
  ]

  // ---------------------------------------------------------------------------
  // undo_camelcase

  /** `re.sub("([a-z])([A-Z])", r"\g<1> \g<2>", s)`: a space into every lower-upper pair, scanning left to right. */
  function SpaceCamelBoundaries(s: string): string
    decreases |s|
  {
    if |s| < 2 then s
    else if IsLower(s[0]) && IsUpper(s[1]) then [s[0], ' ', s[1]] + SpaceCamelBoundaries(s[2..])
    else [s[0]] + SpaceCamelBoundaries(s[1..])
  }

  /** `undo_camelcase(s)`: `coneResistance` becomes `cone resistance`. */
  function UndoCamelcase(s: string): (r: string)
    ensures forall i :: 0 <= i < |r| ==> !IsUpper(r[i])
  {
    Lower(SpaceCamelBoundaries(s))
  }

  /** `s` without its spaces. */
  function DropSpaces(s: string): string {
    if s == [] then [] else (if s[0] == ' ' then [] else [s[0]]) + DropSpaces(s[1..])
  }

  /** Number of lower-upper letter pairs in `s`. */
  function CamelBoundaries(s: string): nat
    decreases |s|
  {
    if |s| < 2 then 0
    else if IsLower(s[0]) && IsUpper(s[1]) then 1 + CamelBoundaries(s[2..])
    else CamelBoundaries(s[1..])
  }

  lemma {:induction false} DropSpacesAppend(a: string, b: string)
    ensures DropSpaces(a + b) == DropSpaces(a) + DropSpaces(b)
    decreases |a|
  {
    if a != [] {
      assert (a + b)[0] == a[0];
      assert (a + b)[1..] == a[1..] + b;
      DropSpacesAppend(a[1..], b);
      assert DropSpaces(a + b) == (if a[0] == ' ' then [] else [a[0]]) + DropSpaces((a + b)[1..]);
    } else {
      assert a + b == b;
    }
  }

  /** The substitution only inserts spaces: with the spaces dropped, the text is unchanged. */
  lemma {:induction false} SpaceCamelBoundariesOnlyAddsSpaces(s: string)
    ensures DropSpaces(SpaceCamelBoundaries(s)) == DropSpaces(s)
    decreases |s|
  {
    if |s| >= 2 {
      if IsLower(s[0]) && IsUpper(s[1]) {
        SpaceCamelBoundariesOnlyAddsSpaces(s[2..]);
        DropSpacesAppend([s[0], ' ', s[1]], SpaceCamelBoundaries(s[2..]));
        DropSpacesAppend([s[0], s[1]], s[2..]);
        assert s == [s[0], s[1]] + s[2..];
        assert DropSpaces([s[0], ' ', s[1]]) == [s[0], s[1]];
      } else {
        SpaceCamelBoundariesOnlyAddsSpaces(s[1..]);
        DropSpacesAppend([s[0]], SpaceCamelBoundaries(s[1..]));
        DropSpacesAppend([s[0]], s[1..]);
        assert s == [s[0]] + s[1..];
      }
    }
  }

  /** One space per lower-upper pair, and no pair left unseparated. */
  lemma {:induction false} SpaceCamelBoundariesSeparatesAll(s: string)
    ensures |SpaceCamelBoundaries(s)| == |s| + CamelBoundaries(s)
    ensures var r := SpaceCamelBoundaries(s);
      forall i :: 0 <= i < |r| - 1 ==> !(IsLower(r[i]) && IsUpper(r[i + 1]))
    ensures |s| > 0 ==> |SpaceCamelBoundaries(s)| > 0 && SpaceCamelBoundaries(s)[0] == s[0]
    decreases |s|
  {
    if |s| >= 2 {
      if IsLower(s[0]) && IsUpper(s[1]) {
        SpaceCamelBoundariesSeparatesAll(s[2..]);
        var t := SpaceCamelBoundaries(s[2..]);
        var r := [s[0], ' ', s[1]] + t;
        forall i | 0 <= i < |r| - 1 ensures !(IsLower(r[i]) && IsUpper(r[i + 1])) {
          if i == 2 { assert !IsLower(s[1]); }
          if i > 2 { assert r[i] == t[i - 3] && r[i + 1] == t[i - 2]; }
        }
      } else {
        SpaceCamelBoundariesSeparatesAll(s[1..]);
        var t := SpaceCamelBoundaries(s[1..]);
        var r := [s[0]] + t;
        forall i | 0 <= i < |r| - 1 ensures !(IsLower(r[i]) && IsUpper(r[i + 1])) {
          if i == 0 { assert r[1] == t[0] == s[1]; }
          if i > 0 { assert r[i] == t[i - 1] && r[i + 1] == t[i]; }
        }
      }
    }
  }

  /** A name without lower-upper pairs is only lowercased. */
  lemma {:induction false} UndoCamelcaseWithoutBoundaries(s: string)
    requires CamelBoundaries(s) == 0
    ensures UndoCamelcase(s) == Lower(s)
  {
    SpaceCamelBoundariesSeparatesAll(s);
    SpaceCamelBoundariesOnlyAddsSpaces(s);
    NoBoundariesNoChange(s);
  }

  lemma {:induction false} NoBoundariesNoChange(s: string)
    requires CamelBoundaries(s) == 0
    ensures SpaceCamelBoundaries(s) == s
    decreases |s|
  {
    if |s| >= 2 {
      NoBoundariesNoChange(s[1..]);
      assert s == [s[0]] + s[1..];
    }
  }

  // ---------------------------------------------------------------------------
  // replace_multiple

  /** Each listed character replaced in turn, every later replacement acting on the earlier result. */
  function ReplaceEach(s: string, originalChars: string, replaceChar: string): string
    decreases |originalChars|
  {
    if originalChars == [] then s
    else ReplaceEach(ReplaceAll(s, originalChars[0], replaceChar), originalChars[1..], replaceChar)
  }

  /** `replace_multiple`: reassigns the string once per listed character. */
  method ReplaceMultiple(s: string, originalChars: string, replaceChar: string) returns (r: string)
    ensures r == ReplaceEach(s, originalChars, replaceChar)
  {
    r := s;
    for i := 0 to |originalChars|
      invariant ReplaceEach(r, originalChars[i..], replaceChar) == ReplaceEach(s, originalChars, replaceChar)
    {
      assert originalChars[i..][1..] == originalChars[i + 1..];
      r := ReplaceAll(r, originalChars[i], replaceChar);
    }
  }

  lemma {:induction false} ReplaceAllKeepsAbsence(s: string, c: char, with: string, d: char)
    requires d !in s && d !in with
    ensures d !in ReplaceAll(s, c, with)
    decreases |s|
  {
    if s != [] {
      ReplaceAllKeepsAbsence(s[1..], c, with, d);
    }
  }

  /** When the replacement holds none of the listed characters, none of them is left. */
  lemma {:induction false} ReplaceEachRemovesAll(s: string, originalChars: string, replaceChar: string)
    requires forall c :: c in originalChars ==> c !in replaceChar
    ensures forall c :: c in originalChars ==> c !in ReplaceEach(s, originalChars, replaceChar)
    decreases |originalChars|
  {
    if originalChars != [] {
      var c0 := originalChars[0];
      var s' := ReplaceAll(s, c0, replaceChar);
      ReplaceEachRemovesAll(s', originalChars[1..], replaceChar);
      assert c0 !in s';
      ReplaceEachKeepsAbsence(s', originalChars[1..], replaceChar, c0);
      forall c | c in originalChars ensures c !in ReplaceEach(s, originalChars, replaceChar) {
        if c != c0 { assert c in originalChars[1..]; }
      }
    }
  }

  lemma {:induction false} ReplaceEachKeepsAbsence(s: string, originalChars: string, replaceChar: string, d: char)
    requires d !in s && d !in replaceChar
    ensures d !in ReplaceEach(s, originalChars, replaceChar)
    decreases |originalChars|
  {
    if originalChars != [] {
      ReplaceAllKeepsAbsence(s, originalChars[0], replaceChar, d);
      ReplaceEachKeepsAbsence(ReplaceAll(s, originalChars[0], replaceChar), originalChars[1..], replaceChar, d);
    }
  }

  /** Text without any listed character comes back unchanged. */
  lemma {:induction false} ReplaceEachWithoutMatches(s: string, originalChars: string, replaceChar: string)
    requires forall c :: c in originalChars ==> c !in s
    ensures ReplaceEach(s, originalChars, replaceChar) == s
    decreases |originalChars|
  {
    if originalChars != [] {
      ReplaceEachWithoutMatches(s, originalChars[1..], replaceChar);
    }
  }
}
