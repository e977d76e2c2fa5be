/**
 * `sorted(rows, key=lambda x: float(x[col]))` as both converters use it to
 * put scrambled value-block rows back in order: every key is computed first
 * (so the first bad row raises), then the rows are sorted stably by key.
 */
module Sorting {
  import opened Base
  import opened Numbers

  /** One value-block row: its fields as text. */
  type Row = seq<string>

  predicate SortedBy(s: seq<Row>, key: Row -> real) {
    forall i, j :: 0 <= i < j < |s| ==> key(s[i]) <= key(s[j])
  }

  /** Inserts `x` after every element whose key is at most its own, which keeps equal keys in arrival order. */
  function Insert(t: seq<Row>, x: Row, key: Row -> real): (r: seq<Row>)
    requires SortedBy(t, key)
    ensures SortedBy(r, key)
    ensures multiset(r) == multiset(t) + multiset{x}
    ensures forall e :: e in r ==> e in t || e == x
  {
    if t == [] then [x]
    else if key(t[|t| - 1]) <= key(x) then t + [x]
    else
      var init, last := t[..|t| - 1], t[|t| - 1];
      assert t == init + [last];
      var r' := Insert(init, x, key);
      AppendLargest(init, last, x, r', key);
      r' + [last]
  }

  lemma AppendLargest(init: seq<Row>, last: Row, x: Row, r': seq<Row>, key: Row -> real)
    requires SortedBy(init + [last], key) && SortedBy(r', key)
    requires key(x) < key(last)
    requires forall e :: e in r' ==> e in init || e == x
    ensures SortedBy(r' + [last], key)
  {
    var t := init + [last];
    forall e | e in r' ensures key(e) <= key(last) {
      if e in init {
        var k :| 0 <= k < |init| && init[k] == e;
        assert t[k] == e && t[|init|] == last;
      }
    }
    forall i, j | 0 <= i < j < |r'| + 1 ensures key((r' + [last])[i]) <= key((r' + [last])[j]) {
      if j == |r'| {
        assert (r' + [last])[i] in r';
      }
    }
  }

  /** Stable insertion sort by `key`. */
  function SortBy(s: seq<Row>, key: Row -> real): (r: seq<Row>)
    ensures SortedBy(r, key)
    ensures multiset(r) == multiset(s)
  {
    if s == [] then []
    else
      assert s == s[..|s| - 1] + [s[|s| - 1]];
      Insert(SortBy(s[..|s| - 1], key), s[|s| - 1], key)
  }

  /** `float(row[col])`, or the reason it raises. */
  function KeyOf(row: Row, col: nat): (r: Result<real>)
    ensures r.Err? <==> col >= |row| || ParseFloat(row[col]).None?
    ensures r.Err? ==> r.error == (if col >= |row| then IndexError else ValueError)
  {
    if col >= |row| then Err(IndexError)
    else match ParseFloat(row[col])
      case None => Err(ValueError)
      case Some(v) => Ok(v)
  }

  /** The key of a row whose key is known to exist. */
  function KeyOrZero(row: Row, col: nat): real {
    match KeyOf(row, col)
    case Ok(v) => v
    case Err(_) => 0.0
  }

  /** Every row has a parsable field `col`. */
  predicate AllKeyed(rows: seq<Row>, col: nat) {
    forall i :: 0 <= i < |rows| ==> KeyOf(rows[i], col).Ok?
  }

  /** Every row has a key, and the keys do not decrease. */
  predicate SortedByKey(rows: seq<Row>, col: nat) {
    AllKeyed(rows, col) &&
    forall i, j :: 0 <= i < j < |rows| ==> KeyOf(rows[i], col).value <= KeyOf(rows[j], col).value
  }

  /** The error of the first row whose key cannot be computed, if any. */
  function FirstKeyError(rows: seq<Row>, col: nat): (e: Option<PyError>)
    ensures e.None? <==> AllKeyed(rows, col)
  {
    if rows == [] then None
    else if KeyOf(rows[0], col).Err? then Some(KeyOf(rows[0], col).error)
    else
      var e := FirstKeyError(rows[1..], col);
      assert AllKeyed(rows[1..], col) ==> AllKeyed(rows, col) by {
        if AllKeyed(rows[1..], col) {
          forall i | 0 <= i < |rows| ensures KeyOf(rows[i], col).Ok? {
            if i > 0 { assert rows[i] == rows[1..][i - 1]; }
          }
        }
      }
      e
  }

  /** `sorted(rows, key=lambda x: float(x[col]))`. */
  function SortRowsByColumn(rows: seq<Row>, col: nat): (r: Result<seq<Row>>)
    ensures r.Ok? <==> AllKeyed(rows, col)
    ensures r.Ok? ==> multiset(r.value) == multiset(rows) && |r.value| == |rows|
  {
    match FirstKeyError(rows, col)
    case Some(e) => Err(e)
    case None =>
      var sorted := SortBy(rows, row => KeyOrZero(row, col));
      assert |sorted| == |multiset(sorted)| == |multiset(rows)| == |rows|;
      Ok(sorted)
  }

  /** The sorted rows are in non-decreasing order of the parsed column `col`. */
  lemma SortRowsByColumnIsSorted(rows: seq<Row>, col: nat)
    requires SortRowsByColumn(rows, col).Ok?
    ensures SortedByKey(SortRowsByColumn(rows, col).value, col)
  {
    var r := SortRowsByColumn(rows, col).value;
    forall i | 0 <= i < |r| ensures KeyOf(r[i], col).Ok? {
      assert r[i] in multiset(rows);
    }
  }
}
