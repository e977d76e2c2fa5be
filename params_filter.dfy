/**
 * `filter_nones_from_params_dict`: the rows of the measurement channels read
 * side by side (`zip`), every row with a `None` in some channel recorded, and
 * those rows deleted from every channel, highest index first, in place.
 */
module ParamsFilter {
  import opened Base
  import opened OrderedDict

  /** One measurement channel. */
  type Column = seq<Option<real>>

  /** The number of rows `zip(*channels)` yields: the shortest channel's length, none without channels. */
  function RowCount(md: ODict<Column>): (r: nat)
    ensures forall c :: 0 <= c < |md| ==> r <= |md[c].1|
    ensures |md| == 0 ==> r == 0
  {
    if |md| == 0 then 0
    else if |md| == 1 then |md[0].1|
    else
      var rest := RowCount(md[1..]);
      assert forall c :: 1 <= c < |md| ==> md[c] == md[1..][c - 1];
      if |md[0].1| <= rest then |md[0].1| else rest
  }

  /** The count is attained: some channel is exactly as long, so `zip` stops at the shortest channel. */
  lemma {:induction false} RowCountIsShortest(md: ODict<Column>)
    requires |md| > 0
    ensures exists c :: 0 <= c < |md| && RowCount(md) == |md[c].1|
  {
    if |md| == 1 {
      assert RowCount(md) == |md[0].1|;
    } else if |md[0].1| <= RowCount(md[1..]) {
      assert RowCount(md) == |md[0].1|;
    } else {
      RowCountIsShortest(md[1..]);
      var c :| 0 <= c < |md[1..]| && RowCount(md[1..]) == |md[1..][c].1|;
      assert RowCount(md) == |md[c + 1].1|;
    }
  }

  /** `None not in items` for row `i` of the zip. */
  predicate RowOk(md: ODict<Column>, i: nat)
    requires i < RowCount(md)
  {
    forall c :: 0 <= c < |md| ==> md[c].1[i].Some?
  }

  /** The rows from `i` on that survive, in order. */
  function OkRowsFrom(md: ODict<Column>, i: nat): (r: seq<nat>)
    requires i <= RowCount(md)
    ensures forall k :: 0 <= k < |r| ==> i <= r[k] < RowCount(md) && RowOk(md, r[k])
    decreases RowCount(md) - i
  {
    if i == RowCount(md) then []
    else (if RowOk(md, i) then [i] else []) + OkRowsFrom(md, i + 1)
  }

  /** The elements of `col` at the surviving rows from `i` on. */
  function KeptFrom(md: ODict<Column>, col: Column, i: nat): Column
    requires i <= RowCount(md) <= |col|
    decreases RowCount(md) - i
  {
    if i == RowCount(md) then []
    else (if RowOk(md, i) then [col[i]] else []) + KeptFrom(md, col, i + 1)
  }

  /** A channel after the filter: its surviving rows, then whatever lies past the zip's end. */
  function FilteredColumn(md: ODict<Column>, col: Column): Column
    requires RowCount(md) <= |col|
  {
    KeptFrom(md, col, 0) + col[RowCount(md)..]
  }

  /** The measurement data after the filter, channel by channel under the same names. */
  function FilterNonesOf(md: ODict<Column>): (r: ODict<Column>)
    ensures |r| == |md| && forall c :: 0 <= c < |md| ==> r[c].0 == md[c].0
  {
    seq(|md|, c requires 0 <= c < |md| => (md[c].0, FilteredColumn(md, md[c].1)))
  }

  // ---------------------------------------------------------------------------
  // What the filter keeps

  /** The surviving rows are increasing and are exactly the `None`-free rows. */
  lemma OkRowsFromExact(md: ODict<Column>, i: nat)
    requires i <= RowCount(md)
    ensures forall k, l :: 0 <= k < l < |OkRowsFrom(md, i)| ==> OkRowsFrom(md, i)[k] < OkRowsFrom(md, i)[l]
    ensures forall j :: i <= j < RowCount(md) && RowOk(md, j) ==> j in OkRowsFrom(md, i)
  {
    OkRowsIncreasing(md, i);
    OkRowsComplete(md, i);
  }

  lemma {:induction false} OkRowsIncreasing(md: ODict<Column>, i: nat)
    requires i <= RowCount(md)
    ensures Increasing(OkRowsFrom(md, i))
    decreases RowCount(md) - i
  {
    if i < RowCount(md) {
      var rest := OkRowsFrom(md, i + 1);
      assert Increasing(rest) by {
        OkRowsIncreasing(md, i + 1);
      }
      if RowOk(md, i) {
        assert OkRowsFrom(md, i) == [i] + rest;
        ConsIncreasing(i, rest);
      } else {
        assert OkRowsFrom(md, i) == rest;
      }
    } else {
      assert OkRowsFrom(md, i) == [];
    }
  }

  predicate Increasing(s: seq<nat>) {
    forall k, l :: 0 <= k < l < |s| ==> s[k] < s[l]
  }

  lemma ConsIncreasing(i: nat, rest: seq<nat>)
    requires Increasing(rest) && forall k :: 0 <= k < |rest| ==> i < rest[k]
    ensures Increasing([i] + rest)
  {
    var r := [i] + rest;
    forall k, l | 0 <= k < l < |r| ensures r[k] < r[l] {
      assert r[l] == rest[l - 1];
      if k > 0 {
        assert r[k] == rest[k - 1];
      }
    }
  }

  lemma {:induction false} OkRowsComplete(md: ODict<Column>, i: nat)
    requires i <= RowCount(md)
    ensures forall j :: i <= j < RowCount(md) && RowOk(md, j) ==> j in OkRowsFrom(md, i)
    decreases RowCount(md) - i
  {
    if i < RowCount(md) {
      OkRowsComplete(md, i + 1);
      var head: seq<nat> := if RowOk(md, i) then [i] else [];
      var rest := OkRowsFrom(md, i + 1);
      assert OkRowsFrom(md, i) == head + rest;
      forall j | i <= j < RowCount(md) && RowOk(md, j) ensures j in head + rest {
        if j == i { assert (head + rest)[0] == i; } else { assert j in rest; }
      }
    }
  }

  /** A channel's surviving elements are its elements at the surviving rows, in order. */
  lemma {:induction false} KeptFromAt(md: ODict<Column>, col: Column, i: nat)
    requires i <= RowCount(md) <= |col|
    ensures |KeptFrom(md, col, i)| == |OkRowsFrom(md, i)|
    ensures forall k :: 0 <= k < |OkRowsFrom(md, i)| ==> KeptFrom(md, col, i)[k] == col[OkRowsFrom(md, i)[k]]
    decreases RowCount(md) - i
  {
    if i < RowCount(md) {
      KeptFromAt(md, col, i + 1);
      var rows, kept := OkRowsFrom(md, i + 1), KeptFrom(md, col, i + 1);
      if RowOk(md, i) {
        assert OkRowsFrom(md, i) == [i] + rows;
        assert KeptFrom(md, col, i) == [col[i]] + kept;
      } else {
        assert OkRowsFrom(md, i) == rows;
        assert KeptFrom(md, col, i) == kept;
      }
    }
  }

  /**
   * After the filter every channel holds, in order, its values at the
   * `None`-free rows and nothing from the other rows of the zip; channels of
   * equal length stay of equal length.
   */
  lemma KeepsNoneFreeRowsInOrder(md: ODict<Column>)
    ensures var rows := OkRowsFrom(md, 0);
      (forall k, l :: 0 <= k < l < |rows| ==> rows[k] < rows[l]) &&
      (forall j :: 0 <= j < RowCount(md) ==> (j in rows <==> RowOk(md, j)))
    ensures forall c :: 0 <= c < |md| ==>
      var rows := OkRowsFrom(md, 0);
      var col := FilterNonesOf(md)[c].1;
      |col| == |rows| + |md[c].1| - RowCount(md) &&
      forall k :: 0 <= k < |rows| ==> col[k] == md[c].1[rows[k]]
  {
    OkRowsFromExact(md, 0);
    forall c | 0 <= c < |md|
      ensures |FilterNonesOf(md)[c].1| == |OkRowsFrom(md, 0)| + |md[c].1| - RowCount(md)
      ensures forall k :: 0 <= k < |OkRowsFrom(md, 0)| ==> FilterNonesOf(md)[c].1[k] == md[c].1[OkRowsFrom(md, 0)[k]]
    {
      KeptFromAt(md, md[c].1, 0);
    }
  }

  lemma {:induction false} OkRowsAtMost(md: ODict<Column>, i: nat)
    requires i <= RowCount(md)
    ensures |OkRowsFrom(md, i)| <= RowCount(md) - i
    decreases RowCount(md) - i
  {
    if i < RowCount(md) {
      OkRowsAtMost(md, i + 1);
    }
  }

  /** Shortening every channel by the same amount shortens the zip by it. */
  lemma {:induction false} RowCountShift(a: ODict<Column>, b: ODict<Column>, d: nat)
    requires |a| == |b| && d <= RowCount(a)
    requires forall c :: 0 <= c < |a| ==> |b[c].1| + d == |a[c].1|
    ensures RowCount(b) + d == RowCount(a)
    decreases |a|
  {
    if |a| > 1 {
      assert forall c :: 0 <= c < |a| - 1 ==> a[1..][c] == a[c + 1] && b[1..][c] == b[c + 1];
      RowCountShift(a[1..], b[1..], d);
    }
  }

  /** No row of the filtered channels has a `None` in any channel. */
  lemma NoNoneLeft(md: ODict<Column>)
    ensures RowCount(FilterNonesOf(md)) == |OkRowsFrom(md, 0)|
    ensures forall i :: 0 <= i < RowCount(FilterNonesOf(md)) ==> RowOk(FilterNonesOf(md), i)
  {
    var r := FilterNonesOf(md);
    var rows := OkRowsFrom(md, 0);
    OkRowsAtMost(md, 0);
    var d := RowCount(md) - |rows|;
    forall c | 0 <= c < |md| ensures |r[c].1| + d == |md[c].1| {
      KeptFromAt(md, md[c].1, 0);
    }
    if |md| > 0 {
      RowCountShift(md, r, d);
    }
    forall i | 0 <= i < RowCount(r) ensures RowOk(r, i) {
      forall c | 0 <= c < |md| ensures r[c].1[i].Some? {
        KeptFromAt(md, md[c].1, 0);
        assert r[c].1[i] == md[c].1[rows[i]];
      }
    }
  }

  // ---------------------------------------------------------------------------
  // The deletion loop

  /** A channel once the recorded rows from `b` up have been deleted, highest first. */
  function DeletedFrom(md: ODict<Column>, col: Column, b: nat): Column
    requires b <= RowCount(md) <= |col|
  {
    col[..b] + KeptFrom(md, col, b) + col[RowCount(md)..]
  }

  /** A run of `None`-free rows survives whole. */
  lemma {:induction false} KeptFromRun(md: ODict<Column>, col: Column, a: nat, b: nat)
    requires a <= b <= RowCount(md) <= |col|
    requires forall j :: a <= j < b ==> RowOk(md, j)
    ensures KeptFrom(md, col, a) == col[a..b] + KeptFrom(md, col, b)
    decreases b - a
  {
    if a < b {
      KeptFromRun(md, col, a + 1, b);
      assert col[a..b] == [col[a]] + col[a + 1..b];
    }
  }

  /** Deleting index `r` of `col[..b] + kept + tail` merges it into the run `col[r + 1..b]`. */
  lemma DropInPrefix<T>(col: seq<T>, r: nat, b: nat, kept: seq<T>, tail: seq<T>)
    requires r < b <= |col|
    ensures var s := col[..b] + kept + tail; r < |s| && s[..r] + s[r + 1..] == col[..r] + (col[r + 1..b] + kept) + tail
  {
    var s := col[..b] + kept + tail;
    assert s[..r] == col[..r];
    assert s[r + 1..] == col[r + 1..b] + kept + tail;
  }

  /** Deleting recorded row `r` below the rows already deleted, with no other recorded row between. */
  lemma DeleteStep(md: ODict<Column>, col: Column, r: nat, b: nat)
    requires r < b <= RowCount(md) <= |col|
    requires !RowOk(md, r) && forall j :: r < j < b ==> RowOk(md, j)
    ensures var s := DeletedFrom(md, col, b); r < |s| && s[..r] + s[r + 1..] == DeletedFrom(md, col, r)
  {
    KeptFromRun(md, col, r + 1, b);
    assert KeptFrom(md, col, r) == KeptFrom(md, col, r + 1);
    DropInPrefix(col, r, b, KeptFrom(md, col, b), col[RowCount(md)..]);
  }

  /** The recorded rows up to `i`: increasing, and exactly the rows below `i` with a `None`. */
  predicate RecordedUpTo(md: ODict<Column>, rows: seq<nat>, i: nat)
    requires i <= RowCount(md)
  {
    (forall k, l :: 0 <= k < l < |rows| ==> rows[k] < rows[l]) &&
    (forall k :: 0 <= k < |rows| ==> rows[k] < i && !RowOk(md, rows[k])) &&
    (forall j :: 0 <= j < i && !RowOk(md, j) ==> j in rows)
  }

  /** The parameters record the filter mutates; `measurementData` is its `measurement_data` entry. */
  class RawDict {
    var measurementData: ODict<Column>

    constructor (md: ODict<Column>)
      ensures measurementData == md
    {
      measurementData := md;
    }
  }

  /** The channels once the recorded rows from `b` up are deleted. */
  ghost predicate DeletedState(md: ODict<Column>, current: ODict<Column>, b: nat)
    requires b <= RowCount(md)
  {
    |current| == |md| && forall c :: 0 <= c < |md| ==> current[c] == (md[c].0, DeletedFrom(md, md[c].1, b))
  }

  /** `for signal in keys: del measurement_data[signal][row]`. */
  method DeleteRow(raw: RawDict, row: nat, ghost md: ODict<Column>, ghost b: nat)
    requires row < b <= RowCount(md) && !RowOk(md, row) && forall j :: row < j < b ==> RowOk(md, j)
    requires DeletedState(md, raw.measurementData, b)
    modifies raw
    ensures DeletedState(md, raw.measurementData, row)
  {
    for c := 0 to |raw.measurementData|
      invariant |raw.measurementData| == |md|
      invariant forall c' :: 0 <= c' < |md| ==>
        raw.measurementData[c'] == (md[c'].0, DeletedFrom(md, md[c'].1, if c' < c then row else b))
    {
      DeleteStep(md, md[c].1, row, b);
      var (name, column) := raw.measurementData[c];
      raw.measurementData := raw.measurementData[c := (name, column[..row] + column[row + 1..])];
    }
  }

  /** Between consecutive recorded rows every row is `None`-free. */
  lemma RecordedGap(md: ODict<Column>, removed: seq<nat>, k: nat, b: nat)
    requires RecordedUpTo(md, removed, RowCount(md)) && k < |removed|
    requires b == if k + 1 == |removed| then RowCount(md) else removed[k + 1]
    ensures forall j :: removed[k] < j < b ==> RowOk(md, j)
  {
    forall j | removed[k] < j < b ensures RowOk(md, j) {
    }
  }

  /** Before the first recorded row every row is `None`-free. */
  lemma RecordedStart(md: ODict<Column>, removed: seq<nat>, b: nat)
    requires RecordedUpTo(md, removed, RowCount(md))
    requires b == if removed == [] then RowCount(md) else removed[0]
    ensures forall j :: 0 <= j < b ==> RowOk(md, j)
  {
    forall j | 0 <= j < b ensures RowOk(md, j) {
    }
  }

  /** The first loop: the indices of the rows of the zip that hold a `None`, in increasing order. */
  method RecordNoneRows(md: ODict<Column>) returns (removed: seq<nat>)
    ensures RecordedUpTo(md, removed, RowCount(md))
  {
    removed := [];
    for i := 0 to RowCount(md)
      invariant RecordedUpTo(md, removed, i)
    {
      if !RowOk(md, i) {
        removed := removed + [i];
      }
    }
  }

  /** `filter_nones_from_params_dict(raw_dict)`: the same record comes back, its channels filtered in place. */
  method FilterNonesFromParamsDict(raw: RawDict) returns (r: RawDict)
    modifies raw
    ensures r == raw
    ensures raw.measurementData == FilterNonesOf(old(raw.measurementData))
  {
    ghost var md := raw.measurementData;
    var count := RowCount(raw.measurementData);
    var removed := RecordNoneRows(raw.measurementData);
    var k := |removed|;
    ghost var b := count;
    forall c | 0 <= c < |md| ensures DeletedFrom(md, md[c].1, b) == md[c].1 {
      assert md[c].1[..count] + md[c].1[count..] == md[c].1;
    }
    while k > 0
      invariant 0 <= k <= |removed| && b == if k == |removed| then count else removed[k]
      invariant DeletedState(md, raw.measurementData, b)
    {
      k := k - 1;
      RecordedGap(md, removed, k, b);
      DeleteRow(raw, removed[k], md, b);
      b := removed[k];
    }
    RecordedStart(md, removed, b);
    forall c | 0 <= c < |md| ensures DeletedFrom(md, md[c].1, b) == FilteredColumn(md, md[c].1) {
      KeptFromRun(md, md[c].1, 0, b);
    }
    return raw;
  }
}
