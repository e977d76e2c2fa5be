/**
 * Python dictionaries as the conversion code relies on them: insertion-ordered
 * lists of entries where assigning to an existing key replaces its value in
 * place and a new key goes last.
 */
module OrderedDict {
  import opened Base

  type ODict<V> = seq<(string, V)>

  /** `d.get(k)`: the value of the first entry with key `k`. */
  function Get<V>(m: ODict<V>, k: string): Option<V> {
    if m == [] then None else if m[0].0 == k then Some(m[0].1) else Get(m[1..], k)
  }

  /** `d[k] = v`: an existing key keeps its place, a new one goes last. */
  function Set<V>(m: ODict<V>, k: string, v: V): ODict<V> {
    if m == [] then [(k, v)] else if m[0].0 == k then [(k, v)] + m[1..] else [m[0]] + Set(m[1..], k, v)
  }

  /** `list(d.keys())`. */
  function Keys<V>(m: ODict<V>): (r: seq<string>)
    ensures |r| == |m| && forall i :: 0 <= i < |m| ==> r[i] == m[i].0
  {
    seq(|m|, i requires 0 <= i < |m| => m[i].0)
  }

  /** No key occurs twice. */
  predicate Distinct<V>(m: ODict<V>) {
    forall i, j :: 0 <= i < j < |m| ==> m[i].0 != m[j].0
  }

  /** A read after a write sees the written value, and only under its key. */
  lemma {:induction false} GetSet<V>(m: ODict<V>, k: string, v: V, k': string)
    ensures Get(Set(m, k, v), k') == if k' == k then Some(v) else Get(m, k')
  {
    if m != [] && m[0].0 != k {
      GetSet(m[1..], k, v, k');
    }
  }

  /** A write keeps the key order: an existing key stays where it is, a new key is appended. */
  lemma {:induction false} SetKeys<V>(m: ODict<V>, k: string, v: V)
    ensures Keys(Set(m, k, v)) == if k in Keys(m) then Keys(m) else Keys(m) + [k]
  {
    if m != [] {
      assert Keys(m) == [m[0].0] + Keys(m[1..]);
      if m[0].0 != k {
        SetKeys(m[1..], k, v);
        assert Keys(Set(m, k, v)) == [m[0].0] + Keys(Set(m[1..], k, v));
        assert k in Keys(m) <==> k in Keys(m[1..]);
      } else {
        assert Keys(Set(m, k, v)) == [k] + Keys(m[1..]);
      }
    }
  }

  /** A write keeps the keys distinct. */
  lemma SetDistinct<V>(m: ODict<V>, k: string, v: V)
    requires Distinct(m)
    ensures Distinct(Set(m, k, v))
  {
    SetKeys(m, k, v);
    var r := Set(m, k, v);
    forall i, j | 0 <= i < j < |r| ensures r[i].0 != r[j].0 {
      assert Keys(r)[i] == r[i].0 && Keys(r)[j] == r[j].0;
      if k !in Keys(m) && j == |m| {
        assert Keys(m)[i] == r[i].0;
      } else {
        assert Keys(m)[i] == r[i].0 && Keys(m)[j] == r[j].0;
      }
    }
  }

  /** With distinct keys, the entry at position `t` is what `Get` finds. */
  lemma {:induction false} GetAt<V>(m: ODict<V>, t: nat)
    requires Distinct(m) && t < |m|
    ensures Get(m, m[t].0) == Some(m[t].1)
  {
    if t > 0 {
      GetAt(m[1..], t - 1);
    }
  }

  /** `Get` finds nothing under a key no entry has. */
  lemma {:induction false} GetAbsent<V>(m: ODict<V>, k: string)
    requires forall i :: 0 <= i < |m| ==> m[i].0 != k
    ensures Get(m, k) == None
  {
    if m != [] {
      GetAbsent(m[1..], k);
    }
  }

  /** `Get` finds something exactly under the keys of the entries. */
  lemma {:induction false} GetSomeIff<V>(m: ODict<V>, k: string)
    ensures Get(m, k).Some? <==> k in Keys(m)
  {
    if m != [] {
      assert Keys(m) == [m[0].0] + Keys(m[1..]);
      GetSomeIff(m[1..], k);
    }
  }

  /** With distinct keys, a write to an existing key changes that entry and no other. */
  lemma {:induction false} SetAt<V>(m: ODict<V>, k: string, v: V, q: nat)
    requires Distinct(m) && k in Keys(m) && q < |m|
    ensures |Set(m, k, v)| == |m|
    ensures Set(m, k, v)[q] == if m[q].0 == k then (k, v) else m[q]
  {
    assert Keys(m) == [m[0].0] + Keys(m[1..]);
    if m[0].0 != k {
      SetAt(m[1..], k, v, if q > 0 then q - 1 else 0);
    }
  }
}
