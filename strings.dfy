/**
 * The Python `str` operations the conversion code relies on: `split` with and
 * without a separator, `join`, `strip`, `replace`, `lower`, and the
 * `tag.split('}')[-1]` idiom that drops an lxml `{namespace}` prefix.
 */
module Strings {
  import opened Base

  /** Python's whitespace for `strip()` and `split()`, restricted to the ASCII range. */
  predicate IsSpace(c: char) {
    c == ' ' || '\t' <= c <= '\r' || '\U{1C}' <= c <= '\U{1F}'
  }

  /** `s.split(sep)` for a non-empty separator: cut at the leftmost occurrences, which do not overlap. */
  function Split(s: string, sep: string): (r: seq<string>)
    requires sep != ""
    ensures |r| >= 1
    decreases |s|
  {
    if |s| < |sep| then [s]
    else if s[..|sep|] == sep then [""] + Split(s[|sep|..], sep)
    else
      var rest := Split(s[1..], sep);
      [[s[0]] + rest[0]] + rest[1..]
  }

  /** `sep.join(parts)`. */
  function Join(parts: seq<string>, sep: string): string {
    if |parts| == 0 then ""
    else if |parts| == 1 then parts[0]
    else parts[0] + sep + Join(parts[1..], sep)
  }

  /** Length of the run of non-whitespace characters that starts `s`. */
  function WordLength(s: string): (n: nat)
    ensures n <= |s|
    ensures forall i :: 0 <= i < n ==> !IsSpace(s[i])
    ensures n < |s| ==> IsSpace(s[n])
  {
    if s == [] || IsSpace(s[0]) then 0 else 1 + WordLength(s[1..])
  }

  /** `s.split()` with no separator: the maximal runs of non-whitespace characters. */
  function SplitWhitespace(s: string): (r: seq<string>)
    ensures forall i :: 0 <= i < |r| ==> r[i] != "" && forall j :: 0 <= j < |r[i]| ==> !IsSpace(r[i][j])
    decreases |s|
  {
    if s == [] then []
    else if IsSpace(s[0]) then SplitWhitespace(s[1..])
    else
      var n := WordLength(s);
      [s[..n]] + SplitWhitespace(s[n..])
  }

  /**
   * `s.split(sep)` where `sep` is a Python value: `None` splits on whitespace
   * runs, the empty string raises ValueError.
   */
  function SplitBy(s: string, sep: Option<string>): (r: Result<seq<string>>)
    ensures sep == Some("") <==> r.Err?
    ensures sep.Some? && sep.value != "" ==> r == Ok(Split(s, sep.value))
  {
    match sep
    case None => Ok(SplitWhitespace(s))
    case Some(t) => if t == "" then Err(ValueError) else Ok(Split(s, t))
  }

  /** Number of whitespace characters that open `s`. */
  function LeadingSpaces(s: string): (n: nat)
    ensures n <= |s|
    ensures n < |s| ==> !IsSpace(s[n])
  {
    if s != [] && IsSpace(s[0]) then 1 + LeadingSpaces(s[1..]) else 0
  }

  /** Number of whitespace characters that close `s`. */
  function TrailingSpaces(s: string): (n: nat)
    ensures n <= |s|
    ensures n < |s| ==> !IsSpace(s[|s| - 1 - n])
  {
    if s != [] && IsSpace(s[|s| - 1]) then 1 + TrailingSpaces(s[..|s| - 1]) else 0
  }

  /** `s.lstrip()`. */
  function LStrip(s: string): string {
    s[LeadingSpaces(s)..]
  }

  /** `s.rstrip()`. */
  function RStrip(s: string): string {
    s[..|s| - TrailingSpaces(s)]
  }

  /** `s.strip()`: both ends lose their whitespace. */
  function Strip(s: string): string {
    RStrip(LStrip(s))
  }

  /** `s.replace(c, with)` for a one-character `c`: every occurrence, left to right. */
  function ReplaceAll(s: string, c: char, with: string): (r: string)
    ensures c !in with ==> c !in r
    ensures c !in s ==> r == s
  {
    if s == [] then [] else (if s[0] == c then with else [s[0]]) + ReplaceAll(s[1..], c, with)
  }

  /** Replacing distributes over concatenation. */
  lemma {:induction false} ReplaceAllAppend(a: string, b: string, c: char, with: string)
    ensures ReplaceAll(a + b, c, with) == ReplaceAll(a, c, with) + ReplaceAll(b, c, with)
  {
    if a == [] {
      assert a + b == b;
    } else {
      assert (a + b)[1..] == a[1..] + b;
      ReplaceAllAppend(a[1..], b, c, with);
    }
  }

  /** Three separator-free pieces joined by the replaced character come out joined by the replacement. */
  lemma ReplaceAllInThree(x: string, y: string, z: string, c: char, with: string)
    requires c !in x && c !in y && c !in z
    ensures ReplaceAll(x + [c] + y + [c] + z, c, with) == x + with + y + with + z
  {
    ReplaceAllAppend(x + [c] + y + [c], z, c, with);
    ReplaceAllAppend(x + [c] + y, [c], c, with);
    ReplaceAllAppend(x + [c], y, c, with);
    ReplaceAllAppend(x, [c], c, with);
    assert ReplaceAll([c], c, with) == with;
  }

  function LowerChar(c: char): char {
    if 'A' <= c <= 'Z' then (c as int + 32) as char else c
  }

  predicate IsLower(c: char) {
    'a' <= c <= 'z'
  }

  predicate IsUpper(c: char) {
    'A' <= c <= 'Z'
  }

  /** `s.lower()` on the ASCII letters. */
  function Lower(s: string): (r: string)
    ensures |r| == |s|
    ensures forall i :: 0 <= i < |r| ==> !IsUpper(r[i])
  {
    if s == [] then [] else [LowerChar(s[0])] + Lower(s[1..])
  }

  /** `tag.split('}')[-1]`: an lxml tag in `{namespace}local` form loses its namespace part. */
  function LocalName(tag: string): string {
    var parts := Split(tag, "}");
    parts[|parts| - 1]
  }

  // ---------------------------------------------------------------------------
  // Properties of split and join

  lemma JoinCons(p: string, parts: seq<string>, sep: string)
    requires |parts| >= 1
    ensures Join([p] + parts, sep) == p + sep + Join(parts, sep)
  {
    assert ([p] + parts)[1..] == parts;
  }

  /** Prefixing the first part with a character prefixes the join. */
  lemma JoinPrefixFirst(c: char, parts: seq<string>, sep: string)
    requires |parts| >= 1
    ensures Join([[c] + parts[0]] + parts[1..], sep) == [c] + Join(parts, sep)
  {
    if |parts| > 1 {
      JoinCons([c] + parts[0], parts[1..], sep);
      JoinCons(parts[0], parts[1..], sep);
      assert parts == [parts[0]] + parts[1..];
    }
  }

  /** Joining the pieces of a split with the same separator gives back the string. */
  lemma {:induction false} JoinSplit(s: string, sep: string)
    requires sep != ""
    ensures Join(Split(s, sep), sep) == s
    decreases |s|
  {
    if |s| < |sep| {
      assert Split(s, sep) == [s];
    } else if s[..|sep|] == sep {
      var rest := s[|sep|..];
      assert Split(s, sep) == [""] + Split(rest, sep);
      JoinSplit(rest, sep);
      JoinCons("", Split(rest, sep), sep);
      assert s == s[..|sep|] + rest;
    } else {
      var rest := Split(s[1..], sep);
      assert Split(s, sep) == [[s[0]] + rest[0]] + rest[1..];
      JoinSplit(s[1..], sep);
      JoinPrefixFirst(s[0], rest, sep);
      assert s == [s[0]] + s[1..];
    }
  }

  /** A string without the (one-character) separator splits into itself alone. */
  lemma {:induction false} SplitWithoutSeparator(s: string, sep: string)
    requires |sep| == 1 && sep[0] !in s
    ensures Split(s, sep) == [s]
    decreases |s|
  {
    if |s| >= 1 {
      assert s[..1] != sep by { assert s[..1][0] == s[0]; }
      SplitWithoutSeparator(s[1..], sep);
      assert [s[0]] + s[1..] == s;
    }
  }

  /** The piece before the first separator comes off the front. */
  lemma {:induction false} SplitFirstPiece(p: string, sep: string, rest: string)
    requires |sep| == 1 && sep[0] !in p
    ensures Split(p + sep + rest, sep) == [p] + Split(rest, sep)
    decreases |p|
  {
    var s := p + sep + rest;
    if p == [] {
      assert s == sep + rest;
      assert s[..1] == sep;
      assert s[1..] == rest;
    } else {
      assert s[..1] != sep by { assert s[..1][0] == p[0]; }
      assert s[1..] == p[1..] + sep + rest;
      SplitFirstPiece(p[1..], sep, rest);
      assert [p[0]] + p[1..] == p;
    }
  }

  /** Splitting the join of separator-free parts recovers the parts. */
  lemma {:induction false} SplitJoin(parts: seq<string>, sep: string)
    requires |sep| == 1 && |parts| >= 1
    requires forall i :: 0 <= i < |parts| ==> sep[0] !in parts[i]
    ensures Split(Join(parts, sep), sep) == parts
    decreases |parts|
  {
    if |parts| == 1 {
      SplitWithoutSeparator(parts[0], sep);
    } else {
      SplitJoin(parts[1..], sep);
      SplitFirstPiece(parts[0], sep, Join(parts[1..], sep));
      assert parts == [parts[0]] + parts[1..];
    }
  }

  /** A character absent from the parts and the separator is absent from the join. */
  lemma {:induction false} JoinAvoids(parts: seq<string>, sep: string, c: char)
    requires c !in sep && forall i :: 0 <= i < |parts| ==> c !in parts[i]
    ensures c !in Join(parts, sep)
    decreases |parts|
  {
    if |parts| > 1 {
      JoinAvoids(parts[1..], sep, c);
    }
  }

  /** With a one-character separator no piece contains it. */
  lemma {:induction false} SplitPiecesAreSeparatorFree(s: string, sep: string)
    requires |sep| == 1
    ensures forall i :: 0 <= i < |Split(s, sep)| ==> sep[0] !in Split(s, sep)[i]
    decreases |s|
  {
    if |s| >= 1 {
      SplitPiecesAreSeparatorFree(s[1..], sep);
      if s[..1] != sep {
        assert s[0] != sep[0] by { assert s[..1] == [s[0]]; }
      }
    }
  }

  /** The local name carries no `}` and ends the tag. */
  lemma LocalNameIsSuffix(tag: string)
    ensures '}' !in LocalName(tag)
    ensures |LocalName(tag)| <= |tag| && tag[|tag| - |LocalName(tag)|..] == LocalName(tag)
  {
    var parts := Split(tag, "}");
    SplitPiecesAreSeparatorFree(tag, "}");
    JoinSplit(tag, "}");
    JoinEndsWithLast(parts, "}");
  }

  lemma {:induction false} JoinEndsWithLast(parts: seq<string>, sep: string)
    requires |parts| >= 1
    ensures var j := Join(parts, sep); var l := parts[|parts| - 1];
      |l| <= |j| && j[|j| - |l|..] == l
    decreases |parts|
  {
    if |parts| > 1 {
      JoinEndsWithLast(parts[1..], sep);
    }
  }

  /** A tag without a namespace is its own local name. */
  lemma LocalNameOfPlainTag(tag: string)
    requires '}' !in tag
    ensures LocalName(tag) == tag
  {
    SplitWithoutSeparator(tag, "}");
  }

  /** `{namespace}local` has local name `local`. */
  lemma LocalNameOfQualifiedTag(ns: string, local: string)
    requires '}' !in ns && '}' !in local
    ensures LocalName("{" + ns + "}" + local) == local
  {
    var ns' := "{" + ns;
    assert '}' !in ns' by {
      assert forall i :: 0 <= i < |ns'| ==> ns'[i] == '{' || ns'[i] == ns[i - 1];
    }
    assert "{" + ns + "}" + local == ns' + "}" + local;
    SplitFirstPiece(ns', "}", local);
    SplitWithoutSeparator(local, "}");
  }
}
