/**
 * The XML side of the XML -> GEF and XML -> CPT conversions: an abstract
 * element tree (what lxml hands over after parsing), the recursive flattening
 * of `IMBROFile._parse_xml_to_dict_recursively`, and the `munch` attribute and
 * item access the converters then apply to the flattened record.
 */
module XmlTree {
  import opened Base
  import opened Strings
  import opened Numbers

  /** An lxml element: tag (possibly `{namespace}local`), attributes, namespace map, text and children in document order. */
  datatype Element = Element(
    tag: string,
    attrs: seq<(string, string)>,
    nsmap: map<Option<string>, string>,
    text: Option<string>,
    children: seq<Element>)

  /**
   * A flattened node: the text of a leaf (`None` for an empty element), a
   * dictionary of the children by local tag, or the `(tag, flag)` list a
   * `parameters` element becomes.
   */
  datatype Flat =
    | FText(text: Option<string>)
    | FDict(entries: map<string, Flat>)
    | FParams(params: seq<(string, bool)>)

  /** `[(c.tag.split('}')[-1], c.text in {'ja', 1}) for c in children]`: the text is a string or None, so only `'ja'` sets the flag. */
  function ParameterFlags(cs: seq<Element>): (r: seq<(string, bool)>)
    ensures |r| == |cs|
    ensures forall i :: 0 <= i < |cs| ==> r[i].0 == LocalName(cs[i].tag) && (r[i].1 <==> cs[i].text == Some("ja"))
  {
    seq(|cs|, i requires 0 <= i < |cs| => (LocalName(cs[i].tag), cs[i].text == Some("ja")))
  }

  /** What a child contributes to its parent's dictionary. */
  function ChildEntry(c: Element): Flat
    decreases c, |c.children| + 2
  {
    if LocalName(c.tag) == "parameters" then FParams(ParameterFlags(c.children)) else Flatten(c)
  }

  /** The dictionary after adding children `i..` of `e` to `acc`, later tags overwriting earlier ones. */
  function FlattenFrom(e: Element, i: nat, acc: map<string, Flat>): map<string, Flat>
    requires i <= |e.children|
    decreases e, |e.children| - i
  {
    if i == |e.children| then acc
    else
      var c := e.children[i];
      FlattenFrom(e, i + 1, acc[LocalName(c.tag) := ChildEntry(c)])
  }

  /** `_parse_xml_to_dict_recursively(e)`: the text of a leaf, else the dictionary of its children. */
  function Flatten(e: Element): Flat
    decreases e, |e.children| + 1
  {
    if e.children == [] then FText(e.text) else FDict(FlattenFrom(e, 0, map[]))
  }

  /** The recursive flattening as the source performs it: a fresh dictionary filled child by child. */
  method FlattenNode(e: Element) returns (r: Flat)
    ensures r == Flatten(e)
    decreases e
  {
    if e.children == [] {
      return FText(e.text);
    }
    var grandChildren: map<string, Flat> := map[];
    for i := 0 to |e.children|
      invariant FlattenFrom(e, i, grandChildren) == FlattenFrom(e, 0, map[])
    {
      var child := e.children[i];
      var tag := child.tag;
      if '}' in child.tag {
        tag := LocalName(child.tag);
      } else {
        LocalNameOfPlainTag(child.tag);
      }
      if tag == "parameters" {
        grandChildren := grandChildren[tag := FParams(ParameterFlags(child.children))];
      } else {
        var sub := FlattenNode(child);
        grandChildren := grandChildren[tag := sub];
      }
    }
    return FDict(grandChildren);
  }

  /** The local names of children `i..`. */
  function LocalTagsFrom(cs: seq<Element>, i: nat): set<string>
    requires i <= |cs|
  {
    set k | i <= k < |cs| :: LocalName(cs[k].tag)
  }

  lemma {:induction false} FlattenFromKeys(e: Element, i: nat, acc: map<string, Flat>)
    requires i <= |e.children|
    ensures FlattenFrom(e, i, acc).Keys == acc.Keys + LocalTagsFrom(e.children, i)
    decreases |e.children| - i
  {
    if i < |e.children| {
      var c := e.children[i];
      FlattenFromKeys(e, i + 1, acc[LocalName(c.tag) := ChildEntry(c)]);
      assert LocalTagsFrom(e.children, i) == {LocalName(c.tag)} + LocalTagsFrom(e.children, i + 1);
    }
  }

  /** A leaf flattens to its text; any other node to a dictionary keyed by exactly its children's local tags. */
  lemma FlattenShape(e: Element)
    ensures e.children == [] <==> Flatten(e).FText?
    ensures e.children == [] ==> Flatten(e) == FText(e.text)
    ensures e.children != [] ==>
      Flatten(e).FDict? && Flatten(e).entries.Keys == set k | 0 <= k < |e.children| :: LocalName(e.children[k].tag)
  {
    if e.children != [] {
      FlattenFromKeys(e, 0, map[]);
    }
  }

  /** Child `j` is the last child of `e` with local tag `name`. */
  predicate LastWithTag(e: Element, name: string, j: nat) {
    j < |e.children| && LocalName(e.children[j].tag) == name &&
    forall k :: j < k < |e.children| ==> LocalName(e.children[k].tag) != name
  }

  lemma {:induction false} FlattenFromLastWins(e: Element, i: nat, acc: map<string, Flat>, name: string, j: nat)
    requires i <= j && LastWithTag(e, name, j)
    ensures name in FlattenFrom(e, i, acc) && FlattenFrom(e, i, acc)[name] == ChildEntry(e.children[j])
    decreases |e.children| - i
  {
    var c := e.children[i];
    var acc' := acc[LocalName(c.tag) := ChildEntry(c)];
    if i < j {
      FlattenFromLastWins(e, i + 1, acc', name, j);
    } else {
      FlattenFromKeeps(e, i + 1, acc', name);
    }
  }

  lemma {:induction false} FlattenFromKeeps(e: Element, i: nat, acc: map<string, Flat>, name: string)
    requires i <= |e.children| && name in acc
    requires forall k :: i <= k < |e.children| ==> LocalName(e.children[k].tag) != name
    ensures name in FlattenFrom(e, i, acc) && FlattenFrom(e, i, acc)[name] == acc[name]
    decreases |e.children| - i
  {
    if i < |e.children| {
      var c := e.children[i];
      FlattenFromKeeps(e, i + 1, acc[LocalName(c.tag) := ChildEntry(c)], name);
    }
  }

  /**
   * With duplicate tags the last child wins; a `parameters` child becomes its
   * `(local tag, text == 'ja')` list in document order, any other child its
   * own flattening.
   */
  lemma FlattenLastDuplicateWins(e: Element, name: string, j: nat)
    requires LastWithTag(e, name, j)
    ensures Flatten(e).FDict? && name in Flatten(e).entries
    ensures name == "parameters" ==> Flatten(e).entries[name] == FParams(ParameterFlags(e.children[j].children))
    ensures name != "parameters" ==> Flatten(e).entries[name] == Flatten(e.children[j])
  {
    FlattenFromLastWins(e, 0, map[], name, j);
  }

  // ---------------------------------------------------------------------------
  // munch access on the flattened record

  /** `obj.name` on a munched value: a dictionary key, else AttributeError. */
  function Attr(f: Flat, name: string): (r: Result<Flat>)
    ensures r.Ok? <==> f.FDict? && name in f.entries
    ensures r.Err? ==> r.error == AttributeError(name)
  {
    if f.FDict? && name in f.entries then Ok(f.entries[name]) else Err(AttributeError(name))
  }

  /** `obj.a.b.c`: attribute access along a path, stopping at the first missing name. */
  function Path(f: Flat, names: seq<string>): (r: Result<Flat>)
    ensures names == [] ==> r == Ok(f)
    decreases |names|
  {
    if names == [] then Ok(f)
    else
      var g :- Attr(f, names[0]);
      Path(g, names[1..])
  }

  /** Following `p + q` is following `p`, then `q`. */
  lemma {:induction false} PathAppend(f: Flat, p: seq<string>, q: seq<string>)
    ensures Path(f, p + q) == (match Path(f, p) case Ok(g) => Path(g, q) case Err(e) => Err(e))
    decreases |p|
  {
    if p == [] {
      assert p + q == q;
    } else {
      assert (p + q)[1..] == p[1..] + q;
      assert (p + q)[0] == p[0];
      if Attr(f, p[0]).Ok? {
        PathAppend(Attr(f, p[0]).value, p[1..], q);
      }
    }
  }

  /** `obj['key']`: KeyError on a dictionary without it, TypeError on a string, None or list. */
  function Item(f: Flat, key: string): (r: Result<Flat>)
    ensures r.Ok? <==> f.FDict? && key in f.entries
    ensures r.Ok? ==> r.value == f.entries[key]
  {
    if !f.FDict? then Err(TypeError)
    else if key in f.entries then Ok(f.entries[key]) else Err(KeyError(key))
  }

  /** The string behind `obj.method(...)` for a str method: None, a dictionary or a list has no such attribute. */
  function StrOf(f: Flat, methodName: string): (r: Result<string>)
    ensures r.Ok? <==> f.FText? && f.text.Some?
  {
    if f.FText? && f.text.Some? then Ok(f.text.value) else Err(AttributeError(methodName))
  }

  /** `float(obj)`: ValueError on text that is no decimal number, TypeError on None, a dictionary or a list. */
  function FloatOf(f: Flat): (r: Result<real>)
    ensures r.Ok? <==> f.FText? && f.text.Some? && ParseFloat(f.text.value).Some?
  {
    if f.FText? && f.text.Some? then
      match ParseFloat(f.text.value)
      case None => Err(ValueError)
      case Some(v) => Ok(v)
    else Err(TypeError)
  }

  /** `bool(obj)`: non-empty text, dictionary or list. */
  predicate Truthy(f: Flat) {
    match f
    case FText(t) => t.Some? && t.value != ""
    case FDict(m) => m != map[]
    case FParams(ps) => ps != []
  }

  /**
   * A record field used as a dictionary key or as the separator of
   * `str.split`: its text, or None for an empty element; a munched
   * dictionary or a list is unhashable and no separator, so it raises TypeError.
   */
  function TextOrNone(f: Flat): (r: Result<Option<string>>)
    ensures r.Ok? <==> f.FText?
    ensures f.FText? ==> r.value == f.text
  {
    if f.FText? then Ok(f.text) else Err(TypeError)
  }
}
