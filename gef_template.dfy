/**
 * The template half of the GEF -> IMBRO XML conversion: the IMBRO template
 * document loaded into an ordered tree (`GEFFile._parse_xml_template`), the
 * overlay of the record's data onto that tree (`_reformat_using_template`),
 * and the element tree built from the filled template (`_build_xml`).
 */
module GefTemplate {
  import opened Base
  import opened Strings
  import opened OrderedDict
  import opened XmlTree

  /** A Python value held by the GEF record and written into a template leaf. */
  datatype Scalar = SNone | SText(text: string) | SNum(num: real) | SList(nums: seq<real>)

  /** An lxml namespace map: prefix (None for the default namespace) -> URI. */
  type Nsmap = map<Option<string>, string>

  /** The namespace every IMBRO CPT document defaults to. */
  const DscptNamespace: string := "http://www.broservices.nl/xsd/dscpt/1.1"

  /** A template node: its `attributes`, `default` (its text), `nsmap` and `value`. */
  datatype TNode = TNode(attributes: seq<(string, string)>, default: Option<string>, nsmap: Nsmap, value: TValue)

  /** A node's value: the text of a leaf (or what the data puts there), or its children keyed by full tag, in order. */
  datatype TValue = TLeaf(leaf: Scalar) | TDict(children: ODict<TNode>)

  // ---------------------------------------------------------------------------
  // _parse_xml_template

  /** `node.text` as a template leaf. */
  function LeafOf(text: Option<string>): Scalar {
    if text.None? then SNone else SText(text.value)
  }

  /**
   * The namespace map a node stores: the root its own; any other node its
   * parent's, unless both are non-empty and differ, when only the prefixes
   * the parent lacks; a child of a node that stored an empty map its own.
   */
  function StoredNsmap(own: Nsmap, parent: Option<Nsmap>): (r: Nsmap)
    ensures parent.None? || parent.value == map[] ==> r == own
    ensures parent.Some? && parent.value != map[] && (own == map[] || own == parent.value) ==> r == parent.value
    ensures parent.Some? && parent.value != map[] && own != map[] && own != parent.value ==>
      (forall k :: k in r <==> k in own && k !in parent.value) && forall k :: k in r ==> r[k] == own[k]
  {
    match parent
    case None => own
    case Some(p) =>
      if own != map[] && p != map[] && own != p then map k | k in own.Keys - p.Keys :: own[k]
      else if p != map[] then p else own
  }

  /**
   * Whether the stored map is the very dictionary the root stores: the root's
   * own, or inherited from a parent that stores it. The default namespace
   * the root receives at the end therefore appears in every such node.
   */
  predicate SharesRoot(own: Nsmap, parent: Option<Nsmap>, parentShares: bool) {
    match parent
    case None => true
    case Some(p) => parentShares && p != map[] && (own == map[] || own == p)
  }

  /** The stored map as it reads once the root has added the default namespace. */
  function WithDefault(m: Nsmap, shares: bool): Nsmap {
    if shares then m[None := DscptNamespace] else m
  }

  /** `_parse_xml_template(node, parent_nsmap)` for any node; `parent` is None for the root. */
  function NodeOf(e: Element, parent: Option<Nsmap>, parentShares: bool): TNode
    decreases e, |e.children| + 1
  {
    var stored := StoredNsmap(e.nsmap, parent);
    var shares := SharesRoot(e.nsmap, parent, parentShares);
    TNode(e.attrs, e.text, WithDefault(stored, shares),
      if e.children == [] then TLeaf(LeafOf(e.text)) else TDict(ChildrenOf(e, 0, stored, shares, [])))
  }

  /** Children `i..` of `e` added to `acc` under their full tags: a repeated tag keeps its first place and takes the last value. */
  function ChildrenOf(e: Element, i: nat, stored: Nsmap, shares: bool, acc: ODict<TNode>): ODict<TNode>
    requires i <= |e.children|
    decreases e, |e.children| - i
  {
    if i == |e.children| then acc
    else
      var c := e.children[i];
      ChildrenOf(e, i + 1, stored, shares, Set(acc, c.tag, NodeOf(c, Some(stored), shares)))
  }

  /** The loaded template: the root's tag mapped to its structure. */
  function TemplateOf(root: Element): ODict<TNode> {
    [(root.tag, NodeOf(root, None, false))]
  }

  /** `_parse_xml_template` as the source runs it: a fresh ordered dictionary per node, filled child by child. */
  method ParseXmlTemplate(node: Element, parentNsmap: Option<Nsmap>, parentShares: bool) returns (r: TNode)
    ensures r == NodeOf(node, parentNsmap, parentShares)
    decreases node
  {
    var nsmap := if parentNsmap.Some? && parentNsmap.value != map[] then parentNsmap.value else node.nsmap;
    var shares := parentNsmap.None? || (parentShares && parentNsmap.value != map[]);
    if node.nsmap != map[] && parentNsmap.Some? && parentNsmap.value != map[] && node.nsmap != parentNsmap.value {
      nsmap := map k | k in node.nsmap.Keys - parentNsmap.value.Keys :: node.nsmap[k];
      shares := false;
    }
    var value := TLeaf(LeafOf(node.text));
    if node.children != [] {
      var children: ODict<TNode> := [];
      for i := 0 to |node.children|
        invariant ChildrenOf(node, i, nsmap, shares, children) == ChildrenOf(node, 0, nsmap, shares, [])
      {
        var child := ParseXmlTemplate(node.children[i], Some(nsmap), shares);
        children := Set(children, node.children[i].tag, child);
      }
      value := TDict(children);
    }
    return TNode(node.attrs, node.text, WithDefault(nsmap, shares), value);
  }

  /** The keys of `keys` followed by those of `tags` not seen before, in first-occurrence order. */
  function TagOrder(keys: seq<string>, tags: seq<string>): seq<string>
    decreases |tags|
  {
    if tags == [] then keys
    else TagOrder(if tags[0] in keys then keys else keys + [tags[0]], tags[1..])
  }

  /** The tags of children `i..`. */
  function TagsFrom(cs: seq<Element>, i: nat): (r: seq<string>)
    requires i <= |cs|
    ensures |r| == |cs| - i && forall j :: 0 <= j < |r| ==> r[j] == cs[i + j].tag
  {
    seq(|cs| - i, j requires 0 <= j < |cs| - i => cs[i + j].tag)
  }

  lemma {:induction false} ChildrenOfKeys(e: Element, i: nat, stored: Nsmap, shares: bool, acc: ODict<TNode>)
    requires i <= |e.children|
    ensures Keys(ChildrenOf(e, i, stored, shares, acc)) == TagOrder(Keys(acc), TagsFrom(e.children, i))
    ensures Distinct(acc) ==> Distinct(ChildrenOf(e, i, stored, shares, acc))
    decreases |e.children| - i
  {
    if i < |e.children| {
      var c := e.children[i];
      var acc' := Set(acc, c.tag, NodeOf(c, Some(stored), shares));
      SetKeys(acc, c.tag, NodeOf(c, Some(stored), shares));
      if Distinct(acc) {
        SetDistinct(acc, c.tag, NodeOf(c, Some(stored), shares));
      }
      ChildrenOfKeys(e, i + 1, stored, shares, acc');
      assert TagsFrom(e.children, i)[1..] == TagsFrom(e.children, i + 1);
    }
  }

  /** With no repeated tag, first-occurrence order is plain order. */
  lemma {:induction false} TagOrderOfFresh(keys: seq<string>, tags: seq<string>)
    requires forall j :: 0 <= j < |tags| ==> tags[j] !in keys
    requires forall j, k :: 0 <= j < k < |tags| ==> tags[j] != tags[k]
    ensures TagOrder(keys, tags) == keys + tags
    decreases |tags|
  {
    if tags != [] {
      TagOrderOfFresh(keys + [tags[0]], tags[1..]);
      assert keys + [tags[0]] + tags[1..] == keys + tags;
    }
  }

  /** Child `j` is the last child of `e` with full tag `tag`. */
  predicate LastWithFullTag(e: Element, tag: string, j: nat) {
    j < |e.children| && e.children[j].tag == tag &&
    forall k :: j < k < |e.children| ==> e.children[k].tag != tag
  }

  lemma {:induction false} ChildrenOfLastWins(e: Element, i: nat, stored: Nsmap, shares: bool, acc: ODict<TNode>, tag: string, j: nat)
    requires i <= |e.children| && LastWithFullTag(e, tag, j)
    requires i <= j || Get(acc, tag) == Some(NodeOf(e.children[j], Some(stored), shares))
    ensures Get(ChildrenOf(e, i, stored, shares, acc), tag) == Some(NodeOf(e.children[j], Some(stored), shares))
    decreases |e.children| - i
  {
    if i < |e.children| {
      var c := e.children[i];
      GetSet(acc, c.tag, NodeOf(c, Some(stored), shares), tag);
      ChildrenOfLastWins(e, i + 1, stored, shares, Set(acc, c.tag, NodeOf(c, Some(stored), shares)), tag, j);
    }
  }

  /**
   * A node keeps its attributes and text; a leaf's value is its text, any
   * other node's value its children in document order under their full tags,
   * a repeated tag holding its first place with the last such child's
   * structure.
   */
  lemma TemplateNodeShape(e: Element, parent: Option<Nsmap>, parentShares: bool)
    ensures var n := NodeOf(e, parent, parentShares);
      n.attributes == e.attrs && n.default == e.text &&
      (e.children == [] <==> n.value.TLeaf?) &&
      (e.children == [] ==> n.value == TLeaf(LeafOf(e.text)))
    ensures e.children != [] ==>
      var n := NodeOf(e, parent, parentShares);
      var stored := StoredNsmap(e.nsmap, parent);
      var shares := SharesRoot(e.nsmap, parent, parentShares);
      Keys(n.value.children) == TagOrder([], TagsFrom(e.children, 0)) && Distinct(n.value.children) &&
      forall j :: 0 <= j < |e.children| && LastWithFullTag(e, e.children[j].tag, j) ==>
        Get(n.value.children, e.children[j].tag) == Some(NodeOf(e.children[j], Some(stored), shares))
  {
    if e.children != [] {
      var stored := StoredNsmap(e.nsmap, parent);
      var shares := SharesRoot(e.nsmap, parent, parentShares);
      ChildrenOfKeys(e, 0, stored, shares, []);
      forall j | 0 <= j < |e.children| && LastWithFullTag(e, e.children[j].tag, j)
        ensures Get(ChildrenOf(e, 0, stored, shares, []), e.children[j].tag) == Some(NodeOf(e.children[j], Some(stored), shares))
      {
        ChildrenOfLastWins(e, 0, stored, shares, [], e.children[j].tag, j);
      }
    }
  }

  /** Children with distinct tags appear in the template exactly in document order. */
  lemma TemplateChildrenInOrder(e: Element, parent: Option<Nsmap>, parentShares: bool)
    requires e.children != []
    requires forall j, k :: 0 <= j < k < |e.children| ==> e.children[j].tag != e.children[k].tag
    ensures Keys(NodeOf(e, parent, parentShares).value.children) == TagsFrom(e.children, 0)
  {
    ChildrenOfKeys(e, 0, StoredNsmap(e.nsmap, parent), SharesRoot(e.nsmap, parent, parentShares), []);
    TagOrderOfFresh([], TagsFrom(e.children, 0));
  }

  /**
   * The root keeps its own namespace map plus the default namespace; a node
   * whose map equals its parent's (or is empty) and whose parent stores the
   * root's dictionary shows that default namespace too; a node that declares
   * new prefixes stores just those.
   */
  lemma TemplateNamespaces(root: Element, e: Element, p: Nsmap, parentShares: bool)
    ensures TemplateOf(root)[0].1.nsmap == root.nsmap[None := DscptNamespace]
    ensures p != map[] && (e.nsmap == map[] || e.nsmap == p) ==>
      NodeOf(e, Some(p), parentShares).nsmap == if parentShares then p[None := DscptNamespace] else p
    ensures p != map[] && e.nsmap != map[] && e.nsmap != p ==>
      var m := NodeOf(e, Some(p), parentShares).nsmap;
      (forall k :: k in m <==> k in e.nsmap && k !in p) && forall k :: k in m ==> m[k] == e.nsmap[k]
  {
  }

  // ---------------------------------------------------------------------------
  // _reformat_using_template

  /** The data overlaid on the template: a (munched) dictionary of scalars and nested dictionaries. */
  datatype DValue = DLeaf(scalar: Scalar) | DDict(items: ODict<DValue>)

  /**
   * The first template tag from position `j` on whose local name is `tag`:
   * `tag_in_template` of the source's inner loop.
   */
  function MatchFrom(keys: seq<string>, tag: string, j: nat): (r: Option<nat>)
    requires j <= |keys|
    ensures r.Some? ==> j <= r.value < |keys| && LocalName(keys[r.value]) == tag
    ensures r.Some? ==> forall q :: j <= q < r.value ==> LocalName(keys[q]) != tag
    ensures r.None? <==> forall q :: j <= q < |keys| ==> LocalName(keys[q]) != tag
    decreases |keys| - j
  {
    if j == |keys| then None
    else if LocalName(keys[j]) == tag then Some(j)
    else MatchFrom(keys, tag, j + 1)
  }

  /** Two ordered templates with the same tags, attributes, defaults and namespace maps, position by position. */
  predicate SameSkeleton(a: ODict<TNode>, b: ODict<TNode>) {
    |a| == |b| &&
    forall q :: 0 <= q < |a| ==>
      a[q].0 == b[q].0 && a[q].1.attributes == b[q].1.attributes &&
      a[q].1.default == b[q].1.default && a[q].1.nsmap == b[q].1.nsmap
  }

  lemma SameSkeletonKeys(a: ODict<TNode>, b: ODict<TNode>)
    requires SameSkeleton(a, b)
    ensures Keys(a) == Keys(b)
  {
  }

  /** Replacing the value of the first entry with key `k` keeps the skeleton. */
  lemma {:induction false} SetValueSkeleton(m: ODict<TNode>, k: string, v: TValue)
    requires Get(m, k).Some?
    ensures SameSkeleton(Set(m, k, Get(m, k).value.(value := v)), m)
  {
    if m[0].0 != k {
      SetValueSkeleton(m[1..], k, v);
    }
  }

  /** What a matched data entry puts into the node's value: the recursion for a dictionary, the scalar itself otherwise. */
  function NewValue(v: DValue, t: TValue): Result<TValue>
    decreases v, 2
  {
    if v.DDict? then FillValue(v, t) else Ok(TLeaf(v.scalar))
  }

  /**
   * `_reformat_using_template(data, template, skip_root=False)`: a leaf
   * template has no `keys()`, so any data raises AttributeError on it; a
   * dictionary template is filled entry by entry.
   */
  function FillValue(d: DValue, t: TValue): (r: Result<TValue>)
    requires d.DDict?
    ensures t.TLeaf? ==> (r.Ok? <==> d.items == [])
    ensures t.TLeaf? && r.Ok? ==> r.value == t
    ensures t.TDict? && r.Ok? ==> r.value.TDict? && SameSkeleton(r.value.children, t.children)
    decreases d, 1
  {
    match t
    case TLeaf(_) => if d.items == [] then Ok(t) else Err(AttributeError("keys"))
    case TDict(template) =>
      var filled :- FillFrom(d, 0, template, template);
      Ok(TDict(filled))
  }

  /**
   * The data items `i..` written into `filled`: an item whose tag matches no
   * template tag is skipped, a matched one replaces the value of the matched
   * node, recursing into the template's own value for a dictionary.
   */
  function FillFrom(d: DValue, i: nat, template: ODict<TNode>, filled: ODict<TNode>): (r: Result<ODict<TNode>>)
    requires d.DDict? && i <= |d.items| && SameSkeleton(filled, template)
    ensures r.Ok? ==> SameSkeleton(r.value, template)
    decreases d, 0, |d.items| - i
  {
    if i == |d.items| then Ok(filled)
    else
      var tag := d.items[i].0;
      match MatchFrom(Keys(template), tag, 0)
      case None => FillFrom(d, i + 1, template, filled)
      case Some(j) =>
        var k := template[j].0;
        SameSkeletonKeys(filled, template);
        GetSomeIff(filled, k);
        var node := Get(filled, k).value;
        var value :- NewValue(d.items[i].1, template[j].1.value);
        SetValueSkeleton(filled, k, value);
        FillFrom(d, i + 1, template, Set(filled, k, node.(value := value)))
  }

  /** `_reformat_using_template(data, template)`: only the root's value is filled; an empty template has no root and raises IndexError. */
  function ReformatUsingTemplate(data: DValue, template: ODict<TNode>): (r: Result<ODict<TNode>>)
    requires data.DDict?
    ensures template == [] ==> r == Err(IndexError)
    ensures r.Ok? ==> SameSkeleton(r.value, template) && r.value[1..] == template[1..]
    ensures r.Ok? ==> FillValue(data, template[0].1.value) == Ok(r.value[0].1.value)
  {
    if template == [] then Err(IndexError)
    else
      var root := template[0];
      var value :- FillValue(data, root.1.value);
      Ok([(root.0, root.1.(value := value))] + template[1..])
  }

  /** The first data item from `i` on whose tag matches template position `q`. */
  function WriterFrom(items: ODict<DValue>, i: nat, keys: seq<string>, q: nat): (r: Option<nat>)
    requires i <= |items|
    ensures r.Some? ==> i <= r.value < |items| && MatchFrom(keys, items[r.value].0, 0) == Some(q)
    ensures r.None? ==> forall p :: i <= p < |items| ==> MatchFrom(keys, items[p].0, 0) != Some(q)
    decreases |items| - i
  {
    if i == |items| then None
    else if MatchFrom(keys, items[i].0, 0) == Some(q) then Some(i)
    else WriterFrom(items, i + 1, keys, q)
  }

  /** Two data items with distinct tags never match the same template position. */
  lemma OneWriter(items: ODict<DValue>, keys: seq<string>, p: nat, p': nat, q: nat)
    requires Distinct(items) && p < p' < |items|
    requires MatchFrom(keys, items[p].0, 0) == Some(q)
    ensures MatchFrom(keys, items[p'].0, 0) != Some(q)
  {
  }

  lemma {:induction false} FillFromAt(d: DValue, i: nat, template: ODict<TNode>, filled: ODict<TNode>, q: nat)
    requires d.DDict? && i <= |d.items| && SameSkeleton(filled, template) && Distinct(template) && Distinct(d.items)
    requires q < |template| && FillFrom(d, i, template, filled).Ok?
    ensures WriterFrom(d.items, i, Keys(template), q).None? ==> FillFrom(d, i, template, filled).value[q] == filled[q]
    ensures WriterFrom(d.items, i, Keys(template), q).Some? ==>
      var p := WriterFrom(d.items, i, Keys(template), q).value;
      NewValue(d.items[p].1, template[q].1.value).Ok? &&
      FillFrom(d, i, template, filled).value[q] == (filled[q].0, filled[q].1.(value := NewValue(d.items[p].1, template[q].1.value).value))
    decreases |d.items| - i
  {
    if i < |d.items| {
      var tag := d.items[i].0;
      var m := MatchFrom(Keys(template), tag, 0);
      if m.Some? {
        var j := m.value;
        var k := template[j].0;
        SameSkeletonKeys(filled, template);
        GetSomeIff(filled, k);
        var node := Get(filled, k).value;
        var value := NewValue(d.items[i].1, template[j].1.value).value;
        var filled' := Set(filled, k, node.(value := value));
        SetValueSkeleton(filled, k, value);
        FillFromAt(d, i + 1, template, filled', q);
        SetAt(filled, k, node.(value := value), q);
        if j == q {
          GetAt(filled, q);
          forall p | i + 1 <= p < |d.items| ensures MatchFrom(Keys(template), d.items[p].0, 0) != Some(q) {
            OneWriter(d.items, Keys(template), i, p, q);
          }
        } else {
          assert template[j].0 != template[q].0;
        }
      } else {
        FillFromAt(d, i + 1, template, filled, q);
      }
    }
  }

  /**
   * Filling a dictionary template changes the value of exactly the entries a
   * data tag matches (first local-name match): a dictionary recurses into
   * the template's own value, a scalar replaces it; every other entry, and
   * every entry's tag, attributes, default and namespace map, stays as in
   * the template.
   */
  lemma FillValueAt(d: DValue, template: ODict<TNode>, q: nat)
    requires d.DDict? && Distinct(template) && Distinct(d.items) && q < |template|
    requires FillValue(d, TDict(template)).Ok?
    ensures var r := FillValue(d, TDict(template)).value;
      r.TDict? && |r.children| == |template| && r.children[q].0 == template[q].0
    ensures (forall p :: 0 <= p < |d.items| ==> MatchFrom(Keys(template), d.items[p].0, 0) != Some(q)) ==>
      FillValue(d, TDict(template)).value.children[q] == template[q]
    ensures forall p :: 0 <= p < |d.items| && MatchFrom(Keys(template), d.items[p].0, 0) == Some(q) ==>
      NewValue(d.items[p].1, template[q].1.value).Ok? &&
      FillValue(d, TDict(template)).value.children[q].1 == template[q].1.(value := NewValue(d.items[p].1, template[q].1.value).value)
  {
    FillFromAt(d, 0, template, template, q);
    var w := WriterFrom(d.items, 0, Keys(template), q);
    if w.Some? {
      forall p | 0 <= p < |d.items| && MatchFrom(Keys(template), d.items[p].0, 0) == Some(q) ensures p == w.value {
        if p < w.value {
          OneWriter(d.items, Keys(template), p, w.value, q);
        } else if p > w.value {
          OneWriter(d.items, Keys(template), w.value, p, q);
        }
      }
    }
  }

  /** Data none of whose tags names a template entry leaves the template as it is. */
  lemma {:induction false} FillSkipsUnmatched(d: DValue, i: nat, template: ODict<TNode>, filled: ODict<TNode>)
    requires d.DDict? && i <= |d.items| && SameSkeleton(filled, template)
    requires forall p, q :: i <= p < |d.items| && 0 <= q < |template| ==> LocalName(template[q].0) != d.items[p].0
    ensures FillFrom(d, i, template, filled) == Ok(filled)
    decreases |d.items| - i
  {
    if i < |d.items| {
      FillSkipsUnmatched(d, i + 1, template, filled);
    }
  }

  // ---------------------------------------------------------------------------
  // _build_xml

  /** `str(value)` for a leaf, with `show` standing for `str` of a float; `None` gives the empty text. */
  function Render(s: Scalar, show: real -> string): string {
    match s
    case SNone => ""
    case SText(t) => t
    case SNum(x) => show(x)
    case SList(xs) => "[" + Join(seq(|xs|, i requires 0 <= i < |xs| => show(xs[i])), ", ") + "]"
  }

  /** The element `_build_xml` creates for one template entry, with its sub-elements in template order. */
  function BuildElement(tag: string, n: TNode, show: real -> string): (r: Element)
    ensures r.tag == tag && r.attrs == n.attributes && r.nsmap == n.nsmap
    ensures n.value.TLeaf? ==> r.text == Some(Render(n.value.leaf, show)) && r.children == []
    ensures n.value.TDict? ==> r.text.None? && |r.children| == |n.value.children|
    ensures n.value.TDict? ==> forall i :: 0 <= i < |r.children| ==> r.children[i].tag == n.value.children[i].0
    decreases n
  {
    match n.value
    case TLeaf(s) => Element(tag, n.attributes, n.nsmap, Some(Render(s, show)), [])
    case TDict(children) =>
      Element(tag, n.attributes, n.nsmap, None,
        seq(|children|, i requires 0 <= i < |children| => BuildElement(children[i].0, children[i].1, show)))
  }

  /** `_build_xml(templated_data)`: every top-level entry becomes an element and the last one is returned; none gives None. */
  function BuildXml(templated: ODict<TNode>, show: real -> string): (r: Option<Element>)
    ensures r.None? <==> templated == []
    ensures r.Some? ==> r.value.tag == templated[|templated| - 1].0
  {
    if templated == [] then None
    else
      var last := templated[|templated| - 1];
      Some(BuildElement(last.0, last.1, show))
  }

  /**
   * Read back by the XML -> GEF flattening, a built leaf gives its rendered
   * text and a built node with children a dictionary keyed by the local
   * names of its template entries.
   */
  lemma FlattenOfBuilt(tag: string, n: TNode, show: real -> string)
    ensures n.value.TLeaf? ==> Flatten(BuildElement(tag, n, show)) == FText(Some(Render(n.value.leaf, show)))
    ensures n.value.TDict? && n.value.children != [] ==>
      Flatten(BuildElement(tag, n, show)).FDict? &&
      Flatten(BuildElement(tag, n, show)).entries.Keys == set k | 0 <= k < |n.value.children| :: LocalName(n.value.children[k].0)
  {
    var e := BuildElement(tag, n, show);
    FlattenShape(e);
    if n.value.TDict? {
      var ch := n.value.children;
      assert (set k | 0 <= k < |e.children| :: LocalName(e.children[k].tag)) == (set k | 0 <= k < |ch| :: LocalName(ch[k].0));
    }
  }
}
