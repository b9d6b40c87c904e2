/**
 * Child instances and stable ids of Vue components: vue/collect_child_instances.ts,
 * vue/compute_stable_id.ts, vue/unkeyed_occurrence.ts and vue/resolve_stable_id.ts.
 */
module VueIds {
  import opened Prelude
  import opened Text
  import opened StableIds

  /** A virtual node, or a member of a children array that is not one. */
  datatype VNode = VNode(component: Option<Id>, children: Children) | NotANode

  /** What `children` can hold: an array, or something that is not one. */
  datatype Children = NotAnArray | Array(items: seq<VNode>)

  datatype Key = NoKey | StringKey(s: string) | NumberKey(printed: string) | SymbolKey

  type Rendered = v: VNode | v.VNode? witness VNode(None, NotAnArray)

  datatype Instance = Instance(name: string, key: Key, parent: Option<Id>, subTree: Option<Rendered>)

  type Heap = map<Id, Instance>

  /** `extractKey`: symbols and the empty string count as no key. */
  function ExtractKey(i: Instance): Option<string> {
    match i.key
    case NoKey => None
    case StringKey(s) => if s != "" then Some(s) else None
    case NumberKey(printed) => Some(printed)
    case SymbolKey => None
  }

  function ItemOf(i: Instance): Item { Item(i.name, ExtractKey(i)) }

  // ---------------------------------------------------------------- immediate child instances

  function Collect(v: VNode): seq<Id>
    requires v.VNode?
    decreases v, 0
  {
    if v.component.Some? then [v.component.value]
    else if v.children.NotAnArray? then []
    else CollectAll(v.children.items)
  }

  function CollectAll(cs: seq<VNode>): seq<Id>
    decreases cs, 1
  {
    if cs == [] then []
    else (if cs[0].VNode? then Collect(cs[0]) else []) + CollectAll(cs[1..])
  }

  function CollectFrom(subTree: Option<Rendered>): seq<Id> {
    if subTree.Some? then Collect(subTree.value) else []
  }

  lemma {:induction false} CollectAllAppend(a: seq<VNode>, b: seq<VNode>)
    ensures CollectAll(a + b) == CollectAll(a) + CollectAll(b)
  {
    if a == [] {
      assert a + b == b;
    } else {
      assert (a + b)[1..] == a[1..] + b;
      CollectAllAppend(a[1..], b);
    }
  }

  /** `walkVNode` with its shared output array. */
  method WalkVNode(v: VNode, before: seq<Id>) returns (out: seq<Id>)
    requires v.VNode?
    ensures out == before + Collect(v)
    decreases v
  {
    out := before;
    if v.component.Some? {
      out := out + [v.component.value];
      return;
    }
    if v.children.Array? {
      var children := v.children.items;
      for i := 0 to |children|
        invariant out == before + CollectAll(children[..i])
      {
        assert children[..i + 1] == children[..i] + [children[i]];
        CollectAllAppend(children[..i], [children[i]]);
        assert CollectAll([children[i]][1..]) == [];
        if children[i].VNode? {
          out := WalkVNode(children[i], out);
        }
      }
      assert children[..|children|] == children;
    }
  }

  method CollectChildInstances(h: Heap, parent: Id) returns (out: seq<Id>)
    requires parent in h
    ensures out == CollectFrom(h[parent].subTree)
  {
    out := [];
    if h[parent].subTree.Some? {
      out := WalkVNode(h[parent].subTree.value, out);
    }
  }

  /** The node a path of child positions leads to. */
  function NodeAt(v: VNode, path: seq<nat>): (r: Option<VNode>)
    requires v.VNode?
    ensures r.Some? ==> r.value.VNode?
    decreases |path|
  {
    if path == [] then Some(v)
    else if v.children.Array? && path[0] < |v.children.items| && v.children.items[path[0]].VNode? then
      NodeAt(v.children.items[path[0]], path[1..])
    else None
  }

  /** A component node with no component node above it. */
  ghost predicate OnFrontier(v: VNode, path: seq<nat>, c: Id)
    requires v.VNode?
  {
    && NodeAt(v, path).Some? && NodeAt(v, path).value.component == Some(c)
    && forall k :: 0 <= k < |path| ==> NodeAt(v, path[..k]).Some? && NodeAt(v, path[..k]).value.component.None?
  }

  /** Render order: preorder of the positions. */
  predicate Before(p: seq<nat>, q: seq<nat>)
    decreases |p|
  {
    q != [] && (p == [] || p[0] < q[0] || (p[0] == q[0] && Before(p[1..], q[1..])))
  }

  /** The frontier of a node in render order, each component with where it stands. */
  ghost function Frontier(v: VNode): seq<(seq<nat>, Id)>
    requires v.VNode?
    decreases v, 0
  {
    if v.component.Some? then [([], v.component.value)]
    else if v.children.NotAnArray? then []
    else FrontierAll(v.children.items, 0)
  }

  ghost function Under(i: nat, inner: seq<(seq<nat>, Id)>): (r: seq<(seq<nat>, Id)>)
    ensures |r| == |inner|
    ensures forall k :: 0 <= k < |inner| ==> r[k] == ([i] + inner[k].0, inner[k].1)
  {
    seq(|inner|, k requires 0 <= k < |inner| => ([i] + inner[k].0, inner[k].1))
  }

  ghost function FrontierAll(cs: seq<VNode>, i: nat): seq<(seq<nat>, Id)>
    decreases cs, 1
  {
    if cs == [] then []
    else (if cs[0].VNode? then Under(i, Frontier(cs[0])) else []) + FrontierAll(cs[1..], i + 1)
  }

  ghost function Components(f: seq<(seq<nat>, Id)>): seq<Id> { seq(|f|, k requires 0 <= k < |f| => f[k].1) }

  lemma ComponentsAppend(a: seq<(seq<nat>, Id)>, b: seq<(seq<nat>, Id)>)
    ensures Components(a + b) == Components(a) + Components(b)
  {}

  lemma {:induction false} CollectIsFrontier(v: VNode)
    requires v.VNode?
    ensures Collect(v) == Components(Frontier(v))
    decreases v, 0
  {
    if v.component.None? && v.children.Array? {
      CollectAllIsFrontier(v.children.items, 0);
    }
  }

  lemma {:induction false} CollectAllIsFrontier(cs: seq<VNode>, i: nat)
    ensures CollectAll(cs) == Components(FrontierAll(cs, i))
    decreases cs, 1
  {
    if cs != [] {
      CollectAllIsFrontier(cs[1..], i + 1);
      if cs[0].VNode? {
        CollectIsFrontier(cs[0]);
        var inner := Frontier(cs[0]);
        assert Components(Under(i, inner)) == Components(inner);
        ComponentsAppend(Under(i, inner), FrontierAll(cs[1..], i + 1));
      } else {
        ComponentsAppend([], FrontierAll(cs[1..], i + 1));
      }
    }
  }

  /** The frontier lists exactly the component nodes with no component above them. */
  lemma {:induction false} FrontierIff(v: VNode, path: seq<nat>, c: Id)
    requires v.VNode?
    ensures (path, c) in Frontier(v) <==> OnFrontier(v, path, c)
    decreases v, 0
  {
    if v.component.Some? {
      if path != [] {
        assert path[..0] == [];
      }
    } else if path == [] {
      assert NodeAt(v, []) == Some(v);
      if v.children.Array? {
        FrontierAllStarts(v.children.items, 0, path, c);
      }
    } else if v.children.NotAnArray? {
    } else {
      var cs := v.children.items;
      FrontierAllIff(cs, 0, path, c);
      if path[0] < |cs| && cs[path[0]].VNode? {
        OnFrontierBelow(v, path, c);
      }
    }
  }

  lemma OnFrontierBelow(v: VNode, path: seq<nat>, c: Id)
    requires v.VNode? && v.component.None? && v.children.Array? && path != []
    requires path[0] < |v.children.items| && v.children.items[path[0]].VNode?
    ensures OnFrontier(v, path, c) <==> OnFrontier(v.children.items[path[0]], path[1..], c)
  {
    var u := v.children.items[path[0]];
    forall k: nat | k < |path[1..]|
      ensures NodeAt(v, path[..k + 1]) == NodeAt(u, path[1..][..k])
    {
      assert path[..k + 1][1..] == path[1..][..k];
    }
    assert NodeAt(v, path[..0]) == Some(v);
    if OnFrontier(v, path, c) {
      forall k | 0 <= k < |path[1..]|
        ensures NodeAt(u, path[1..][..k]).Some? && NodeAt(u, path[1..][..k]).value.component.None?
      {
        assert NodeAt(v, path[..k + 1]).Some?;
      }
    }
    if OnFrontier(u, path[1..], c) {
      forall k | 0 <= k < |path|
        ensures NodeAt(v, path[..k]).Some? && NodeAt(v, path[..k]).value.component.None?
      {
        if k > 0 {
          assert NodeAt(v, path[..(k - 1) + 1]) == NodeAt(u, path[1..][..k - 1]);
        }
      }
    }
  }

  lemma {:induction false} FrontierAllStarts(cs: seq<VNode>, i: nat, path: seq<nat>, c: Id)
    ensures (path, c) in FrontierAll(cs, i) ==> path != [] && i <= path[0] < i + |cs|
    decreases cs
  {
    if cs != [] {
      FrontierAllStarts(cs[1..], i + 1, path, c);
    }
  }

  /** Prefixing the paths of one child. */
  lemma UnderIff(i: nat, inner: seq<(seq<nat>, Id)>, path: seq<nat>, c: Id)
    requires path != []
    ensures (path, c) in Under(i, inner) <==> path[0] == i && (path[1..], c) in inner
  {
    if path[0] == i && (path[1..], c) in inner {
      var k :| 0 <= k < |inner| && inner[k] == (path[1..], c);
      assert path == [i] + path[1..];
      assert Under(i, inner)[k] == (path, c);
    }
    if (path, c) in Under(i, inner) {
      var k :| 0 <= k < |inner| && Under(i, inner)[k] == (path, c);
      assert inner[k] == (path[1..], c);
    }
  }

  lemma FrontierAllStep(cs: seq<VNode>, i: nat, path: seq<nat>, c: Id)
    requires cs != []
    ensures (path, c) in FrontierAll(cs, i)
       <==> (cs[0].VNode? && (path, c) in Under(i, Frontier(cs[0]))) || (path, c) in FrontierAll(cs[1..], i + 1)
  {
    var first: seq<(seq<nat>, Id)> := if cs[0].VNode? then Under(i, Frontier(cs[0])) else [];
    var rest := FrontierAll(cs[1..], i + 1);
    assert (path, c) in first + rest <==> (path, c) in first || (path, c) in rest;
  }

  /** The child at this place in a list whose first place is `i`, if there is one that is a node. */
  ghost predicate AtChild(cs: seq<VNode>, i: nat, path: seq<nat>, c: Id)
    requires path != []
  {
    i <= path[0] < i + |cs| && cs[path[0] - i].VNode? && OnFrontier(cs[path[0] - i], path[1..], c)
  }

  lemma AtChildRest(cs: seq<VNode>, i: nat, path: seq<nat>, c: Id)
    requires cs != [] && path != []
    ensures path[0] != i ==> (AtChild(cs, i, path, c) <==> AtChild(cs[1..], i + 1, path, c))
    ensures path[0] == i ==> !AtChild(cs[1..], i + 1, path, c)
    ensures path[0] == i ==> (AtChild(cs, i, path, c) <==> cs[0].VNode? && OnFrontier(cs[0], path[1..], c))
  {
    if i < path[0] < i + |cs| {
      assert cs[1..][path[0] - (i + 1)] == cs[path[0] - i];
    }
  }

  lemma {:induction false} FrontierAllIff(cs: seq<VNode>, i: nat, path: seq<nat>, c: Id)
    requires path != []
    ensures (path, c) in FrontierAll(cs, i) <==> AtChild(cs, i, path, c)
    decreases cs, 1
  {
    if cs != [] {
      FrontierAllStep(cs, i, path, c);
      AtChildRest(cs, i, path, c);
      FrontierAllIff(cs[1..], i + 1, path, c);
      if cs[0].VNode? {
        UnderIff(i, Frontier(cs[0]), path, c);
        FrontierIff(cs[0], path[1..], c);
      }
    }
  }

  /** The frontier is in render order. */
  lemma {:induction false} FrontierOrdered(v: VNode, j: nat, k: nat)
    requires v.VNode?
    requires j < k < |Frontier(v)|
    ensures Before(Frontier(v)[j].0, Frontier(v)[k].0)
    decreases v, 0
  {
    if v.component.None? && v.children.Array? {
      FrontierAllOrdered(v.children.items, 0, j, k);
    }
  }

  /** What is under one child comes before what is under the later ones. */
  lemma FirstBeforeRest(i: nat, inner: seq<(seq<nat>, Id)>, cs: seq<VNode>, j: nat, k: nat)
    requires j < |inner| && k < |FrontierAll(cs, i + 1)|
    ensures Before(Under(i, inner)[j].0, FrontierAll(cs, i + 1)[k].0)
  {
    var q := FrontierAll(cs, i + 1)[k];
    assert (q.0, q.1) in FrontierAll(cs, i + 1);
    FrontierAllStarts(cs, i + 1, q.0, q.1);
  }

  lemma {:induction false} FrontierAllOrdered(cs: seq<VNode>, i: nat, j: nat, k: nat)
    requires j < k < |FrontierAll(cs, i)|
    ensures Before(FrontierAll(cs, i)[j].0, FrontierAll(cs, i)[k].0)
    decreases cs, 1
  {
    var inner: seq<(seq<nat>, Id)> := if cs[0].VNode? then Frontier(cs[0]) else [];
    var first := Under(i, inner);
    var rest := FrontierAll(cs[1..], i + 1);
    assert FrontierAll(cs, i) == first + rest;
    if j >= |first| {
      FrontierAllOrdered(cs[1..], i + 1, j - |first|, k - |first|);
    } else if k < |first| {
      FrontierOrdered(cs[0], j, k);
      assert first[j].0[1..] == inner[j].0 && first[k].0[1..] == inner[k].0;
    } else {
      FirstBeforeRest(i, inner, cs[1..], j, k - |first|);
    }
  }

  /**
   * `collectChildInstances` yields the component nodes of the rendered tree that have no component
   * node above them - each of them, nothing else - in render order.
   */
  lemma CollectYieldsTheFrontier(v: VNode)
    requires v.VNode?
    ensures Collect(v) == Components(Frontier(v))
    ensures forall path: seq<nat>, c: Id :: (path, c) in Frontier(v) <==> OnFrontier(v, path, c)
    ensures forall j, k :: 0 <= j < k < |Frontier(v)| ==> Before(Frontier(v)[j].0, Frontier(v)[k].0)
  {
    CollectIsFrontier(v);
    forall path: seq<nat>, c: Id ensures (path, c) in Frontier(v) <==> OnFrontier(v, path, c) {
      FrontierIff(v, path, c);
    }
    forall j: nat, k: nat | j < k < |Frontier(v)| ensures Before(Frontier(v)[j].0, Frontier(v)[k].0) {
      FrontierOrdered(v, j, k);
    }
  }

  // ---------------------------------------------------------------- ids

  /** The heap holds the tree `t` of components below `root`: rendered children and parent links agree. */
  ghost predicate Linked(h: Heap, t: Tree, root: Id) {
    && WellLinked(t, root)
    && (forall n :: n in t.kids ==> n in h)
    && (forall n {:trigger t.item[n]} :: n in t.kids ==> t.item[n] == ItemOf(h[n]))
    && (forall n {:trigger h[n].subTree} :: n in t.kids ==> t.kids[n] == CollectFrom(h[n].subTree))
    && (forall n {:trigger h[n].parent} :: n in t.kids ==> h[n].parent == if n == root then None else Some(t.up[n]))
  }

  /** The child list of a component, with what ids record of each child. */
  ghost predicate Row(h: Heap, ids: seq<Id>, items: seq<Item>) {
    |items| == |ids| && forall i :: 0 <= i < |ids| ==> ids[i] in h && items[i] == ItemOf(h[ids[i]])
  }

  lemma RowOf(h: Heap, t: Tree, root: Id, p: Id)
    requires Linked(h, t, root) && p in t.kids
    ensures p in h && CollectFrom(h[p].subTree) == t.kids[p] && Row(h, t.kids[p], Siblings(t, p))
  {
    forall i | 0 <= i < |t.kids[p]|
      ensures t.kids[p][i] in h && Siblings(t, p)[i] == ItemOf(h[t.kids[p][i]])
    {
      assert t.kids[p][i] in t.up;
    }
  }

  function NodeOf(ids: seq<Id>, k: Option<nat>): Option<Id>
    requires k.Some? ==> k.value < |ids|
  {
    if k.Some? then Some(ids[k.value]) else None
  }

  method ChildByKey(h: Heap, parent: Id, name: string, key: string, ghost items: seq<Item>) returns (r: Option<Id>)
    requires parent in h && Row(h, CollectFrom(h[parent].subTree), items)
    ensures r == NodeOf(CollectFrom(h[parent].subTree), ByKey(items, name, key, 0))
  {
    var children := CollectChildInstances(h, parent);
    for i := 0 to |children|
      invariant ByKey(items, name, key, 0) == ByKey(items, name, key, i)
    {
      var c := h[children[i]];
      if c.name == name && ExtractKey(c) == Some(key) {
        return Some(children[i]);
      }
    }
    return None;
  }

  method ChildAtIndex(h: Heap, parent: Id, name: string, index: nat, ghost items: seq<Item>) returns (r: Option<Id>)
    requires parent in h && Row(h, CollectFrom(h[parent].subTree), items)
    ensures r == NodeOf(CollectFrom(h[parent].subTree), ByIndex(items, name, index, 0, 0))
  {
    var children := CollectChildInstances(h, parent);
    var matched: nat := 0;
    for i := 0 to |children|
      invariant ByIndex(items, name, index, 0, 0) == ByIndex(items, name, index, i, matched)
    {
      var c := h[children[i]];
      if ExtractKey(c).None? && c.name == name {
        if matched == index {
          return Some(children[i]);
        }
        matched := matched + 1;
      }
    }
    return None;
  }

  method FindChildInstance(h: Heap, parent: Id, seg: string, ghost items: seq<Item>) returns (r: Option<Id>)
    requires parent in h && Row(h, CollectFrom(h[parent].subTree), items)
    ensures |items| == |CollectFrom(h[parent].subTree)|
    ensures r == NodeOf(CollectFrom(h[parent].subTree), Step(items, seg))
  {
    var parsed := ParseSegment(seg);
    if parsed.None? {
      return None;
    }
    var (name, disc) := parsed.value;
    r := ChildByKey(h, parent, name, disc, items);
    if IsNumeric(disc) && r.None? {
      r := ChildAtIndex(h, parent, name, ParseDecimal(disc), items);
    }
  }

  // ---------------------------------------------------------------- climbing

  ghost predicate AllIn(h: Heap, ids: seq<Id>) { forall i :: 0 <= i < |ids| ==> ids[i] in h }

  function ItemsOf(h: Heap, ids: seq<Id>): (items: seq<Item>)
    requires AllIn(h, ids)
    ensures |items| == |ids|
    ensures forall i :: 0 <= i < |ids| ==> items[i] == ItemOf(h[ids[i]])
  {
    seq(|ids|, i requires 0 <= i < |ids| => ItemOf(h[ids[i]]))
  }

  /** The parent, when there is one, is an instance whose children are instances. */
  ghost predicate HasRow(h: Heap, n: Id) {
    n in h && (h[n].parent.Some? ==> h[n].parent.value in h && AllIn(h, CollectFrom(h[h[n].parent.value].subTree)))
  }

  /** The occurrence number of any instance: 0 without a parent, or when the parent does not render it. */
  function Occurrence(h: Heap, n: Id): nat
    requires HasRow(h, n)
  {
    if h[n].parent.None? then 0
    else
      var ids := CollectFrom(h[h[n].parent.value].subTree);
      OccurrenceIn(ids, ItemsOf(h, ids), h[n].name, n)
  }

  method UnkeyedOccurrence(h: Heap, n: Id) returns (occurrence: nat)
    requires HasRow(h, n)
    ensures occurrence == Occurrence(h, n)
  {
    if h[n].parent.None? {
      return 0;
    }
    var name := h[n].name;
    occurrence := 0;
    var siblings := CollectChildInstances(h, h[n].parent.value);
    ghost var items := ItemsOf(h, siblings);
    for i := 0 to |siblings|
      invariant n !in siblings[..i] && occurrence == UnkeyedBefore(items, name, i)
    {
      if siblings[i] == n {
        FirstPlaceIs(siblings, n, i);
        return;
      }
      var sib := h[siblings[i]];
      if ExtractKey(sib).None? && sib.name == name {
        occurrence := occurrence + 1;
      }
      assert siblings[..i + 1] == siblings[..i] + [siblings[i]];
    }
    assert siblings[..|siblings|] == siblings;
    return 0;
  }

  /** The segment of any instance. */
  function SegmentIn(h: Heap, n: Id): string
    requires HasRow(h, n)
  {
    var key := ExtractKey(h[n]);
    Segment(h[n].name, if key.Some? then key.value else Decimal(Occurrence(h, n)))
  }

  method SegmentFor(h: Heap, n: Id) returns (seg: string)
    requires HasRow(h, n)
    ensures seg == SegmentIn(h, n)
  {
    var name := h[n].name;
    var key := ExtractKey(h[n]);
    var disc: string;
    if key.Some? {
      disc := key.value;
    } else {
      var occurrence := UnkeyedOccurrence(h, n);
      disc := Decimal(occurrence);
    }
    seg := Segment(name, disc);
  }

  /** What climbing needs to end: the parent chain is finite. */
  ghost predicate Climbable(h: Heap, rank: map<Id, nat>) {
    forall n {:trigger rank[n]} :: n in rank ==>
      HasRow(h, n) && (h[n].parent.Some? ==> h[n].parent.value in rank && rank[h[n].parent.value] < rank[n])
  }

  /** The segments from the topmost instance down to `n`. */
  ghost function Climbed(h: Heap, n: Id, rank: map<Id, nat>): seq<string>
    requires Climbable(h, rank) && n in rank
    decreases rank[n]
  {
    (if h[n].parent.Some? then Climbed(h, h[n].parent.value, rank) else []) + [SegmentIn(h, n)]
  }

  lemma InFront(above: seq<string>, seg: string, below: seq<string>)
    ensures above + [seg] + below == above + ([seg] + below)
    ensures above + [] == above
    ensures [] + below == below
  {}

  /** `computeStableId`, for every instance whose climb ends: the cursor puts segments in front. */
  method ComputeStableId(h: Heap, n: Id, rootIndex: nat, ghost rank: map<Id, nat>) returns (id: string)
    requires Climbable(h, rank) && n in rank
    ensures id == IdOf(rootIndex, Climbed(h, n, rank))
  {
    ghost var all := Climbed(h, n, rank);
    var segments: seq<string> := [];
    var cursor: Option<Id> := Some(n);
    InFront(all, "", []);
    while cursor.Some?
      invariant cursor.Some? ==> cursor.value in rank
      invariant all == (if cursor.Some? then Climbed(h, cursor.value, rank) else []) + segments
      decreases if cursor.Some? then rank[cursor.value] + 1 else 0
    {
      ghost var at := rank[cursor.value];
      var seg := SegmentFor(h, cursor.value);
      ghost var parent := h[cursor.value].parent;
      InFront(if parent.Some? then Climbed(h, parent.value, rank) else [], seg, segments);
      segments := [seg] + segments;
      cursor := h[cursor.value].parent;
    }
    InFront([], "", segments);
    id := Join([RootSegment(rootIndex)] + segments, '/');
  }

  /** What the root component's own discriminator is. */
  function OwnDiscriminator(item: Item): string { if item.key.Some? then item.key.value else Decimal(0) }

  /** The segment of the root component, which has no siblings to be counted among. */
  function RootComponentSegment(item: Item): string {
    Segment(item.name, OwnDiscriminator(item))
  }

  /** All segments of an id after `root<i>`. */
  ghost function AllSegments(t: Tree, root: Id, n: Id): seq<string>
    requires WellLinked(t, root) && n in t.kids
  {
    [RootComponentSegment(t.item[root])] + SegmentsTo(t, root, n)
  }

  lemma TreeRow(h: Heap, t: Tree, root: Id, n: Id)
    requires Linked(h, t, root) && n in t.kids
    ensures HasRow(h, n)
    ensures n == root ==> h[n].parent.None? && ItemOf(h[n]) == t.item[n]
    ensures n != root ==>
      && n in t.up && h[n].parent == Some(t.up[n]) && CollectFrom(h[t.up[n]].subTree) == t.kids[t.up[n]]
      && ItemsOf(h, t.kids[t.up[n]]) == Siblings(t, t.up[n])
  {
    assert t.item[n] == ItemOf(h[n]);
    if n != root {
      RowOf(h, t, root, t.up[n]);
    }
  }

  lemma TreeSegment(h: Heap, t: Tree, root: Id, n: Id)
    requires Linked(h, t, root) && n in t.kids
    ensures HasRow(h, n)
    ensures SegmentIn(h, n) == if n == root then RootComponentSegment(t.item[root]) else SegmentOf(t, root, n)
  {
    TreeRow(h, t, root, n);
    if n != root {
      TreePlace(t, root, n);
      assert ItemOf(h[n]) == t.item[n];
      assert Siblings(t, t.up[n])[t.pos[n]] == t.item[n];
    }
  }

  lemma TreeClimbable(h: Heap, t: Tree, root: Id)
    requires Linked(h, t, root)
    ensures Climbable(h, t.depth)
  {
    forall n | n in t.depth
      ensures HasRow(h, n)
      ensures h[n].parent.Some? ==> h[n].parent.value in t.depth && t.depth[h[n].parent.value] < t.depth[n]
    {
      TreeRow(h, t, root, n);
    }
  }

  lemma PathSnoc(head: string, above: seq<string>, seg: string)
    ensures [head] + above + [seg] == [head] + (above + [seg])
    ensures [] + [head] == [head] + []
  {}

  /** In a linked tree the climb gives the segment of the root component, then those down to `n`. */
  lemma {:induction false} ClimbIsPath(h: Heap, t: Tree, root: Id, n: Id)
    requires Linked(h, t, root) && n in t.kids
    ensures Climbable(h, t.depth) && Climbed(h, n, t.depth) == AllSegments(t, root, n)
    decreases t.depth[n]
  {
    TreeClimbable(h, t, root);
    TreeRow(h, t, root, n);
    TreeSegment(h, t, root, n);
    var head := RootComponentSegment(t.item[root]);
    if n == root {
      PathSnoc(head, [], "");
    } else {
      ClimbIsPath(h, t, root, t.up[n]);
      PathSnoc(head, SegmentsTo(t, root, t.up[n]), SegmentOf(t, root, n));
    }
  }

  // ---------------------------------------------------------------- resolving

  ghost predicate Mounted(h: Heap, roots: seq<Option<Id>>, trees: map<Id, Tree>) {
    forall i :: 0 <= i < |roots| && roots[i].Some?
      ==> roots[i].value in trees && Linked(h, trees[roots[i].value], roots[i].value)
  }

  /** The root component answers to a segment with its name, whatever the discriminator. */
  predicate RootAnswers(item: Item, seg: string) {
    var parsed := ParseSegment(seg);
    parsed.Some? && parsed.value.0 == item.name
  }

  ghost function Resolve(h: Heap, roots: seq<Option<Id>>, trees: map<Id, Tree>, stableId: string): Option<Id>
    requires Mounted(h, roots, trees)
  {
    var segments := Split(stableId, '/');
    var rootIndex := ParseRoot(segments[0]);
    if rootIndex.None? || rootIndex.value >= |roots| || roots[rootIndex.value].None? then None
    else
      var root := roots[rootIndex.value].value;
      var t := trees[root];
      if |segments| == 1 then Some(root)
      else if !RootAnswers(t.item[root], segments[1]) then None
      else Descend(t, root, root, segments[2..])
  }

  method WalkDown(h: Heap, start: Id, segments: seq<string>, ghost t: Tree, ghost root: Id) returns (r: Option<Id>)
    requires Linked(h, t, root) && start in t.kids
    ensures r == Descend(t, root, start, segments)
  {
    var current := start;
    assert segments[0..] == segments;
    for i := 0 to |segments|
      invariant current in t.kids
      invariant Descend(t, root, start, segments) == Descend(t, root, current, segments[i..])
    {
      DescendFrom(t, root, current, segments, i);
      RowOf(h, t, root, current);
      var next := FindChildInstance(h, current, segments[i], Siblings(t, current));
      if next.None? {
        return None;
      }
      current := next.value;
    }
    return Some(current);
  }

  method ResolveStableId(h: Heap, roots: seq<Option<Id>>, stableId: string, ghost trees: map<Id, Tree>)
    returns (r: Option<Id>)
    requires Mounted(h, roots, trees)
    ensures r == Resolve(h, roots, trees, stableId)
  {
    var segments := Split(stableId, '/');
    var rootIndex := ParseRoot(segments[0]);
    if rootIndex.None? || rootIndex.value >= |roots| {
      return None;
    }
    var current := roots[rootIndex.value];
    if current.None? {
      return None;
    }
    ghost var t := trees[current.value];
    assert t.item[current.value] == ItemOf(h[current.value]);
    if |segments| > 1 {
      var parsed := ParseSegment(segments[1]);
      if parsed.None? {
        return None;
      }
      if h[current.value].name != parsed.value.0 {
        return None;
      }
      r := WalkDown(h, current.value, segments[2..], t, current.value);
    } else {
      r := current;
    }
  }

  /** The root component answers to its own name with any discriminator a segment can hold. */
  lemma RootAnswersTo(item: Item, disc: string)
    ensures RootAnswers(item, Segment(item.name, disc))
       <==> item.name != "" && OneLine(item.name) && OneLine(disc) && '[' !in disc
  {
    var seg := Segment(item.name, disc);
    OneLineSegment(item.name, disc);
    ParseSegmentIff(seg, item.name, disc);
    var parsed := ParseSegment(seg);
    if parsed.Some? && parsed.value.0 == item.name {
      ParseSegmentIff(seg, parsed.value.0, parsed.value.1);
      SameDisc(item.name, disc, parsed.value.1);
    }
  }

  lemma SameDisc(name: string, a: string, b: string)
    requires Segment(name, a) == Segment(name, b)
    ensures a == b
  {
    var s, t := Segment(name, a), Segment(name, b);
    assert a == s[|name| + 1..|s| - 1] && b == t[|name| + 1..|t| - 1];
  }

  /**
   * `root<i>/<name>[disc]` leads to the root component exactly when its name and the discriminator
   * are printable and hold no `/`: the discriminator is not compared. The ones that are not the
   * root's own are the mismatches that answer all the same.
   */
  lemma RootResolvesIff(h: Heap, roots: seq<Option<Id>>, trees: map<Id, Tree>, rootIndex: nat, disc: string)
    requires Mounted(h, roots, trees) && rootIndex < |roots| && roots[rootIndex].Some?
    ensures
      var root := roots[rootIndex].value;
      var item := trees[root].item[root];
      Resolve(h, roots, trees, IdOf(rootIndex, [Segment(item.name, disc)])) == Some(root)
      <==> item.name != "" && OneLine(item.name) && '/' !in item.name
           && OneLine(disc) && '/' !in disc && '[' !in disc
  {
    var root := roots[rootIndex].value;
    var t := trees[root];
    var seg := Segment(t.item[root].name, disc);
    var pieces := Split(IdOf(rootIndex, [seg]), '/');
    RootRoundTrip(rootIndex);
    HiddenSlash(rootIndex, [seg]);
    RootAnswersTo(t.item[root], disc);
    assert '/' in seg <==> '/' in t.item[root].name || '/' in disc;
    SlashFreeOne(seg);
    assert [seg][1..] == [];
    OnlyTheEmptyPathStays(t, root, pieces[2..]);
  }

  /** For one: an unkeyed root component called App, whose id ends in App[0], answers to App[7]. */
  lemma RootAnswersMismatch()
    ensures
      var item := Item("App", None);
      Segment("App", "7") != RootComponentSegment(item) && RootAnswers(item, Segment("App", "7"))
  {
    RootAnswersTo(Item("App", None), "7");
    if Segment("App", "7") == Segment("App", Decimal(0)) {
      SameDisc("App", "7", Decimal(0));
    }
  }

  lemma RootAnswersIff(item: Item)
    ensures RootAnswers(item, RootComponentSegment(item)) <==> Printable(item)
  {
    DecimalPrintable(0);
    ParsePrinted(item.name, OwnDiscriminator(item));
  }

  lemma RootSegmentSlash(item: Item)
    ensures '/' !in RootComponentSegment(item) <==> NoSlash(item)
  {
    DecimalPrintable(0);
    var disc := OwnDiscriminator(item);
    assert '/' in Segment(item.name, disc) <==> '/' in item.name || '/' in disc;
  }

  /**
   * Resolving a computed id gives the very instance it was computed from exactly when the root
   * component is printable and every step below it is printable and unambiguous, with no `/` anywhere.
   */
  lemma VueIdRoundTrip(h: Heap, roots: seq<Option<Id>>, trees: map<Id, Tree>, rootIndex: nat, n: Id)
    requires Mounted(h, roots, trees)
    requires rootIndex < |roots| && roots[rootIndex].Some? && n in trees[roots[rootIndex].value].kids
    ensures
      var root := roots[rootIndex].value;
      var t := trees[root];
      Resolve(h, roots, trees, IdOf(rootIndex, AllSegments(t, root, n))) == Some(n)
      <==> Printable(t.item[root]) && NoSlash(t.item[root]) && PathOk(t, root, n) && PathNoSlash(t, root, n)
  {
    var root := roots[rootIndex].value;
    var t := trees[root];
    RootRoundTrip(rootIndex);
    PiecesOfId(t, root, n, rootIndex);
    RootAnswersIff(t.item[root]);
    DescendIff(t, root, n);
  }

  /** What a hidden `/` does: the id splits into more pieces than it has segments. */
  lemma HiddenSlash(rootIndex: nat, all: seq<string>)
    requires all != []
    ensures
      var pieces := Split(IdOf(rootIndex, all), '/');
      && |pieces| >= 2 && pieces[0] == RootSegment(rootIndex)
      && (if SlashFree(all)
          then pieces[1] == all[0] && pieces[2..] == all[1..]
          else |pieces| > 1 + |all|)
  {
    var pieces := Split(IdOf(rootIndex, all), '/');
    IdPieces(rootIndex, all);
    if SlashFree(all) {
      assert pieces[1..][0] == pieces[1];
      assert pieces[1..][1..] == pieces[2..];
    }
  }

  lemma NoSlashAnywhere(t: Tree, root: Id, n: Id)
    requires WellLinked(t, root) && n in t.kids
    ensures SlashFree(AllSegments(t, root, n)) <==> NoSlash(t.item[root]) && PathNoSlash(t, root, n)
  {
    SegmentsSlash(t, root, n);
    RootSegmentSlash(t.item[root]);
    SlashFreeAppend([RootComponentSegment(t.item[root])], SegmentsTo(t, root, n));
    SlashFreeOne(RootComponentSegment(t.item[root]));
  }

  /** Either the pieces of an id are its segments, or they are too many to lead back. */
  lemma PiecesOfId(t: Tree, root: Id, n: Id, rootIndex: nat)
    requires WellLinked(t, root) && n in t.kids
    ensures
      var pieces := Split(IdOf(rootIndex, AllSegments(t, root, n)), '/');
      && |pieces| >= 2 && pieces[0] == RootSegment(rootIndex)
      && (if NoSlash(t.item[root]) && PathNoSlash(t, root, n)
          then pieces[1] == RootComponentSegment(t.item[root]) && pieces[2..] == SegmentsTo(t, root, n)
          else Descend(t, root, root, pieces[2..]) != Some(n))
  {
    var all := AllSegments(t, root, n);
    HiddenSlash(rootIndex, all);
    NoSlashAnywhere(t, root, n);
    assert all[1..] == SegmentsTo(t, root, n);
  }

  // ---------------------------------------------------------------- which texts resolve

  /** The segments lead from the mounted root to `n`: the first is checked
   * against the root component, the rest descend. */
  ghost predicate SegmentsLead(t: Tree, root: Id, n: Id, segs: seq<string>)
    requires WellLinked(t, root) && n in t.kids
  {
    if segs == [] then n == root
    else RootAnswers(t.item[root], segs[0]) && PathAnswers(t, root, n, segs[1..])
  }

  ghost predicate Addresses(h: Heap, roots: seq<Option<Id>>, trees: map<Id, Tree>, stableId: string, n: Id,
                            digits: string, segs: seq<string>)
    requires Mounted(h, roots, trees)
  {
    && IsText(stableId, digits, segs)
    && var i := ParseDecimal(digits);
       && i < |roots| && roots[i].Some?
       && var root := roots[i].value;
          n in trees[root].kids && SegmentsLead(trees[root], root, n, segs)
  }

  /** Resolving a text that is split into its numeral and its segments. */
  lemma ResolveText(h: Heap, roots: seq<Option<Id>>, trees: map<Id, Tree>, stableId: string, digits: string,
    segs: seq<string>)
    requires Mounted(h, roots, trees) && IsText(stableId, digits, segs)
    ensures
      var i := ParseDecimal(digits);
      Resolve(h, roots, trees, stableId)
      == if i >= |roots| || roots[i].None? then None
         else
           var root := roots[i].value;
           if segs == [] then Some(root)
           else if !RootAnswers(trees[root].item[root], segs[0]) then None
           else Descend(trees[root], root, root, segs[1..])
  {
    TextIff(stableId, digits, segs);
    var pieces := Split(stableId, '/');
    ParseRootIff(pieces[0], ParseDecimal(digits));
    assert segs != [] ==> pieces[1] == segs[0] && pieces[2..] == segs[1..];
  }

  lemma AddressResolves(h: Heap, roots: seq<Option<Id>>, trees: map<Id, Tree>, stableId: string, n: Id,
                        digits: string, segs: seq<string>)
    requires Mounted(h, roots, trees) && IsText(stableId, digits, segs)
    ensures Resolve(h, roots, trees, stableId) == Some(n) <==> Addresses(h, roots, trees, stableId, n, digits, segs)
  {
    ResolveText(h, roots, trees, stableId, digits, segs);
    var i := ParseDecimal(digits);
    if i < |roots| && roots[i].Some? {
      var root := roots[i].value;
      if n in trees[root].kids && segs != [] {
        DescendResolvesIff(trees[root], root, n, segs[1..]);
      }
    }
  }

  /** Every text that resolves to an instance, and no other. */
  lemma ResolvesIff(h: Heap, roots: seq<Option<Id>>, trees: map<Id, Tree>, stableId: string, n: Id)
    requires Mounted(h, roots, trees)
    ensures Resolve(h, roots, trees, stableId) == Some(n)
       <==> exists digits, segs :: Addresses(h, roots, trees, stableId, n, digits, segs)
  {
    if Resolve(h, roots, trees, stableId) == Some(n) {
      var digits, segs := TextOf(stableId);
      AddressResolves(h, roots, trees, stableId, n, digits, segs);
    }
    if digits, segs :| Addresses(h, roots, trees, stableId, n, digits, segs) {
      AddressResolves(h, roots, trees, stableId, n, digits, segs);
    }
  }
}
