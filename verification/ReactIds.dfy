/**
 * Stable ids of React fibers: react/compute_stable_id.ts walks up the `return` links,
 * react/resolve_stable_id.ts walks down the `child` and `sibling` links.
 */
module ReactIds {
  import opened Prelude
  import opened Text
  import opened StableIds

  const HOST_ROOT_TAG: int := 3

  /** A fiber as the walks read it; `name` is its display name. Links are identities in a heap. */
  datatype Fiber = Fiber(tag: int, name: string, rawKey: Option<string>,
                         child: Option<Id>, sibling: Option<Id>, ret: Option<Id>)

  type Heap = map<Id, Fiber>

  /** `extractKey`: the empty key counts as none. */
  function ExtractKey(f: Fiber): Option<string> {
    if f.rawKey.Some? && f.rawKey.value != "" then f.rawKey else None
  }

  function ItemOf(f: Fiber): Item { Item(f.name, ExtractKey(f)) }

  /** `ids` is the sibling chain that starts at `first`. */
  ghost predicate Chain(h: Heap, first: Option<Id>, ids: seq<Id>)
    decreases |ids|
  {
    if ids == [] then first.None?
    else first == Some(ids[0]) && ids[0] in h && Chain(h, h[ids[0]].sibling, ids[1..])
  }

  /** The heap holds the tree `t` below the host root `root`: child, sibling and return links agree. */
  ghost predicate Linked(h: Heap, t: Tree, root: Id) {
    && WellLinked(t, root)
    && (forall n :: n in t.kids ==> n in h)
    && (forall n {:trigger t.item[n]} :: n in t.kids ==> t.item[n] == ItemOf(h[n]))
    && (forall n {:trigger h[n].tag} :: n in t.kids ==> (h[n].tag == HOST_ROOT_TAG <==> n == root))
    && (forall n {:trigger h[n].ret} :: n in t.up ==> h[n].ret == Some(t.up[n]))
    && (forall n {:trigger h[n].child} :: n in t.kids ==> Chain(h, h[n].child, t.kids[n]))
  }

  /** The sibling chain from `first` on, with what ids record of each sibling. */
  ghost predicate Row(h: Heap, first: Option<Id>, ids: seq<Id>, items: seq<Item>)
    decreases |ids|
  {
    && |items| == |ids|
    && (if ids == [] then first.None?
        else first == Some(ids[0]) && ids[0] in h && items[0] == ItemOf(h[ids[0]])
             && Row(h, h[ids[0]].sibling, ids[1..], items[1..]))
  }

  lemma {:induction false} RowFrom(h: Heap, first: Option<Id>, ids: seq<Id>, items: seq<Item>)
    requires Chain(h, first, ids) && |items| == |ids|
    requires forall i :: 0 <= i < |ids| ==> ids[i] in h && items[i] == ItemOf(h[ids[i]])
    ensures Row(h, first, ids, items)
    decreases |ids|
  {
    if ids != [] {
      RowFrom(h, h[ids[0]].sibling, ids[1..], items[1..]);
    }
  }

  /** The children of a fiber of a linked tree form a row. */
  lemma RowOf(h: Heap, t: Tree, root: Id, p: Id)
    requires Linked(h, t, root) && p in t.kids
    ensures p in h && Row(h, h[p].child, t.kids[p], StableIds.Siblings(t, p))
  {
    forall i | 0 <= i < |t.kids[p]|
      ensures t.kids[p][i] in h && StableIds.Siblings(t, p)[i] == ItemOf(h[t.kids[p][i]])
    {
      assert t.kids[p][i] in t.up;
    }
    RowFrom(h, h[p].child, t.kids[p], StableIds.Siblings(t, p));
  }

  function NodeAt(ids: seq<Id>, k: Option<nat>): Option<Id>
    requires k.Some? ==> k.value < |ids|
  {
    if k.Some? then Some(ids[k.value]) else None
  }

  method ChildAtIndex(h: Heap, parent: Id, name: string, index: nat, ghost ids: seq<Id>, ghost items: seq<Item>)
    returns (r: Option<Id>)
    requires parent in h && Row(h, h[parent].child, ids, items)
    ensures r == NodeAt(ids, ByIndex(items, name, index, 0, 0))
  {
    ghost var i: nat := 0;
    var cursor := h[parent].child;
    var matchedCount: nat := 0;
    while cursor.Some?
      invariant i <= |ids| == |items| && Row(h, cursor, ids[i..], items[i..])
      invariant ByIndex(items, name, index, 0, 0) == ByIndex(items, name, index, i, matchedCount)
      decreases |ids| - i
    {
      var fiber := h[cursor.value];
      assert items[i..][0] == items[i] == ItemOf(fiber);
      assert ids[i..][1..] == ids[i + 1..] && items[i..][1..] == items[i + 1..];
      if ExtractKey(fiber).None? && fiber.name == name {
        if matchedCount == index {
          return cursor;
        }
        matchedCount := matchedCount + 1;
      }
      cursor := fiber.sibling;
      i := i + 1;
    }
    return None;
  }

  method ChildByKey(h: Heap, parent: Id, name: string, key: string, ghost ids: seq<Id>, ghost items: seq<Item>)
    returns (r: Option<Id>)
    requires parent in h && Row(h, h[parent].child, ids, items)
    ensures r == NodeAt(ids, ByKey(items, name, key, 0))
  {
    ghost var i: nat := 0;
    var cursor := h[parent].child;
    while cursor.Some?
      invariant i <= |ids| == |items| && Row(h, cursor, ids[i..], items[i..])
      invariant ByKey(items, name, key, 0) == ByKey(items, name, key, i)
      decreases |ids| - i
    {
      var fiber := h[cursor.value];
      assert items[i..][0] == items[i] == ItemOf(fiber);
      assert ids[i..][1..] == ids[i + 1..] && items[i..][1..] == items[i + 1..];
      if fiber.name == name && ExtractKey(fiber) == Some(key) {
        return cursor;
      }
      cursor := fiber.sibling;
      i := i + 1;
    }
    return None;
  }

  // ---------------------------------------------------------------- climbing

  /** The children of a fiber, in order, and what ids record of them. */
  datatype Siblings = Siblings(ids: seq<Id>, items: seq<Item>)

  ghost predicate IsRow(h: Heap, p: Id, rows: map<Id, Siblings>) {
    p in h && p in rows && |rows[p].items| == |rows[p].ids| && Row(h, h[p].child, rows[p].ids, rows[p].items)
  }

  /** What climbing needs to end: sibling chains and return chains (up to a host root) are finite. */
  ghost predicate Climbable(h: Heap, rows: map<Id, Siblings>, rank: map<Id, nat>) {
    forall n {:trigger rank[n]} :: n in rank ==>
      n in h && (h[n].tag != HOST_ROOT_TAG && h[n].ret.Some? ==>
        h[n].ret.value in rank && rank[h[n].ret.value] < rank[n] && IsRow(h, h[n].ret.value, rows))
  }

  /** The occurrence number of any fiber: 0 without a parent, or when the parent does not list it. */
  ghost function Occurrence(h: Heap, f: Id, rows: map<Id, Siblings>): nat
    requires f in h && (h[f].ret.Some? ==> IsRow(h, h[f].ret.value, rows))
  {
    if h[f].ret.None? then 0
    else OccurrenceIn(rows[h[f].ret.value].ids, rows[h[f].ret.value].items, h[f].name, f)
  }

  method UnkeyedOccurrence(h: Heap, f: Id, ghost rows: map<Id, Siblings>) returns (n: nat)
    requires f in h && (h[f].ret.Some? ==> IsRow(h, h[f].ret.value, rows))
    ensures n == Occurrence(h, f, rows)
  {
    if h[f].ret.None? {
      return 0;
    }
    var parent := h[f].ret.value;
    var name := h[f].name;
    ghost var ids, items := rows[parent].ids, rows[parent].items;
    ghost var i: nat := 0;
    n := 0;
    var cursor := h[parent].child;
    while cursor.Some?
      invariant i <= |ids| == |items| && Row(h, cursor, ids[i..], items[i..])
      invariant f !in ids[..i] && n == UnkeyedBefore(items, name, i)
      decreases |ids| - i
    {
      var fiber := h[cursor.value];
      assert items[i..][0] == items[i] == ItemOf(fiber);
      assert ids[i..][0] == ids[i] && ids[i..][1..] == ids[i + 1..] && items[i..][1..] == items[i + 1..];
      if cursor.value == f {
        FirstPlaceIs(ids, f, i);
        return;
      }
      if ExtractKey(fiber).None? && fiber.name == name {
        n := n + 1;
      }
      assert ids[..i + 1] == ids[..i] + [ids[i]];
      cursor := fiber.sibling;
      i := i + 1;
    }
    assert ids[..i] == ids;
    return 0;
  }

  /** The segment of any fiber. */
  ghost function SegmentIn(h: Heap, f: Id, rows: map<Id, Siblings>): string
    requires f in h && (h[f].ret.Some? ==> IsRow(h, h[f].ret.value, rows))
  {
    var key := ExtractKey(h[f]);
    Segment(h[f].name, if key.Some? then key.value else Decimal(Occurrence(h, f, rows)))
  }

  method SegmentFor(h: Heap, f: Id, ghost rows: map<Id, Siblings>) returns (seg: string)
    requires f in h && (h[f].ret.Some? ==> IsRow(h, h[f].ret.value, rows))
    ensures seg == SegmentIn(h, f, rows)
  {
    var name := h[f].name;
    var key := ExtractKey(h[f]);
    var disc: string;
    if key.Some? {
      disc := key.value;
    } else {
      var occurrence := UnkeyedOccurrence(h, f, rows);
      disc := Decimal(occurrence);
    }
    seg := Segment(name, disc);
  }

  /** The segments from below the host root, or from the topmost fiber, down to `f`. */
  ghost function Climbed(h: Heap, f: Id, rows: map<Id, Siblings>, rank: map<Id, nat>): seq<string>
    requires Climbable(h, rows, rank) && f in rank
    decreases rank[f]
  {
    if h[f].tag == HOST_ROOT_TAG then []
    else (if h[f].ret.Some? then Climbed(h, h[f].ret.value, rows, rank) else []) + [SegmentIn(h, f, rows)]
  }

  lemma InFront(above: seq<string>, seg: string, below: seq<string>)
    ensures above + [seg] + below == above + ([seg] + below)
    ensures [] + below == below
    ensures above + [] == above
  {}

  /** `computeStableId`, for every fiber whose climb ends: the cursor puts segments in front. */
  method ComputeStableId(h: Heap, f: Id, rootIndex: nat, ghost rows: map<Id, Siblings>, ghost rank: map<Id, nat>)
    returns (id: string)
    requires Climbable(h, rows, rank) && f in rank
    ensures id == IdOf(rootIndex, Climbed(h, f, rows, rank))
  {
    ghost var all := Climbed(h, f, rows, rank);
    var segments: seq<string> := [];
    var cursor: Option<Id> := Some(f);
    InFront(all, "", []);
    while cursor.Some? && h[cursor.value].tag != HOST_ROOT_TAG
      invariant cursor.Some? ==> cursor.value in rank
      invariant all == (if cursor.Some? then Climbed(h, cursor.value, rows, rank) else []) + segments
      decreases if cursor.Some? then rank[cursor.value] + 1 else 0
    {
      ghost var n := rank[cursor.value];
      var seg := SegmentFor(h, cursor.value, rows);
      ghost var above := if h[cursor.value].ret.Some? then Climbed(h, h[cursor.value].ret.value, rows, rank) else [];
      InFront(above, seg, segments);
      segments := [seg] + segments;
      cursor := h[cursor.value].ret;
    }
    InFront([], "", segments);
    id := Join([RootSegment(rootIndex)] + segments, '/');
  }

  ghost function RowsOf(t: Tree): map<Id, Siblings> {
    map p | p in t.kids :: Siblings(t.kids[p], StableIds.Siblings(t, p))
  }

  lemma TreeClimbable(h: Heap, t: Tree, root: Id)
    requires Linked(h, t, root)
    ensures Climbable(h, RowsOf(t), t.depth)
  {
    forall n | n in t.depth && h[n].tag != HOST_ROOT_TAG && h[n].ret.Some?
      ensures h[n].ret.value in t.depth && t.depth[h[n].ret.value] < t.depth[n] && IsRow(h, h[n].ret.value, RowsOf(t))
    {
      assert n in t.up && h[n].ret == Some(t.up[n]);
      RowOf(h, t, root, t.up[n]);
    }
  }

  lemma TreeSegment(h: Heap, t: Tree, root: Id, f: Id)
    requires Linked(h, t, root) && f in t.up
    ensures h[f].ret == Some(t.up[f]) && IsRow(h, t.up[f], RowsOf(t))
      && SegmentIn(h, f, RowsOf(t)) == SegmentOf(t, root, f)
  {
    RowOf(h, t, root, t.up[f]);
    TreePlace(t, root, f);
    assert t.item[f] == ItemOf(h[f]);
    assert StableIds.Siblings(t, t.up[f])[t.pos[f]] == t.item[f];
  }

  /** In a linked tree the climb gives the segments from the root down. */
  lemma {:induction false} ClimbIsPath(h: Heap, t: Tree, root: Id, f: Id)
    requires Linked(h, t, root) && f in t.kids
    ensures Climbable(h, RowsOf(t), t.depth) && Climbed(h, f, RowsOf(t), t.depth) == SegmentsTo(t, root, f)
    decreases t.depth[f]
  {
    TreeClimbable(h, t, root);
    assert h[f].tag == HOST_ROOT_TAG <==> f == root;
    if f != root {
      TreeSegment(h, t, root, f);
      ClimbIsPath(h, t, root, t.up[f]);
    }
  }

  // ---------------------------------------------------------------- resolving

  /** One segment of `resolveStableId`: the child of `current` it leads to. */
  method NextChild(h: Heap, current: Id, seg: string, ghost ids: seq<Id>, ghost items: seq<Item>)
    returns (r: Option<Id>)
    requires current in h && Row(h, h[current].child, ids, items)
    ensures |ids| == |items| && r == NodeAt(ids, Step(items, seg))
  {
    var m := ParseSegment(seg);
    if m.None? {
      return None;
    }
    var (name, disc) := m.value;
    r := ChildByKey(h, current, name, disc, ids, items);
    if IsNumeric(disc) && r.None? {
      r := ChildAtIndex(h, current, name, ParseDecimal(disc), ids, items);
    }
  }

  /** The segment loop of `resolveStableId`. */
  method WalkDown(h: Heap, start: Id, segments: seq<string>, ghost t: Tree, ghost root: Id) returns (r: Option<Id>)
    requires Linked(h, t, root) && start in t.kids
    ensures r == Descend(t, root, start, segments)
  {
    var current := start;
    assert segments[0..] == segments;
    for i := 0 to |segments|
      invariant current in t.kids
      invariant Descend(t, root, start, segments) == Descend(t, root, current, segments[i..])
    {
      DescendFrom(t, root, current, segments, i);
      RowOf(h, t, root, current);
      var next := NextChild(h, current, segments[i], t.kids[current], StableIds.Siblings(t, current));
      if next.None? {
        return None;
      }
      current := next.value;
    }
    return Some(current);
  }

  /** The root fibers the mounted elements lead to (None: no root fiber found), each with its tree. */
  ghost predicate Mounted(h: Heap, roots: seq<Option<Id>>, trees: map<Id, Tree>) {
    forall i :: 0 <= i < |roots| && roots[i].Some?
      ==> roots[i].value in trees && Linked(h, trees[roots[i].value], roots[i].value)
  }

  /** What `resolveStableId` answers, in terms of the trees. */
  ghost function Resolve(h: Heap, roots: seq<Option<Id>>, trees: map<Id, Tree>, stableId: string): Option<Id>
    requires Mounted(h, roots, trees)
  {
    var segments := Split(stableId, '/');
    var rootIndex := ParseRoot(segments[0]);
    if rootIndex.None? || rootIndex.value >= |roots| || roots[rootIndex.value].None? then None
    else
      var root := roots[rootIndex.value].value;
      Descend(trees[root], root, root, segments[1..])
  }

  method ResolveStableId(h: Heap, roots: seq<Option<Id>>, stableId: string, ghost trees: map<Id, Tree>)
    returns (r: Option<Id>)
    requires Mounted(h, roots, trees)
    ensures r == Resolve(h, roots, trees, stableId)
  {
    var segments := Split(stableId, '/');
    var rootIndex := ParseRoot(segments[0]);
    if rootIndex.None? {
      return None;
    }
    if rootIndex.value >= |roots| {
      return None;
    }
    var rootFiber := roots[rootIndex.value];
    if rootFiber.None? {
      return None;
    }
    r := WalkDown(h, rootFiber.value, segments[1..], trees[rootFiber.value], rootFiber.value);
  }

  /**
   * Resolving a computed id gives the very fiber it was computed from exactly when, on every level
   * of its path, the name is not empty, name and key hold no `/` and no line break, the key holds
   * no `[`, a keyed fiber is the first with its name and key, and no sibling of an unkeyed fiber
   * has its occurrence number for a key.
   */
  lemma ReactIdRoundTrip(h: Heap, roots: seq<Option<Id>>, trees: map<Id, Tree>, rootIndex: nat, f: Id)
    requires Mounted(h, roots, trees)
    requires rootIndex < |roots| && roots[rootIndex].Some? && f in trees[roots[rootIndex].value].kids
    ensures
      var root := roots[rootIndex].value;
      var t := trees[root];
      Resolve(h, roots, trees, IdOf(rootIndex, SegmentsTo(t, root, f))) == Some(f)
      <==> PathOk(t, root, f) && PathNoSlash(t, root, f)
  {
    var root := roots[rootIndex].value;
    var t := trees[root];
    var segs := SegmentsTo(t, root, f);
    IdPieces(rootIndex, segs);
    RootRoundTrip(rootIndex);
    IdIff(t, root, f, rootIndex);
  }

  /** Two fibers whose ids resolve share an id only when they are the same fiber. */
  lemma ReactIdsAreInjective(h: Heap, roots: seq<Option<Id>>, trees: map<Id, Tree>, i: nat, f: Id, j: nat, g: Id)
    requires Mounted(h, roots, trees)
    requires i < |roots| && roots[i].Some? && f in trees[roots[i].value].kids
    requires j < |roots| && roots[j].Some? && g in trees[roots[j].value].kids
    requires PathOk(trees[roots[i].value], roots[i].value, f) && PathNoSlash(trees[roots[i].value], roots[i].value, f)
    requires PathOk(trees[roots[j].value], roots[j].value, g) && PathNoSlash(trees[roots[j].value], roots[j].value, g)
    requires IdOf(i, SegmentsTo(trees[roots[i].value], roots[i].value, f))
          == IdOf(j, SegmentsTo(trees[roots[j].value], roots[j].value, g))
    ensures f == g
  {
    ReactIdRoundTrip(h, roots, trees, i, f);
    ReactIdRoundTrip(h, roots, trees, j, g);
  }

  /** The text leads to `n`: a mounted root by any numeral of its index, then
   * segments each of which leads one step down. */
  ghost predicate Addresses(h: Heap, roots: seq<Option<Id>>, trees: map<Id, Tree>, stableId: string, n: Id,
                            digits: string, segs: seq<string>)
    requires Mounted(h, roots, trees)
  {
    && IsText(stableId, digits, segs)
    && var i := ParseDecimal(digits);
       && i < |roots| && roots[i].Some?
       && var root := roots[i].value;
          n in trees[root].kids && PathAnswers(trees[root], root, n, segs)
  }

  /** Resolving a text that is split into its numeral and its segments. */
  lemma ResolveText(h: Heap, roots: seq<Option<Id>>, trees: map<Id, Tree>, stableId: string, digits: string,
    segs: seq<string>)
    requires Mounted(h, roots, trees) && IsText(stableId, digits, segs)
    ensures
      var i := ParseDecimal(digits);
      Resolve(h, roots, trees, stableId)
      == if i >= |roots| || roots[i].None? then None
         else Descend(trees[roots[i].value], roots[i].value, roots[i].value, segs)
  {
    TextIff(stableId, digits, segs);
    var pieces := Split(stableId, '/');
    ParseRootIff(pieces[0], ParseDecimal(digits));
    assert pieces[1..] == segs;
  }

  lemma AddressResolves(h: Heap, roots: seq<Option<Id>>, trees: map<Id, Tree>, stableId: string, n: Id,
                        digits: string, segs: seq<string>)
    requires Mounted(h, roots, trees) && IsText(stableId, digits, segs)
    ensures Resolve(h, roots, trees, stableId) == Some(n) <==> Addresses(h, roots, trees, stableId, n, digits, segs)
  {
    ResolveText(h, roots, trees, stableId, digits, segs);
    var i := ParseDecimal(digits);
    if i < |roots| && roots[i].Some? {
      var root := roots[i].value;
      if n in trees[root].kids {
        DescendResolvesIff(trees[root], root, n, segs);
      }
    }
  }

  /** Every text that resolves to a fiber, and no other: leading zeros in a numeral are accepted, nothing else is. */
  lemma ResolvesIff(h: Heap, roots: seq<Option<Id>>, trees: map<Id, Tree>, stableId: string, n: Id)
    requires Mounted(h, roots, trees)
    ensures Resolve(h, roots, trees, stableId) == Some(n)
       <==> exists digits, segs :: Addresses(h, roots, trees, stableId, n, digits, segs)
  {
    if Resolve(h, roots, trees, stableId) == Some(n) {
      var digits, segs := TextOf(stableId);
      AddressResolves(h, roots, trees, stableId, n, digits, segs);
    }
    if digits, segs :| Addresses(h, roots, trees, stableId, n, digits, segs) {
      AddressResolves(h, roots, trees, stableId, n, digits, segs);
    }
  }
}
