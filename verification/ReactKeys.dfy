/** Stable ids of React fibers in terms of the raw keys of the fibers. */
module ReactKeys {
  import opened Prelude
  import opened Text
  import opened StableIds
  import opened ReactIds
  import opened RawKeys

  /** The empty key counts as none. */
  const RAW: Reading<Fiber> := Reading(
    (f: Fiber) => f.name,
    (f: Fiber, k: string) => f.rawKey == Some(k) && k != "",
    (f: Fiber) => f.rawKey == None || f.rawKey == Some(""))

  lemma ItemSays(f: Fiber)
    ensures Says(RAW, f, ItemOf(f))
  {}

  lemma {:induction false} RowItems(h: Heap, first: Option<Id>, ids: seq<Id>, items: seq<Item>)
    requires Row(h, first, ids, items)
    ensures Chain(h, first, ids) && RowSays(RAW, h, ids, items)
    decreases |ids|
  {
    if ids != [] {
      RowItems(h, h[ids[0]].sibling, ids[1..], items[1..]);
      forall i | 0 <= i < |ids| ensures ids[i] in h && Says(RAW, h[ids[i]], items[i]) {
        if i == 0 {
          ItemSays(h[ids[0]]);
        } else {
          assert ids[1..][i - 1] == ids[i] && items[1..][i - 1] == items[i];
        }
      }
    }
  }

  lemma {:induction false} ChainIsUnique(h: Heap, first: Option<Id>, a: seq<Id>, b: seq<Id>)
    requires Chain(h, first, a) && Chain(h, first, b)
    ensures a == b
    decreases |a|
  {
    if a != [] && b != [] {
      ChainIsUnique(h, h[a[0]].sibling, a[1..], b[1..]);
      assert a == [a[0]] + a[1..] && b == [b[0]] + b[1..];
    }
  }

  /**
   * The segment of any fiber: its key when that is not empty; otherwise how many of its earlier siblings
   * have its name and no key, and 0 for a fiber its parent does not list.
   */
  lemma SegmentWritten(h: Heap, f: Id, rows: map<Id, Siblings>, ids: seq<Id>)
    requires f in h && (h[f].ret.Some? ==> IsRow(h, h[f].ret.value, rows) && Chain(h, h[h[f].ret.value].child, ids))
    ensures forall k :: h[f].rawKey == Some(k) && k != "" ==> SegmentIn(h, f, rows) == h[f].name + "[" + k + "]"
    ensures h[f].rawKey == None || h[f].rawKey == Some("") ==>
      && (h[f].ret.None? || f !in ids ==> SegmentIn(h, f, rows) == h[f].name + "[" + Decimal(0) + "]")
      && forall i: nat :: h[f].ret.Some? && i < |ids| && ids[i] == f && f !in ids[..i] ==>
           SegmentIn(h, f, rows)
           == h[f].name + "[" + Decimal(|NamesakesBefore(RAW, h, ids, h[f].name, i)|) + "]"
  {
    if h[f].ret.Some? {
      var row := rows[h[f].ret.value];
      RowItems(h, h[h[f].ret.value].child, row.ids, row.items);
      ChainIsUnique(h, h[h[f].ret.value].child, row.ids, ids);
      forall i: nat | i < |ids| && ids[i] == f && f !in ids[..i]
        ensures Occurrence(h, f, rows) == |NamesakesBefore(RAW, h, ids, h[f].name, i)|
      {
        FirstPlaceIs(ids, f, i);
        Counted(RAW, h, ids, row.items, h[f].name, i);
      }
    }
  }

  /** The climb ends at a host root, whose tag is 3, and otherwise writes the segment of every fiber it passes. */
  lemma ClimbEnds(h: Heap, f: Id, rows: map<Id, Siblings>, rank: map<Id, nat>)
    requires Climbable(h, rows, rank) && f in rank
    ensures Climbed(h, f, rows, rank) == [] <==> h[f].tag == 3
    ensures h[f].tag != 3 ==>
              var segs := Climbed(h, f, rows, rank);
              && segs[|segs| - 1] == SegmentIn(h, f, rows)
              && (h[f].ret.None? ==> |segs| == 1)
              && (h[f].ret.Some? ==> segs[..|segs| - 1] == Climbed(h, h[f].ret.value, rows, rank))
  {}

  lemma LinkedSays(h: Heap, t: Tree, root: Id)
    requires Linked(h, t, root)
    ensures TreeSays(RAW, h, t, root)
  {
    forall n | n in t.kids ensures Says(RAW, h[n], t.item[n]) {
      ItemSays(h[n]);
      assert t.item[n] == ItemOf(h[n]);
    }
  }

  /**
   * The id written for a fiber leads back to it exactly when every level of its path is legible: names
   * that are not empty, no `/` and no line break, a key without `[` that no earlier namesake carries, or no
   * key and no namesake whose key is the number written instead.
   */
  lemma KeyedRoundTrip(h: Heap, roots: seq<Option<Id>>, trees: map<Id, Tree>, rootIndex: nat, f: Id)
    requires Mounted(h, roots, trees)
    requires rootIndex < |roots| && roots[rootIndex].Some? && f in trees[roots[rootIndex].value].kids
    ensures
      var root := roots[rootIndex].value;
      var t := trees[root];
      && TreeSays(RAW, h, t, root) && Climbable(h, RowsOf(t), t.depth)
      && (Resolve(h, roots, trees, IdOf(rootIndex, Climbed(h, f, RowsOf(t), t.depth))) == Some(f)
          <==> PathLegible(RAW, h, t, root, f))
  {
    var root := roots[rootIndex].value;
    LinkedSays(h, trees[root], root);
    ClimbIsPath(h, trees[root], root, f);
    PathLegibleIff(RAW, h, trees[root], root, f);
    ReactIdRoundTrip(h, roots, trees, rootIndex, f);
  }

  /** The text is `root`, a numeral of the index of a mounted root, and segments that each lead one step down to `n`. */
  ghost predicate Reaches(h: Heap, roots: seq<Option<Id>>, trees: map<Id, Tree>, stableId: string, n: Id,
                          digits: string, i: nat, segs: seq<string>)
    requires Mounted(h, roots, trees)
  {
    && IsText(stableId, digits, segs) && Numeral(digits, i) && i < |roots| && roots[i].Some?
    && var root := roots[i].value;
          n in trees[root].kids && TreeSays(RAW, h, trees[root], root)
          && PathLedTo(RAW, h, trees[root], root, n, segs)
  }

  /** Every text that resolves to a fiber, and no other. */
  lemma KeyedResolvesIff(h: Heap, roots: seq<Option<Id>>, trees: map<Id, Tree>, stableId: string, n: Id)
    requires Mounted(h, roots, trees)
    ensures Resolve(h, roots, trees, stableId) == Some(n)
       <==> exists digits, i, segs :: Reaches(h, roots, trees, stableId, n, digits, i, segs)
  {
    ResolvesIff(h, roots, trees, stableId, n);
    if digits, segs :| Addresses(h, roots, trees, stableId, n, digits, segs) {
      ReachesIff(h, roots, trees, stableId, n, digits, ParseDecimal(digits), segs);
    }
    if digits, i, segs :| Reaches(h, roots, trees, stableId, n, digits, i, segs) {
      ReachesIff(h, roots, trees, stableId, n, digits, i, segs);
    }
  }

  lemma ReachesIff(h: Heap, roots: seq<Option<Id>>, trees: map<Id, Tree>, stableId: string, n: Id,
                   digits: string, i: nat, segs: seq<string>)
    requires Mounted(h, roots, trees)
    requires IsNumeric(digits) ==> i == ParseDecimal(digits) || Numeral(digits, i)
    ensures Reaches(h, roots, trees, stableId, n, digits, i, segs)
       <==> Addresses(h, roots, trees, stableId, n, digits, segs)
  {
    if IsText(stableId, digits, segs) {
      NumeralIff(digits, i);
      if i < |roots| && roots[i].Some? && n in trees[roots[i].value].kids {
        var root := roots[i].value;
        LinkedSays(h, trees[root], root);
        PathLedToIff(RAW, h, trees[root], root, n, segs);
      }
    }
  }
}
