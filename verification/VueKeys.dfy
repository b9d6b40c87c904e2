/** Stable ids of Vue components in terms of the keys of their virtual nodes. */
module VueKeys {
  import opened Prelude
  import opened Text
  import opened StableIds
  import opened VueIds
  import opened RawKeys

  /** A number counts as its decimal form; the empty string and symbols count as no key. */
  const RAW: Reading<Instance> := Reading(
    (n: Instance) => n.name,
    (n: Instance, k: string) => n.key == NumberKey(k) || (n.key == StringKey(k) && k != ""),
    (n: Instance) => n.key == NoKey || n.key == SymbolKey || n.key == StringKey(""))

  lemma ItemSays(n: Instance)
    ensures Says(RAW, n, ItemOf(n))
  {}

  /**
   * The segment of any instance: its key, when it has one that counts; otherwise how many of the earlier
   * children of its parent have its name and no key, and 0 for one its parent does not render.
   */
  lemma SegmentWritten(h: Heap, n: Id)
    requires HasRow(h, n)
    ensures forall k :: h[n].key == NumberKey(k) || (h[n].key == StringKey(k) && k != "") ==>
              SegmentIn(h, n) == h[n].name + "[" + k + "]"
    ensures h[n].key == NoKey || h[n].key == SymbolKey || h[n].key == StringKey("") ==>
      && (h[n].parent.None? || n !in CollectFrom(h[h[n].parent.value].subTree) ==>
            SegmentIn(h, n) == h[n].name + "[" + Decimal(0) + "]")
      && (h[n].parent.Some? ==>
            var ids := CollectFrom(h[h[n].parent.value].subTree);
            forall i: nat :: i < |ids| && ids[i] == n && n !in ids[..i] ==>
              SegmentIn(h, n) == h[n].name + "[" + Decimal(|NamesakesBefore(RAW, h, ids, h[n].name, i)|) + "]")
  {
    if h[n].parent.Some? {
      var ids := CollectFrom(h[h[n].parent.value].subTree);
      var items := ItemsOf(h, ids);
      forall i | 0 <= i < |ids| ensures Says(RAW, h[ids[i]], items[i]) {
        ItemSays(h[ids[i]]);
      }
      forall i: nat | i < |ids| && ids[i] == n && n !in ids[..i]
        ensures Occurrence(h, n) == |NamesakesBefore(RAW, h, ids, h[n].name, i)|
      {
        FirstPlaceIs(ids, n, i);
        Counted(RAW, h, ids, items, h[n].name, i);
      }
    }
  }

  lemma LinkedSays(h: Heap, t: Tree, root: Id)
    requires Linked(h, t, root)
    ensures TreeSays(RAW, h, t, root)
  {
    forall n | n in t.kids ensures Says(RAW, h[n], t.item[n]) {
      ItemSays(h[n]);
      assert t.item[n] == ItemOf(h[n]);
    }
  }

  /** A root component whose own segment is legible. */
  ghost predicate RootLegible(n: Instance) {
    n.name != "" && Plain(n.name) && forall k :: RAW.carries(n, k) ==> Plain(k) && '[' !in k
  }

  lemma RootLegibleIff(n: Instance)
    ensures RootLegible(n) <==> Printable(ItemOf(n)) && NoSlash(ItemOf(n))
  {
    ItemSays(n);
    UnbrokenIff(n.name);
    if ItemOf(n).key.Some? {
      UnbrokenIff(ItemOf(n).key.value);
      assert RAW.carries(n, ItemOf(n).key.value);
    }
  }

  /** The id written for a component leads back to it exactly when the root
   * component and every level below are legible. */
  lemma KeyedRoundTrip(h: Heap, roots: seq<Option<Id>>, trees: map<Id, Tree>, rootIndex: nat, n: Id)
    requires Mounted(h, roots, trees)
    requires rootIndex < |roots| && roots[rootIndex].Some? && n in trees[roots[rootIndex].value].kids
    ensures
      var root := roots[rootIndex].value;
      var t := trees[root];
      && TreeSays(RAW, h, t, root) && Climbable(h, t.depth)
      && (Resolve(h, roots, trees, IdOf(rootIndex, Climbed(h, n, t.depth))) == Some(n)
          <==> RootLegible(h[root]) && PathLegible(RAW, h, t, root, n))
  {
    var root := roots[rootIndex].value;
    var t := trees[root];
    LinkedSays(h, t, root);
    ClimbIsPath(h, t, root, n);
    PathLegibleIff(RAW, h, t, root, n);
    assert t.item[root] == ItemOf(h[root]);
    RootLegibleIff(h[root]);
    VueIdRoundTrip(h, roots, trees, rootIndex, n);
  }

  /** What the root component answers to: its name with whatever a segment can hold. */
  ghost predicate RootLedTo(n: Instance, seg: string) {
    exists disc :: RootLedToBy(n, seg, disc)
  }

  predicate RootLedToBy(n: Instance, seg: string, disc: string) {
    seg == n.name + "[" + disc + "]" && n.name != "" && Unbroken(n.name) && Unbroken(disc) && '[' !in disc
  }

  lemma RootLedToIff(n: Instance, seg: string)
    ensures RootLedTo(n, seg) <==> RootAnswers(ItemOf(n), seg)
  {
    var parsed := ParseSegment(seg);
    if parsed.Some? {
      ParseSegmentIff(seg, parsed.value.0, parsed.value.1);
      OneLineSegment(parsed.value.0, parsed.value.1);
      UnbrokenIff(parsed.value.0);
      UnbrokenIff(parsed.value.1);
      if parsed.value.0 == n.name {
        assert RootLedToBy(n, seg, parsed.value.1);
      }
    }
    if disc :| RootLedToBy(n, seg, disc) {
      ParseSegmentIff(seg, n.name, disc);
      OneLineSegment(n.name, disc);
      UnbrokenIff(n.name);
      UnbrokenIff(disc);
    }
  }

  /**
   * The text is `root`, a numeral of the index of a mounted root, and then nothing, or what the root
   * component answers to and segments that each lead one step down to `n`.
   */
  ghost predicate Reaches(h: Heap, roots: seq<Option<Id>>, trees: map<Id, Tree>, stableId: string, n: Id,
                          digits: string, i: nat, segs: seq<string>)
    requires Mounted(h, roots, trees)
  {
    && IsText(stableId, digits, segs) && Numeral(digits, i) && i < |roots| && roots[i].Some?
    && var root := roots[i].value;
          && n in trees[root].kids && root in h && TreeSays(RAW, h, trees[root], root)
          && if segs == [] then n == root
             else RootLedTo(h[root], segs[0]) && PathLedTo(RAW, h, trees[root], root, n, segs[1..])
  }

  /** Every text that resolves to an instance, and no other. */
  lemma KeyedResolvesIff(h: Heap, roots: seq<Option<Id>>, trees: map<Id, Tree>, stableId: string, n: Id)
    requires Mounted(h, roots, trees)
    ensures Resolve(h, roots, trees, stableId) == Some(n)
       <==> exists digits, i, segs :: Reaches(h, roots, trees, stableId, n, digits, i, segs)
  {
    ResolvesIff(h, roots, trees, stableId, n);
    if digits, segs :| Addresses(h, roots, trees, stableId, n, digits, segs) {
      ReachesIff(h, roots, trees, stableId, n, digits, ParseDecimal(digits), segs);
    }
    if digits, i, segs :| Reaches(h, roots, trees, stableId, n, digits, i, segs) {
      ReachesIff(h, roots, trees, stableId, n, digits, i, segs);
    }
  }

  lemma ReachesIff(h: Heap, roots: seq<Option<Id>>, trees: map<Id, Tree>, stableId: string, n: Id,
                   digits: string, i: nat, segs: seq<string>)
    requires Mounted(h, roots, trees)
    requires IsNumeric(digits) ==> i == ParseDecimal(digits) || Numeral(digits, i)
    ensures Reaches(h, roots, trees, stableId, n, digits, i, segs)
       <==> Addresses(h, roots, trees, stableId, n, digits, segs)
  {
    if IsText(stableId, digits, segs) {
      NumeralIff(digits, i);
      if i < |roots| && roots[i].Some? && n in trees[roots[i].value].kids {
        var root := roots[i].value;
        LinkedSays(h, trees[root], root);
        assert trees[root].item[root] == ItemOf(h[root]);
        if segs != [] {
          RootLedToIff(h[root], segs[0]);
          PathLedToIff(RAW, h, trees[root], root, n, segs[1..]);
        }
      }
    }
  }
}
