/**
 * Stable ids in terms of the keys nodes really carry. What `StableIds` proves about items holds of
 * the nodes of a heap: here the conditions are spelled out on their names and keys.
 */
module RawKeys {
  import opened Prelude
  import opened Text
  import opened StableIds

  /** How names and keys are read of a node: its name, whether it carries a given key, whether it carries none. */
  datatype Reading<!N> = Reading(name: N -> string, carries: (N, string) -> bool, bare: N -> bool)

  ghost predicate AllIn<N>(h: map<Id, N>, ids: seq<Id>) { forall i :: 0 <= i < |ids| ==> ids[i] in h }

  predicate Called<N>(r: Reading<N>, h: map<Id, N>, n: Id, name: string) { n in h && r.name(h[n]) == name }

  /** A namesake of that key. */
  predicate Keyed<N>(r: Reading<N>, h: map<Id, N>, n: Id, name: string, key: string) {
    Called(r, h, n, name) && r.carries(h[n], key)
  }

  predicate Unkeyed<N>(r: Reading<N>, h: map<Id, N>, n: Id, name: string) { Called(r, h, n, name) && r.bare(h[n]) }

  /** The places before `n` of the siblings called `name` that carry no key. */
  function NamesakesBefore<N>(r: Reading<N>, h: map<Id, N>, ids: seq<Id>, name: string, n: nat): set<nat>
    requires n <= |ids|
  {
    set j: nat | j < n && Unkeyed(r, h, ids[j], name)
  }

  /** No character a dot in a pattern stops at. */
  predicate Unbroken(s: string) { '\n' !in s && '\r' !in s && '\U{2028}' !in s && '\U{2029}' !in s }

  lemma UnbrokenIff(s: string)
    ensures Unbroken(s) <==> OneLine(s)
  {
    if !OneLine(s) {
      var i :| 0 <= i < |s| && IsLineBreak(s[i]);
      assert s[i] in s;
    }
  }

  predicate Plain(s: string) { Unbroken(s) && '/' !in s }

  /** The segment of the sibling at place `i` is printed legibly and leads to nobody before it. */
  ghost predicate Legible<N>(r: Reading<N>, h: map<Id, N>, ids: seq<Id>, i: nat)
    requires AllIn(h, ids) && i < |ids|
  {
    var n := h[ids[i]];
    var name := r.name(n);
    && name != "" && Plain(name)
    && (forall k :: r.carries(n, k) ==>
          Plain(k) && '[' !in k && forall j :: 0 <= j < i ==> !Keyed(r, h, ids[j], name, k))
    && (r.bare(n) ==>
          forall j :: 0 <= j < |ids| ==>
            !Keyed(r, h, ids[j], name, Decimal(|NamesakesBefore(r, h, ids, name, i)|)))
  }

  /** The segment leads to the sibling at place `i`, by its key or by its number among the unkeyed namesakes. */
  ghost predicate LedTo<N>(r: Reading<N>, h: map<Id, N>, ids: seq<Id>, i: nat, seg: string)
    requires AllIn(h, ids) && i < |ids|
  {
    exists disc :: LedToBy(r, h, ids, i, seg, disc)
  }

  ghost predicate LedToBy<N>(r: Reading<N>, h: map<Id, N>, ids: seq<Id>, i: nat, seg: string, disc: string)
    requires AllIn(h, ids) && i < |ids|
  {
    var n := h[ids[i]];
    var name := r.name(n);
    && seg == name + "[" + disc + "]"
    && name != "" && Unbroken(name) && Unbroken(disc) && '[' !in disc
    && ((r.carries(n, disc) && forall j :: 0 <= j < i ==> !Keyed(r, h, ids[j], name, disc))
        || (r.bare(n) && Numeral(disc, |NamesakesBefore(r, h, ids, name, i)|)
            && forall j :: 0 <= j < |ids| ==> !Keyed(r, h, ids[j], name, disc)))
  }

  // ---------------------------------------------------------------- one row of siblings

  /** The item says what is read of the node. */
  ghost predicate Says<N>(r: Reading<N>, n: N, item: Item) {
    && item.name == r.name(n)
    && (forall k :: r.carries(n, k) <==> item.key == Some(k))
    && (r.bare(n) <==> item.key.None?)
  }

  ghost predicate RowSays<N>(r: Reading<N>, h: map<Id, N>, ids: seq<Id>, items: seq<Item>) {
    |items| == |ids| && AllIn(h, ids) && forall i :: 0 <= i < |ids| ==> Says(r, h[ids[i]], items[i])
  }

  lemma ItemIs<N>(r: Reading<N>, h: map<Id, N>, ids: seq<Id>, items: seq<Item>, j: nat, name: string)
    requires RowSays(r, h, ids, items) && j < |ids|
    ensures items[j] == Item(name, None) <==> Unkeyed(r, h, ids[j], name)
    ensures forall k :: items[j] == Item(name, Some(k)) <==> Keyed(r, h, ids[j], name, k)
  {
    assert Says(r, h[ids[j]], items[j]);
  }

  lemma OneMore<N>(r: Reading<N>, h: map<Id, N>, ids: seq<Id>, name: string, n: nat)
    requires 0 < n <= |ids|
    ensures |NamesakesBefore(r, h, ids, name, n)|
         == |NamesakesBefore(r, h, ids, name, n - 1)| + if Unkeyed(r, h, ids[n - 1], name) then 1 else 0
  {
    var before, after := NamesakesBefore(r, h, ids, name, n - 1), NamesakesBefore(r, h, ids, name, n);
    if Unkeyed(r, h, ids[n - 1], name) {
      assert after == before + {n - 1};
    } else {
      assert after == before;
    }
  }

  lemma {:induction false} Counted<N>(r: Reading<N>, h: map<Id, N>, ids: seq<Id>, items: seq<Item>, name: string,
    n: nat)
    requires RowSays(r, h, ids, items) && n <= |ids|
    ensures UnkeyedBefore(items, name, n) == |NamesakesBefore(r, h, ids, name, n)|
  {
    if n > 0 {
      Counted(r, h, ids, items, name, n - 1);
      ItemIs(r, h, ids, items, n - 1, name);
      OneMore(r, h, ids, name, n);
    } else {
      assert NamesakesBefore(r, h, ids, name, 0) == {};
    }
  }

  lemma LegibleIff<N>(r: Reading<N>, h: map<Id, N>, ids: seq<Id>, items: seq<Item>, i: nat)
    requires RowSays(r, h, ids, items) && i < |ids|
    ensures Legible(r, h, ids, i) <==> Printable(items[i]) && NoSlash(items[i]) && Unambiguous(items, i)
  {
    var name := items[i].name;
    UnbrokenIff(name);
    if items[i].key.Some? {
      UnbrokenIff(items[i].key.value);
    }
    assert Says(r, h[ids[i]], items[i]);
    Counted(r, h, ids, items, name, i);
    forall j: nat | j < |ids| ensures forall k :: items[j] == Item(name, Some(k)) <==> Keyed(r, h, ids[j], name, k) {
      ItemIs(r, h, ids, items, j, name);
    }
    if items[i].key.Some? {
      assert items[i] == Item(name, Some(items[i].key.value));
      assert r.carries(h[ids[i]], items[i].key.value);
    }
  }

  lemma LedToIff<N>(r: Reading<N>, h: map<Id, N>, ids: seq<Id>, items: seq<Item>, i: nat, seg: string)
    requires RowSays(r, h, ids, items) && i < |ids|
    ensures LedTo(r, h, ids, i, seg) <==> Leads(items, seg, i)
  {
    forall disc ensures LedToBy(r, h, ids, i, seg, disc) <==> LeadsTo(items, seg, i, disc) {
      LedToByIff(r, h, ids, items, i, seg, disc);
    }
  }

  lemma LedToByIff<N>(r: Reading<N>, h: map<Id, N>, ids: seq<Id>, items: seq<Item>, i: nat, seg: string, disc: string)
    requires RowSays(r, h, ids, items) && i < |ids|
    ensures LedToBy(r, h, ids, i, seg, disc) <==> LeadsTo(items, seg, i, disc)
  {
    var name := items[i].name;
    UnbrokenIff(name);
    UnbrokenIff(disc);
    assert Says(r, h[ids[i]], items[i]);
    Counted(r, h, ids, items, name, i);
    NumeralIff(disc, |NamesakesBefore(r, h, ids, name, i)|);
    forall j: nat | j < |ids| ensures items[j] == Item(name, Some(disc)) <==> Keyed(r, h, ids[j], name, disc) {
      ItemIs(r, h, ids, items, j, name);
    }
  }

  // ---------------------------------------------------------------- a whole tree

  ghost predicate TreeSays<N>(r: Reading<N>, h: map<Id, N>, t: Tree, root: Id) {
    && WellLinked(t, root)
    && forall n :: n in t.kids ==> n in h && Says(r, h[n], t.item[n])
  }

  lemma SiblingsSay<N>(r: Reading<N>, h: map<Id, N>, t: Tree, root: Id, p: Id)
    requires TreeSays(r, h, t, root) && p in t.kids
    ensures RowSays(r, h, t.kids[p], Siblings(t, p))
  {
    forall i | 0 <= i < |t.kids[p]|
      ensures t.kids[p][i] in h && Says(r, h[t.kids[p][i]], Siblings(t, p)[i])
    {
      assert t.kids[p][i] in t.up;
    }
  }

  /** Every segment from below the root down to `n` is legible. */
  ghost predicate PathLegible<N>(r: Reading<N>, h: map<Id, N>, t: Tree, root: Id, n: Id)
    requires TreeSays(r, h, t, root) && n in t.kids
    decreases t.depth[n]
  {
    n == root
    || (PathLegible(r, h, t, root, t.up[n]) && LegibleIn(r, h, t.kids[t.up[n]], t.pos[n]))
  }

  ghost predicate LegibleIn<N>(r: Reading<N>, h: map<Id, N>, ids: seq<Id>, i: nat) {
    AllIn(h, ids) && i < |ids| && Legible(r, h, ids, i)
  }

  /** Every segment leads one step down the path to `n`. */
  ghost predicate PathLedTo<N>(r: Reading<N>, h: map<Id, N>, t: Tree, root: Id, n: Id, segs: seq<string>)
    requires TreeSays(r, h, t, root) && n in t.kids
    decreases t.depth[n]
  {
    if n == root then segs == []
    else
      && segs != [] && PathLedTo(r, h, t, root, t.up[n], segs[..|segs| - 1])
      && LedToIn(r, h, t.kids[t.up[n]], t.pos[n], segs[|segs| - 1])
  }

  ghost predicate LedToIn<N>(r: Reading<N>, h: map<Id, N>, ids: seq<Id>, i: nat, seg: string) {
    AllIn(h, ids) && i < |ids| && LedTo(r, h, ids, i, seg)
  }

  lemma StepLegible<N>(r: Reading<N>, h: map<Id, N>, t: Tree, root: Id, n: Id)
    requires TreeSays(r, h, t, root) && n in t.up
    ensures LegibleIn(r, h, t.kids[t.up[n]], t.pos[n]) <==> StepOk(t, root, n) && NoSlash(t.item[n])
  {
    SiblingsSay(r, h, t, root, t.up[n]);
    LegibleIff(r, h, t.kids[t.up[n]], Siblings(t, t.up[n]), t.pos[n]);
  }

  lemma {:induction false} PathLegibleIff<N>(r: Reading<N>, h: map<Id, N>, t: Tree, root: Id, n: Id)
    requires TreeSays(r, h, t, root) && n in t.kids
    ensures PathLegible(r, h, t, root, n) <==> PathOk(t, root, n) && PathNoSlash(t, root, n)
    decreases t.depth[n]
  {
    if n != root {
      PathLegibleIff(r, h, t, root, t.up[n]);
      StepLegible(r, h, t, root, n);
    }
  }

  lemma {:induction false} PathLedToIff<N>(r: Reading<N>, h: map<Id, N>, t: Tree, root: Id, n: Id, segs: seq<string>)
    requires TreeSays(r, h, t, root) && n in t.kids
    ensures PathLedTo(r, h, t, root, n, segs) <==> PathAnswers(t, root, n, segs)
    decreases t.depth[n]
  {
    if n != root && segs != [] {
      PathLedToIff(r, h, t, root, t.up[n], segs[..|segs| - 1]);
      SiblingsSay(r, h, t, root, t.up[n]);
      LedToIff(r, h, t.kids[t.up[n]], Siblings(t, t.up[n]), t.pos[n], segs[|segs| - 1]);
    }
  }
}
