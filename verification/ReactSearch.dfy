/** Capped search over React trees: react/walk_fiber.ts, react/find.ts and react/find_by_text.ts. */
module ReactSearch {
  import opened Prelude
  import opened ReactTree

  /** What the search asks of a fiber: is it a host component, is its node an
   * element, does the caller's filter accept it. */
  datatype Facts = Facts(host: Id -> bool, element: Id -> bool, filter: Id -> bool)

  function Accepts(k: Facts): Id -> bool { (id: Id) => k.host(id) && k.element(id) && k.filter(id) }

  datatype Found = Found(matches: seq<Id>, truncated: bool)

  predicate Capped(s: Found, cap: Option<int>) { cap.Some? && |s.matches| >= cap.value }

  /** The visitor of `walkAndFilter`, on one fiber. */
  function Seen(s: Found, id: Id, k: Facts, cap: Option<int>): Found {
    if Capped(s, cap) then s.(truncated := true)
    else if Accepts(k)(id) then s.(matches := s.matches + [id])
    else s
  }

  /** `visit`: the subtree is skipped when the visitor says so, the siblings never are. */
  function Visited(f: Fiber, s: Found, k: Facts, cap: Option<int>): Found {
    if f.End? then s
    else
      var here := Seen(s, f.id, k, cap);
      Visited(f.sibling, if Capped(s, cap) then here else Visited(f.child, here, k, cap), k, cap)
  }

  /** `walkFiber`: one tree, without the siblings of its root. */
  function Walked(f: Fiber, s: Found, k: Facts, cap: Option<int>): Found
    requires f.Fiber?
  {
    var here := Seen(s, f.id, k, cap);
    if Capped(s, cap) then here else Visited(f.child, here, k, cap)
  }

  class Search {
    const facts: Facts
    const cap: Option<int>
    var matches: seq<Id>
    var truncated: bool

    function S(): Found
      reads this
    {
      Found(matches, truncated)
    }

    constructor (facts: Facts, cap: Option<int>)
      ensures this.facts == facts && this.cap == cap && S() == Found([], false)
    {
      this.facts, this.cap := facts, cap;
      matches, truncated := [], false;
    }

    method Visitor(id: Id) returns (enter: bool)
      modifies this
      ensures S() == Seen(old(S()), id, facts, cap)
      ensures enter <==> !Capped(old(S()), cap)
    {
      if cap.Some? && |matches| >= cap.value {
        truncated := true;
        return false;
      }
      if !facts.host(id) {
        return true;
      }
      if !facts.element(id) {
        return true;
      }
      if facts.filter(id) {
        matches := matches + [id];
      }
      return true;
    }

    method Visit(f: Fiber)
      requires f.Fiber?
      modifies this
      ensures S() == Visited(f, old(S()), facts, cap)
      decreases f
    {
      var result := Visitor(f.id);
      if result && f.child.Fiber? {
        Visit(f.child);
      }
      if f.sibling.Fiber? {
        Visit(f.sibling);
      }
    }

    method WalkFiber(f: Fiber)
      requires f.Fiber?
      modifies this
      ensures S() == Walked(f, old(S()), facts, cap)
    {
      var result := Visitor(f.id);
      if !result {
        return;
      }
      if f.child.Fiber? {
        Visit(f.child);
      }
    }
  }

  ghost predicate AllFibers(roots: seq<Fiber>) { forall i :: 0 <= i < |roots| ==> roots[i].Fiber? }

  function WalkedAll(roots: seq<Fiber>, s: Found, k: Facts, cap: Option<int>): Found
    requires AllFibers(roots)
  {
    if roots == [] then s else Walked(roots[|roots| - 1], WalkedAll(roots[..|roots| - 1], s, k, cap), k, cap)
  }

  method WalkAndFilter(roots: seq<Fiber>, k: Facts, cap: Option<int>) returns (r: Found)
    requires AllFibers(roots)
    ensures r == WalkedAll(roots, Found([], false), k, cap)
  {
    var search := new Search(k, cap);
    assert roots[..0] == [];
    for i := 0 to |roots|
      invariant search.facts == k && search.cap == cap
      invariant search.S() == WalkedAll(roots[..i], Found([], false), k, cap)
    {
      assert roots[..i + 1][..i] == roots[..i];
      search.WalkFiber(roots[i]);
    }
    assert roots[..|roots|] == roots;
    r := search.S();
  }

  // ---------------------------------------------------------------- the meaning

  /** The ids of a chain in preorder. */
  function Ids(f: Fiber): seq<Id> { if f.End? then [] else [f.id] + Ids(f.child) + Ids(f.sibling) }

  function AllIds(roots: seq<Fiber>): seq<Id> {
    if roots == [] then [] else AllIds(roots[..|roots| - 1]) + Ids(Alone(roots[|roots| - 1]))
  }

  /** The visitor on every id in turn, with nothing skipped. */
  function Scanned(ids: seq<Id>, s: Found, k: Facts, cap: Option<int>): Found {
    if ids == [] then s else Seen(Scanned(ids[..|ids| - 1], s, k, cap), ids[|ids| - 1], k, cap)
  }

  function Room(s: Found, cap: int): nat { if cap > |s.matches| then cap - |s.matches| else 0 }

  /** The first accepted ids, up to the cap; truncated exactly when an id
   * follows the point where the cap was reached. */
  ghost predicate IsCappedSearch(r: Found, ids: seq<Id>, s: Found, k: Facts, cap: Option<int>) {
    match cap
    case None => r == s.(matches := s.matches + Filter(ids, Accepts(k)))
    case Some(c) =>
      && r.matches == s.matches + FirstN(Filter(ids, Accepts(k)), Room(s, c))
      && (r.truncated <==> s.truncated || (ids != [] && |s.matches| + |Filter(ids[..|ids| - 1], Accepts(k))| >= c))
  }

  lemma {:induction false} ScanAppend(a: seq<Id>, b: seq<Id>, s: Found, k: Facts, cap: Option<int>)
    ensures Scanned(a + b, s, k, cap) == Scanned(b, Scanned(a, s, k, cap), k, cap)
    decreases |b|
  {
    if b == [] {
      assert a + b == a;
    } else {
      assert (a + b)[..|a + b| - 1] == a + b[..|b| - 1];
      ScanAppend(a, b[..|b| - 1], s, k, cap);
    }
  }

  /** Once the cap has been noticed nothing changes any more. */
  lemma {:induction false} ScanStuck(ids: seq<Id>, s: Found, k: Facts, cap: Option<int>)
    requires Capped(s, cap) && s.truncated
    ensures Scanned(ids, s, k, cap) == s
  {
    if ids != [] {
      ScanStuck(ids[..|ids| - 1], s, k, cap);
    }
  }

  lemma ScanOne(id: Id, s: Found, k: Facts, cap: Option<int>)
    ensures Scanned([id], s, k, cap) == Seen(s, id, k, cap)
  {
    assert [id][..0] == [];
  }

  /** Pruning loses nothing: the walk gives what scanning the whole preorder gives. */
  lemma {:induction false} VisitIsScan(f: Fiber, s: Found, k: Facts, cap: Option<int>)
    ensures Visited(f, s, k, cap) == Scanned(Ids(f), s, k, cap)
  {
    if f.Fiber? {
      var here := Seen(s, f.id, k, cap);
      ScanOne(f.id, s, k, cap);
      ScanAppend([f.id], Ids(f.child), s, k, cap);
      ScanAppend([f.id] + Ids(f.child), Ids(f.sibling), s, k, cap);
      if Capped(s, cap) {
        ScanStuck(Ids(f.child), here, k, cap);
        VisitIsScan(f.sibling, here, k, cap);
      } else {
        VisitIsScan(f.child, here, k, cap);
        VisitIsScan(f.sibling, Visited(f.child, here, k, cap), k, cap);
      }
    }
  }

  lemma WalkIsScan(f: Fiber, s: Found, k: Facts, cap: Option<int>)
    requires f.Fiber?
    ensures Walked(f, s, k, cap) == Scanned(Ids(Alone(f)), s, k, cap)
  {
    var here := Seen(s, f.id, k, cap);
    assert Ids(Alone(f)) == [f.id] + Ids(f.child);
    ScanOne(f.id, s, k, cap);
    ScanAppend([f.id], Ids(f.child), s, k, cap);
    if Capped(s, cap) {
      ScanStuck(Ids(f.child), here, k, cap);
    } else {
      VisitIsScan(f.child, here, k, cap);
    }
  }

  lemma {:induction false} WalkAllIsScan(roots: seq<Fiber>, s: Found, k: Facts, cap: Option<int>)
    requires AllFibers(roots)
    ensures WalkedAll(roots, s, k, cap) == Scanned(AllIds(roots), s, k, cap)
  {
    if roots != [] {
      var front, last := roots[..|roots| - 1], roots[|roots| - 1];
      WalkAllIsScan(front, s, k, cap);
      WalkIsScan(last, WalkedAll(front, s, k, cap), k, cap);
      ScanAppend(AllIds(front), Ids(Alone(last)), s, k, cap);
    }
  }

  lemma FilterSnoc(ids: seq<Id>, id: Id, keep: Id -> bool)
    ensures Filter(ids + [id], keep) == Filter(ids, keep) + if keep(id) then [id] else []
  {
    FilterAppend(ids, [id], keep);
    assert [id][1..] == [];
    assert Filter([id], keep) == if keep(id) then [id] else [];
  }

  lemma DropLast(a: seq<Id>, keep: Id -> bool)
    requires a != []
    ensures |Filter(a[..|a| - 1], keep)| <= |Filter(a, keep)|
  {
    assert a == a[..|a| - 1] + [a[|a| - 1]];
    FilterAppend(a[..|a| - 1], [a[|a| - 1]], keep);
  }

  /** One more fiber, before the cap is reached or with none at all. */
  lemma SeenBelowCap(mid: Found, front: seq<Id>, last: Id, s: Found, k: Facts, cap: Option<int>)
    requires IsCappedSearch(mid, front, s, k, cap) && !Capped(mid, cap)
    ensures IsCappedSearch(Seen(mid, last, k, cap), front + [last], s, k, cap)
  {
    assert (front + [last])[..|front|] == front;
    FilterSnoc(front, last, Accepts(k));
    if front != [] {
      DropLast(front, Accepts(k));
    }
  }

  /** One more fiber once the cap is reached. */
  lemma SeenAtCap(mid: Found, front: seq<Id>, last: Id, s: Found, k: Facts, cap: int)
    requires IsCappedSearch(mid, front, s, k, Some(cap)) && Capped(mid, Some(cap))
    ensures IsCappedSearch(Seen(mid, last, k, Some(cap)), front + [last], s, k, Some(cap))
  {
    assert (front + [last])[..|front|] == front;
    FilterSnoc(front, last, Accepts(k));
    FirstNSplit(Filter(front, Accepts(k)), if Accepts(k)(last) then [last] else [], Room(s, cap));
  }

  lemma {:induction false} ScanIsCapped(ids: seq<Id>, s: Found, k: Facts, cap: Option<int>)
    ensures IsCappedSearch(Scanned(ids, s, k, cap), ids, s, k, cap)
  {
    if ids != [] {
      var front, last := ids[..|ids| - 1], ids[|ids| - 1];
      ScanIsCapped(front, s, k, cap);
      var mid := Scanned(front, s, k, cap);
      if Capped(mid, cap) {
        SeenAtCap(mid, front, last, s, k, cap.value);
      } else {
        SeenBelowCap(mid, front, last, s, k, cap);
      }
      assert ids == front + [last];
    }
  }

  /** `walkAndFilter`: the first `maxMatches` accepted fibers of the concatenated
   * preorders, flagged exactly when a fiber follows the last permitted match. */
  lemma SearchIsCapped(roots: seq<Fiber>, k: Facts, cap: Option<int>)
    requires AllFibers(roots)
    ensures IsCappedSearch(WalkedAll(roots, Found([], false), k, cap), AllIds(roots), Found([], false), k, cap)
  {
    WalkAllIsScan(roots, Found([], false), k, cap);
    ScanIsCapped(AllIds(roots), Found([], false), k, cap);
  }

  // ---------------------------------------------------------------- findByText

  datatype Progress = Progress(found: Found, stopped: bool)

  /** One selected root of `findByText`, with the budget the earlier ones left;
   * End is an element without a root fiber. */
  function Budgeted(p: Progress, root: Fiber, k: Facts, maxMatches: int): Progress {
    if p.stopped then p
    else if |p.found.matches| >= maxMatches then Progress(p.found.(truncated := true), true)
    else if root.End? then p
    else
      var r := Walked(root, Found([], false), k, Some(maxMatches - |p.found.matches|));
      Progress(Found(p.found.matches + r.matches, p.found.truncated || r.truncated), false)
  }

  function TextSearch(roots: seq<Fiber>, k: Facts, maxMatches: int): Progress {
    if roots == [] then Progress(Found([], false), false)
    else Budgeted(TextSearch(roots[..|roots| - 1], k, maxMatches), roots[|roots| - 1], k, maxMatches)
  }

  function Texts(ms: seq<Id>, textOf: Id -> string): seq<string> {
    seq(|ms|, j requires 0 <= j < |ms| => textOf(ms[j]))
  }

  lemma TextsAppend(a: seq<Id>, b: seq<Id>, textOf: Id -> string)
    ensures Texts(a + b, textOf) == Texts(a, textOf) + Texts(b, textOf)
  {}

  /** `findByText`; `textOf` is the text an accepted fiber matched with. */
  method FindByText(roots: seq<Fiber>, rootIndex: Option<int>, k: Facts, textOf: Id -> string, maxMatches: int)
    returns (r: Found, texts: seq<string>, rootCount: nat)
    ensures rootIndex.None? ==> r == TextSearch(roots, k, maxMatches).found
    ensures rootIndex.Some? && 0 <= rootIndex.value < |roots| ==>
              r == TextSearch([roots[rootIndex.value]], k, maxMatches).found
    ensures rootIndex.Some? && !(0 <= rootIndex.value < |roots|) ==> r == Found([], false)
    ensures texts == Texts(r.matches, textOf)
    ensures rootCount == |roots|
  {
    var selected := Selected(roots, rootIndex);
    rootCount := |roots|;
    r := Found([], false);
    texts := [];
    assert selected[..0] == [];
    var i := 0;
    while i < |selected|
      invariant 0 <= i <= |selected| && TextSearch(selected[..i], k, maxMatches) == Progress(r, false)
      invariant texts == Texts(r.matches, textOf)
    {
      assert selected[..i + 1][..i] == selected[..i];
      if |r.matches| >= maxMatches {
        r := r.(truncated := true);
        StoppedForGood(selected, i + 1, k, maxMatches);
        return;
      }
      if selected[i].Fiber? {
        var one := WalkAndFilter([selected[i]], k, Some(maxMatches - |r.matches|));
        assert [selected[i]][..0] == [];
        TextsAppend(r.matches, one.matches, textOf);
        texts := texts + Texts(one.matches, textOf);
        r := Found(r.matches + one.matches, r.truncated || one.truncated);
      }
      i := i + 1;
    }
    assert selected[..|selected|] == selected;
  }

  lemma {:induction false} StoppedForGood(roots: seq<Fiber>, i: nat, k: Facts, maxMatches: int)
    requires i <= |roots| && TextSearch(roots[..i], k, maxMatches).stopped
    ensures TextSearch(roots, k, maxMatches) == TextSearch(roots[..i], k, maxMatches)
    decreases |roots|
  {
    if i == |roots| {
      assert roots[..i] == roots;
    } else {
      assert roots[..|roots| - 1][..i] == roots[..i];
      StoppedForGood(roots[..|roots| - 1], i, k, maxMatches);
    }
  }

  /** How many fibers of these roots the filter accepts. */
  function Total(roots: seq<Fiber>, k: Facts): nat { |Filter(AllIds(roots), Accepts(k))| }

  function Budget(maxMatches: int): nat { if maxMatches > 0 then maxMatches else 0 }

  /** Some root element comes after the budget is spent. */
  ghost predicate SpentBefore(roots: seq<Fiber>, k: Facts, maxMatches: int) {
    exists i :: 0 <= i < |roots| && Total(roots[..i], k) >= maxMatches
  }

  /** What one capped search over all roots would flag. */
  ghost predicate OneSearchFlags(roots: seq<Fiber>, k: Facts, maxMatches: int) {
    var ids := AllIds(roots);
    ids != [] && |Filter(ids[..|ids| - 1], Accepts(k))| >= maxMatches
  }

  ghost predicate TextOk(p: Progress, roots: seq<Fiber>, k: Facts, maxMatches: int) {
    && p.found.matches == FirstN(Filter(AllIds(roots), Accepts(k)), Budget(maxMatches))
    && (p.found.truncated <==> OneSearchFlags(roots, k, maxMatches) || SpentBefore(roots, k, maxMatches))
    && (p.stopped <==> SpentBefore(roots, k, maxMatches))
  }

  lemma {:induction false} TotalGrows(roots: seq<Fiber>, i: nat, k: Facts)
    requires i <= |roots|
    ensures Total(roots[..i], k) <= Total(roots, k)
    decreases |roots|
  {
    if i == |roots| {
      assert roots[..i] == roots;
    } else {
      var front := roots[..|roots| - 1];
      assert front[..i] == roots[..i];
      TotalGrows(front, i, k);
      FilterAppend(AllIds(front), Ids(Alone(roots[|roots| - 1])), Accepts(k));
    }
  }

  lemma SpentStep(roots: seq<Fiber>, k: Facts, maxMatches: int)
    requires roots != []
    ensures
      var front := roots[..|roots| - 1];
      SpentBefore(roots, k, maxMatches) <==> SpentBefore(front, k, maxMatches) || Total(front, k) >= maxMatches
    ensures SpentBefore(roots[..|roots| - 1], k, maxMatches) ==> Total(roots[..|roots| - 1], k) >= maxMatches
  {
    var front := roots[..|roots| - 1];
    assert forall i :: 0 <= i <= |front| ==> front[..i] == roots[..i];
    if i :| 0 <= i < |front| && Total(front[..i], k) >= maxMatches {
      assert Total(roots[..i], k) >= maxMatches;
      TotalGrows(front, i, k);
    }
    if Total(front, k) >= maxMatches {
      assert Total(roots[..|front|], k) >= maxMatches;
    }
    if i :| 0 <= i < |roots| && Total(roots[..i], k) >= maxMatches {
      assert i < |front| ==> Total(front[..i], k) >= maxMatches;
    }
  }

  /** One root searched on its own. */
  lemma SearchedAlone(f: Fiber, k: Facts, cap: nat)
    requires f.Fiber?
    ensures
      var ids := Ids(Alone(f));
      var r := Walked(f, Found([], false), k, Some(cap));
      r.matches == FirstN(Filter(ids, Accepts(k)), cap)
        && (r.truncated <==> |Filter(ids[..|ids| - 1], Accepts(k))| >= cap)
  {
    var ids := Ids(Alone(f));
    var none := Found([], false);
    WalkIsScan(f, none, k, Some(cap));
    ScanIsCapped(ids, none, k, Some(cap));
    assert none.matches + FirstN(Filter(ids, Accepts(k)), cap) == FirstN(Filter(ids, Accepts(k)), cap);
  }

  /** Room is left after the first part. */
  lemma SpareRoom(a: seq<Id>, b: seq<Id>, n: nat)
    requires |a| <= n
    ensures FirstN(a + b, n) == a + FirstN(b, n - |a|)
  {
    FirstNSplit(a, b, n);
  }

  lemma RootFlags(front: seq<Fiber>, last: Fiber, k: Facts, maxMatches: int)
    requires last.Fiber?
    ensures
      var ids := Ids(Alone(last));
      OneSearchFlags(front + [last], k, maxMatches) <==>
        Total(front, k) + |Filter(ids[..|ids| - 1], Accepts(k))| >= maxMatches
  {
    var ids := Ids(Alone(last));
    IdsWithoutLast(front, last);
    FilterAppend(AllIds(front), ids[..|ids| - 1], Accepts(k));
  }

  lemma IdsWithoutLast(front: seq<Fiber>, last: Fiber)
    requires last.Fiber?
    ensures
      var all, ids := AllIds(front + [last]), Ids(Alone(last));
      all != [] && all[..|all| - 1] == AllIds(front) + ids[..|ids| - 1]
  {
    assert (front + [last])[..|front|] == front;
  }

  /** The budget is spent: nothing more is found. */
  lemma TextSpent(p: Progress, front: seq<Fiber>, last: Fiber, k: Facts, maxMatches: int)
    requires TextOk(p, front, k, maxMatches) && Total(front, k) >= maxMatches
    ensures TextOk(Budgeted(p, last, k, maxMatches), front + [last], k, maxMatches)
  {
    var roots := front + [last];
    assert roots[..|roots| - 1] == front;
    SpentStep(roots, k, maxMatches);
    FilterAppend(AllIds(front), Ids(Alone(last)), Accepts(k));
    FirstNSplit(Filter(AllIds(front), Accepts(k)), Filter(Ids(Alone(last)), Accepts(k)), Budget(maxMatches));
  }

  lemma TextFinds(p: Progress, front: seq<Fiber>, last: Fiber, k: Facts, maxMatches: int)
    requires TextOk(p, front, k, maxMatches) && Total(front, k) < maxMatches && last.Fiber?
    ensures Budgeted(p, last, k, maxMatches).found.matches
      == FirstN(Filter(AllIds(front + [last]), Accepts(k)), Budget(maxMatches))
  {
    var a, b := Filter(AllIds(front), Accepts(k)), Filter(Ids(Alone(last)), Accepts(k));
    assert |a| < Budget(maxMatches) == maxMatches && p.found.matches == a && !p.stopped by {
      SpentStep(front + [last], k, maxMatches);
      assert (front + [last])[..|front|] == front;
    }
    assert (front + [last])[..|front|] == front;
    FilterAppend(AllIds(front), Ids(Alone(last)), Accepts(k));
    SearchedAlone(last, k, maxMatches - |a|);
    SpareRoom(a, b, maxMatches);
  }

  lemma TextFlags(p: Progress, front: seq<Fiber>, last: Fiber, k: Facts, maxMatches: int)
    requires TextOk(p, front, k, maxMatches) && Total(front, k) < maxMatches && last.Fiber?
    ensures Budgeted(p, last, k, maxMatches).found.truncated <==> OneSearchFlags(front + [last], k, maxMatches)
    ensures !Budgeted(p, last, k, maxMatches).stopped && !SpentBefore(front + [last], k, maxMatches)
  {
    var roots := front + [last];
    assert roots[..|roots| - 1] == front;
    SpentStep(roots, k, maxMatches);
    if AllIds(front) != [] {
      DropLast(AllIds(front), Accepts(k));
    }
    SearchedAlone(last, k, maxMatches - Total(front, k));
    RootFlags(front, last, k, maxMatches);
  }

  /** The budget is not spent: the root is searched with what is left. */
  lemma TextGoesOn(p: Progress, front: seq<Fiber>, last: Fiber, k: Facts, maxMatches: int)
    requires TextOk(p, front, k, maxMatches) && Total(front, k) < maxMatches && last.Fiber?
    ensures TextOk(Budgeted(p, last, k, maxMatches), front + [last], k, maxMatches)
  {
    TextFinds(p, front, last, k, maxMatches);
    TextFlags(p, front, last, k, maxMatches);
  }

  lemma TextSkips(p: Progress, front: seq<Fiber>, last: Fiber, k: Facts, maxMatches: int)
    requires TextOk(p, front, k, maxMatches) && Total(front, k) < maxMatches && last.End?
    ensures TextOk(Budgeted(p, last, k, maxMatches), front + [last], k, maxMatches)
  {
    var roots := front + [last];
    assert roots[..|roots| - 1] == front;
    SpentStep(roots, k, maxMatches);
    assert AllIds(roots) == AllIds(front);
  }

  lemma {:induction false} TextSearchIs(roots: seq<Fiber>, k: Facts, maxMatches: int)
    ensures TextOk(TextSearch(roots, k, maxMatches), roots, k, maxMatches)
  {
    if roots != [] {
      var front, last := roots[..|roots| - 1], roots[|roots| - 1];
      TextSearchIs(front, k, maxMatches);
      assert roots == front + [last];
      var p := TextSearch(front, k, maxMatches);
      if Total(front, k) >= maxMatches {
        TextSpent(p, front, last, k, maxMatches);
      } else if last.Fiber? {
        TextGoesOn(p, front, last, k, maxMatches);
      } else {
        TextSkips(p, front, last, k, maxMatches);
      }
    }
  }

  /** When every root element has a fiber, shrinking the budget root by root
   * gives what one capped search over all of them gives. */
  lemma TextSearchIsOneSearch(roots: seq<Fiber>, k: Facts, maxMatches: int)
    requires AllFibers(roots)
    ensures
      var r := TextSearch(roots, k, maxMatches).found;
      var one := WalkedAll(roots, Found([], false), k, Some(maxMatches));
      && r.matches == one.matches
      && (r.truncated <==> one.truncated)
  {
    TextSearchIs(roots, k, maxMatches);
    SearchIsCapped(roots, k, Some(maxMatches));
    if SpentBefore(roots, k, maxMatches) {
      var i :| 0 <= i < |roots| && Total(roots[..i], k) >= maxMatches;
      SpentMeansMore(roots, i, k, maxMatches);
    }
  }

  /** A fiber follows once the budget is spent before some root that has one. */
  lemma {:induction false} SpentMeansMore(roots: seq<Fiber>, i: nat, k: Facts, maxMatches: int)
    requires AllFibers(roots) && i < |roots| && Total(roots[..i], k) >= maxMatches
    ensures OneSearchFlags(roots, k, maxMatches)
  {
    var front, last := roots[..|roots| - 1], roots[|roots| - 1];
    var ids := Ids(Alone(last));
    assert front[..i] == roots[..i];
    TotalGrows(front, i, k);
    assert AllIds(roots)[..|AllIds(roots)| - 1] == AllIds(front) + ids[..|ids| - 1];
    FilterAppend(AllIds(front), ids[..|ids| - 1], Accepts(k));
  }

  /**
   * With any root elements, the matches are still those of one capped search over the fibers there
   * are. Beyond what that search flags, the flag is raised when a root element, even one without a
   * fiber, comes after the budget is spent. Unflagged, no match was dropped.
   */
  lemma NoMatchDropped(roots: seq<Fiber>, k: Facts, maxMatches: int)
    ensures
      var r := TextSearch(roots, k, maxMatches).found;
      && r.matches == FirstN(Filter(AllIds(roots), Accepts(k)), Budget(maxMatches))
      && (r.truncated <==> OneSearchFlags(roots, k, maxMatches) || SpentBefore(roots, k, maxMatches))
      && (!r.truncated ==> r.matches == Filter(AllIds(roots), Accepts(k)))
  {
    TextSearchIs(roots, k, maxMatches);
    var ids := AllIds(roots);
    if ids != [] && |Filter(ids, Accepts(k))| > Budget(maxMatches) {
      assert ids == ids[..|ids| - 1] + [ids[|ids| - 1]];
      FilterSnoc(ids[..|ids| - 1], ids[|ids| - 1], Accepts(k));
    }
  }

  // ---------------------------------------------------------------- a flag with nothing dropped

  /** Some fiber comes after the cap was reached. */
  predicate ComesAfter(ids: seq<Id>, k: Facts, cap: int) {
    exists i :: 0 <= i < |ids| && |Filter(ids[..i], Accepts(k))| >= cap
  }

  lemma {:induction false} FilterPrefix(ids: seq<Id>, i: nat, keep: Id -> bool)
    requires i <= |ids|
    ensures |Filter(ids[..i], keep)| <= |Filter(ids, keep)|
  {
    assert ids == ids[..i] + ids[i..];
    FilterAppend(ids[..i], ids[i..], keep);
  }

  /** The last fiber is the one to look at. */
  lemma ComesAfterIff(ids: seq<Id>, k: Facts, cap: int)
    ensures ComesAfter(ids, k, cap) <==> ids != [] && |Filter(ids[..|ids| - 1], Accepts(k))| >= cap
  {
    if i :| 0 <= i < |ids| && |Filter(ids[..i], Accepts(k))| >= cap {
      var front := ids[..|ids| - 1];
      assert front[..i] == ids[..i];
      FilterPrefix(front, i, Accepts(k));
    }
  }

  /** All accepted fibers are returned exactly when there are no more of them than the cap allows. */
  lemma AllReturnedIff(ids: seq<Id>, k: Facts, cap: int)
    ensures FirstN(Filter(ids, Accepts(k)), Budget(cap)) == Filter(ids, Accepts(k))
       <==> |Filter(ids, Accepts(k))| <= Budget(cap)
  {}

  /**
   * `walkAndFilter` says truncated although every match is there exactly when the accepted fibers do
   * not exceed the cap and some fiber, which then is not accepted, comes after the cap was reached.
   */
  lemma FalseAlarmIff(roots: seq<Fiber>, k: Facts, cap: int)
    requires AllFibers(roots)
    ensures
      var ids := AllIds(roots);
      var r := WalkedAll(roots, Found([], false), k, Some(cap));
      r.truncated && r.matches == Filter(ids, Accepts(k))
      <==> |Filter(ids, Accepts(k))| <= Budget(cap) && ComesAfter(ids, k, cap)
  {
    var ids := AllIds(roots);
    SearchIsCapped(roots, k, Some(cap));
    ComesAfterIff(ids, k, cap);
    AllReturnedIff(ids, k, cap);
    assert [] + FirstN(Filter(ids, Accepts(k)), Budget(cap)) == FirstN(Filter(ids, Accepts(k)), Budget(cap));
  }

  /** The same for `findByText`, where a root element after the budget was spent, with a fiber or not, is enough. */
  lemma TextFalseAlarmIff(roots: seq<Fiber>, k: Facts, maxMatches: int)
    ensures
      var ids := AllIds(roots);
      var r := TextSearch(roots, k, maxMatches).found;
      r.truncated && r.matches == Filter(ids, Accepts(k))
      <==> |Filter(ids, Accepts(k))| <= Budget(maxMatches)
           && (ComesAfter(ids, k, maxMatches) || SpentBefore(roots, k, maxMatches))
  {
    TextSearchIs(roots, k, maxMatches);
    ComesAfterIff(AllIds(roots), k, maxMatches);
    AllReturnedIff(AllIds(roots), k, maxMatches);
  }

  /** For one: a matching fiber with a child that does not match, and a cap of one. */
  lemma FalseAlarm(a: Id, b: Id, d: Data, k: Facts)
    requires Accepts(k)(a) && !Accepts(k)(b)
    ensures
      var roots := [Fiber(a, d, Fiber(b, d, End, End), End)];
      WalkedAll(roots, Found([], false), k, Some(1)) == Found([a], true) && Filter(AllIds(roots), Accepts(k)) == [a]
  {
    var roots: seq<Fiber> := [Fiber(a, d, Fiber(b, d, End, End), End)];
    assert roots[..0] == [];
    assert Ids(Alone(roots[0])) == [a, b];
    assert AllIds(roots) == [a, b];
    FilterSnoc([a], b, Accepts(k));
    FilterSnoc([], a, Accepts(k));
    assert [] + [a] == [a] && [a] + [b] == [a, b] && [a, b][..1] == [a];
    SearchIsCapped(roots, k, Some(1));
  }

  /** And for `findByText`: a single matching fiber, a cap of one, and a further element without a fiber. */
  lemma TextFalseAlarm(a: Id, d: Data, k: Facts)
    requires Accepts(k)(a)
    ensures
      var roots := [Fiber(a, d, End, End), End];
      TextSearch(roots, k, 1).found == Found([a], true) && Filter(AllIds(roots), Accepts(k)) == [a]
  {
    var roots := [Fiber(a, d, End, End), End];
    var front: seq<Fiber> := roots[..1];
    var none: seq<Fiber> := [];
    assert front == [roots[0]] && front[..0] == none;
    assert TextSearch(none, k, 1) == Progress(Found([], false), false);
    assert Walked(roots[0], Found([], false), k, Some(1)) == Found([a], false);
    assert [] + [a] == [a];
    assert TextSearch(front, k, 1) == Progress(Found([a], false), false);
    assert Ids(Alone(roots[0])) == [a];
    assert AllIds(front) == [] + [a];
    assert roots[..|roots| - 1] == front;
    assert AllIds(roots) == [a] + [];
    FilterSnoc([], a, Accepts(k));
  }

  // ---------------------------------------------------------------- who matches

  /** A host component on an element that the caller's filter accepts. */
  predicate Matching(k: Facts, ids: seq<Id>, j: nat) {
    j < |ids| && k.host(ids[j]) && k.element(ids[j]) && k.filter(ids[j])
  }

  /** How many match before it. */
  function Earlier(k: Facts, ids: seq<Id>, j: nat): nat { |set i: nat | i < j && Matching(k, ids, i)| }

  /** The matches, in order: what matches with fewer than `cap` matching before it. */
  ghost predicate AreMatches(k: Facts, ids: seq<Id>, cap: Option<int>, matches: seq<Id>, at: seq<nat>) {
    && Places(at, |ids|) && |matches| == |at|
    && (forall i :: 0 <= i < |at| ==> matches[i] == ids[at[i]])
    && forall j: nat :: j in at <==> Matching(k, ids, j) && (cap.Some? ==> Earlier(k, ids, j) < cap.value)
  }

  lemma AllMatching(k: Facts, ids: seq<Id>) returns (at: seq<nat>)
    ensures FilteredAt(ids, Accepts(k), Filter(ids, Accepts(k)), at)
    ensures forall j: nat :: j in at <==> Matching(k, ids, j)
  {
    at := FilterPlaces(ids, Accepts(k));
    forall j: nat ensures j in at <==> Matching(k, ids, j) {
      if j < |ids| {
        assert Accepts(k)(ids[j]) <==> Matching(k, ids, j);
      }
    }
  }

  lemma EarlierIs(k: Facts, ids: seq<Id>, at: seq<nat>, m: nat)
    requires Places(at, |ids|) && (forall j: nat :: j in at <==> Matching(k, ids, j)) && m < |at|
    ensures Earlier(k, ids, at[m]) == m
  {
    var before := at[..m];
    CountOfPlaces(before, |ids|);
    forall i: nat ensures i in before <==> i < at[m] && Matching(k, ids, i) {
      if i < at[m] && Matching(k, ids, i) {
        var n :| 0 <= n < |at| && at[n] == i;
        assert n < m && before[n] == i;
      }
      if i in before {
        var n :| 0 <= n < m && before[n] == i;
        assert at[n] == i && i in at;
      }
    }
    assert (set i: nat | i < at[m] && Matching(k, ids, i)) == Members(before);
  }

  lemma FirstMatches(k: Facts, ids: seq<Id>, cap: int) returns (at: seq<nat>)
    ensures AreMatches(k, ids, Some(cap), FirstN(Filter(ids, Accepts(k)), Budget(cap)), at)
  {
    var all := AllMatching(k, ids);
    at := FirstN(all, Budget(cap));
    forall j: nat ensures j in at <==> Matching(k, ids, j) && Earlier(k, ids, j) < cap {
      if j in all {
        var m :| 0 <= m < |all| && all[m] == j;
        EarlierIs(k, ids, all, m);
        InFirst(all, |ids|, Budget(cap), m);
      } else if j in at {
        assert false;
      }
    }
  }

  lemma InFirst(all: seq<nat>, n: nat, c: nat, m: nat)
    requires Places(all, n) && m < |all|
    ensures all[m] in FirstN(all, c) <==> m < c
  {
    var at := FirstN(all, c);
    if m < c {
      assert at[m] == all[m];
    } else {
      assert forall i :: 0 <= i < |at| ==> at[i] == all[i] && all[i] != all[m];
    }
  }

  /** `walkAndFilter` returns exactly the matching fibers in preorder, as many as the cap lets through. */
  lemma MatchesAre(roots: seq<Fiber>, k: Facts, cap: Option<int>) returns (at: seq<nat>)
    requires AllFibers(roots)
    ensures AreMatches(k, AllIds(roots), cap, WalkedAll(roots, Found([], false), k, cap).matches, at)
  {
    SearchIsCapped(roots, k, cap);
    var ids := AllIds(roots);
    assert [] + Filter(ids, Accepts(k)) == Filter(ids, Accepts(k));
    match cap
    case None => at := AllMatching(k, ids);
    case Some(c) =>
      assert [] + FirstN(Filter(ids, Accepts(k)), Budget(c)) == FirstN(Filter(ids, Accepts(k)), Budget(c));
      at := FirstMatches(k, ids, c);
  }

  /** So does `findByText`, with whatever roots. */
  lemma TextMatchesAre(roots: seq<Fiber>, k: Facts, maxMatches: int) returns (at: seq<nat>)
    ensures AreMatches(k, AllIds(roots), Some(maxMatches), TextSearch(roots, k, maxMatches).found.matches, at)
  {
    NoMatchDropped(roots, k, maxMatches);
    at := FirstMatches(k, AllIds(roots), maxMatches);
  }

  lemma {:induction false} EarlierCounts(k: Facts, ids: seq<Id>, n: nat)
    requires n <= |ids|
    ensures Earlier(k, ids, n) == |Filter(ids[..n], Accepts(k))|
  {
    var at := AllMatching(k, ids[..n]);
    CountOfPlaces(at, n);
    forall i: nat ensures i in at <==> i < n && Matching(k, ids, i) {
      assert i < n ==> ids[..n][i] == ids[i];
    }
    assert (set i: nat | i < n && Matching(k, ids, i)) == Members(at);
  }

  /** Some fiber comes when `cap` have matched. */
  predicate FiberFollows(k: Facts, ids: seq<Id>, cap: int) { exists j :: 0 <= j < |ids| && Earlier(k, ids, j) >= cap }

  lemma FollowsIff(k: Facts, ids: seq<Id>, cap: int)
    ensures FiberFollows(k, ids, cap) <==> ComesAfter(ids, k, cap)
  {
    forall j: nat | j < |ids| ensures Earlier(k, ids, j) == |Filter(ids[..j], Accepts(k))| {
      EarlierCounts(k, ids, j);
    }
  }

  /** `walkAndFilter` says truncated exactly when there is a cap and a fiber follows that many matches. */
  lemma TruncatedIff(roots: seq<Fiber>, k: Facts, cap: Option<int>)
    requires AllFibers(roots)
    ensures WalkedAll(roots, Found([], false), k, cap).truncated
       <==> cap.Some? && FiberFollows(k, AllIds(roots), cap.value)
  {
    SearchIsCapped(roots, k, cap);
    if cap.Some? {
      FollowsIff(k, AllIds(roots), cap.value);
      ComesAfterIff(AllIds(roots), k, cap.value);
    }
  }

  /** `findByText` does when a fiber, or a root element with or without one, follows that many matches. */
  lemma TextTruncatedIff(roots: seq<Fiber>, k: Facts, maxMatches: int)
    ensures TextSearch(roots, k, maxMatches).found.truncated
       <==> || FiberFollows(k, AllIds(roots), maxMatches)
            || exists i :: 0 <= i < |roots| && MatchesIn(roots[..i], k) >= maxMatches
  {
    TextSearchIs(roots, k, maxMatches);
    FollowsIff(k, AllIds(roots), maxMatches);
    ComesAfterIff(AllIds(roots), k, maxMatches);
    forall i: nat | i < |roots| ensures MatchesIn(roots[..i], k) == Total(roots[..i], k) {
      var ids := AllIds(roots[..i]);
      EarlierCounts(k, ids, |ids|);
      assert ids[..|ids|] == ids;
    }
  }

  /** How many fibers of these roots match. */
  function MatchesIn(roots: seq<Fiber>, k: Facts): nat { Earlier(k, AllIds(roots), |AllIds(roots)|) }
}
