/**
 * The composed tree: documents, elements and shadow roots, with the walks of
 * captures/walk_shadow.ts over it.
 */
module ComposedTree {
  import opened Prelude

  type Id = nat

  // ---------------------------------------------------------------- chains of parents

  /** Every parent ranks below its child, and no rank exceeds the bound. */
  ghost predicate Ranks(up: map<Id, Id>, rank: Id -> nat, bound: nat) {
    && (forall n {:trigger up[n]} :: n in up ==> rank(up[n]) < rank(n))
    && (forall n :: rank(n) <= bound)
  }

  ghost predicate Acyclic(up: map<Id, Id>) { exists rank: Id -> nat, bound: nat :: Ranks(up, rank, bound) }

  datatype Ranking = Ranking(rank: Id -> nat, bound: nat)

  ghost function RankingOf(up: map<Id, Id>): (r: Ranking)
    requires Acyclic(up)
    ensures Ranks(up, r.rank, r.bound)
  {
    var rank: Id -> nat, bound: nat :| Ranks(up, rank, bound);
    Ranking(rank, bound)
  }

  ghost function Rank(up: map<Id, Id>, n: Id): nat
    requires Acyclic(up)
  {
    RankingOf(up).rank(n)
  }

  /** How far below the roots a node can still reach: the measure of walks downwards. */
  ghost function Room(up: map<Id, Id>, n: Id): nat
    requires Acyclic(up)
  {
    RankingOf(up).bound - RankingOf(up).rank(n)
  }

  /** A node and everything above it, nearest first. */
  ghost function Chain(up: map<Id, Id>, n: Id): (c: seq<Id>)
    requires Acyclic(up)
    ensures |c| >= 1 && c[0] == n
    decreases Rank(up, n)
  {
    if n in up then [n] + Chain(up, up[n]) else [n]
  }

  /** `a` is `n` itself or above it. */
  ghost predicate Above(up: map<Id, Id>, a: Id, n: Id)
    requires Acyclic(up)
  {
    a in Chain(up, n)
  }

  lemma AboveStep(up: map<Id, Id>, a: Id, n: Id)
    requires Acyclic(up)
    ensures Above(up, a, n) <==> a == n || (n in up && Above(up, a, up[n]))
  {}

  lemma {:induction false} AboveRank(up: map<Id, Id>, a: Id, n: Id)
    requires Acyclic(up) && Above(up, a, n)
    ensures Rank(up, a) <= Rank(up, n)
    ensures a != n ==> Rank(up, a) < Rank(up, n)
    decreases Rank(up, n)
  {
    AboveStep(up, a, n);
    if a != n {
      AboveRank(up, a, up[n]);
    }
  }

  lemma {:induction false} AboveTransitive(up: map<Id, Id>, a: Id, b: Id, n: Id)
    requires Acyclic(up) && Above(up, a, b) && Above(up, b, n)
    ensures Above(up, a, n)
    decreases Rank(up, n)
  {
    AboveStep(up, b, n);
    AboveStep(up, a, n);
    if b != n {
      AboveTransitive(up, a, b, up[n]);
    }
  }

  /** What is above a node is linearly ordered. */
  lemma {:induction false} AboveLinear(up: map<Id, Id>, a: Id, b: Id, n: Id)
    requires Acyclic(up) && Above(up, a, n) && Above(up, b, n)
    ensures Above(up, a, b) || Above(up, b, a)
    decreases Rank(up, n)
  {
    AboveStep(up, a, n);
    AboveStep(up, b, n);
    if a != n && b != n {
      AboveLinear(up, a, b, up[n]);
    }
  }

  /** The node just below `a` on the way down to `n`. */
  lemma {:induction false} JustBelow(up: map<Id, Id>, a: Id, n: Id) returns (m: Id)
    requires Acyclic(up) && Above(up, a, n) && a != n
    ensures Above(up, m, n) && m in up && up[m] == a
    decreases Rank(up, n)
  {
    AboveStep(up, a, n);
    if up[n] == a {
      m := n;
      AboveStep(up, n, n);
    } else {
      m := JustBelow(up, a, up[n]);
      AboveStep(up, m, n);
    }
  }

  /** There is only one such node. */
  lemma JustBelowUnique(up: map<Id, Id>, a: Id, n: Id, m: Id, m': Id)
    requires Acyclic(up) && m in up && m' in up && up[m] == a && up[m'] == a
    requires Above(up, m, n) && Above(up, m', n)
    ensures m == m'
  {
    AboveLinear(up, m, m', n);
    AboveStep(up, m, m');
    AboveStep(up, m', m);
    if m != m' {
      if Above(up, m, m') {
        AboveRank(up, m, a);
      } else {
        AboveRank(up, m', a);
      }
    }
  }

  /** Links changed at `n` alone do not matter to a chain without `n`. */
  lemma {:induction false} ChainElsewhere(up: map<Id, Id>, up': map<Id, Id>, n: Id, m: Id)
    requires Acyclic(up) && Acyclic(up')
    requires forall k :: k != n ==> (k in up <==> k in up') && (k in up ==> up[k] == up'[k])
    requires !Above(up', n, m)
    ensures Chain(up, m) == Chain(up', m)
    decreases Rank(up', m)
  {
    AboveStep(up', n, m);
    if m in up' {
      ChainElsewhere(up, up', n, up'[m]);
    }
  }

  lemma AcyclicSub(up: map<Id, Id>, sub: map<Id, Id>)
    requires Acyclic(up) && forall n :: n in sub ==> n in up && up[n] == sub[n]
    ensures Acyclic(sub)
  {
    var r := RankingOf(up);
    assert forall n {:trigger sub[n]} :: n in sub ==> r.rank(sub[n]) < r.rank(n) by {
      forall n | n in sub ensures r.rank(sub[n]) < r.rank(n) {
        assert up[n] == sub[n];
      }
    }
    assert Ranks(sub, r.rank, r.bound);
  }

  /** Fewer links, shorter chains. */
  lemma {:induction false} AboveSub(up: map<Id, Id>, sub: map<Id, Id>, a: Id, n: Id)
    requires Acyclic(up) && Acyclic(sub) && forall n :: n in sub ==> n in up && up[n] == sub[n]
    requires Above(sub, a, n)
    ensures Above(up, a, n)
    decreases Rank(sub, n)
  {
    AboveStep(sub, a, n);
    AboveStep(up, a, n);
    if a != n {
      AboveSub(up, sub, a, sub[n]);
    }
  }

  // ---------------------------------------------------------------- the document

  /**
   * The nodes that can hold others: `parent` is `parentNode`, `host` leads from a shadow root to
   * its host, `kids` are the element children in order (`pos` is the place of a child among them),
   * and `shadow` is what `shadowRoot` shows: the open roots only.
   */
  datatype Dom = Dom(parent: map<Id, Id>, host: map<Id, Id>, elements: set<Id>, open: set<Id>,
                     kids: map<Id, seq<Id>>, pos: map<Id, nat>, shadow: map<Id, Id>)

  function ComposedParentNode(d: Dom, n: Id): Option<Id> {
    if n in d.parent then Some(d.parent[n])
    else if n in d.host then Some(d.host[n])
    else None
  }

  /** The links `composedParentNode` follows. */
  function Up(d: Dom): map<Id, Id> { d.host + d.parent }

  lemma ComposedParentIsUp(d: Dom, n: Id)
    ensures ComposedParentNode(d, n) == if n in Up(d) then Some(Up(d)[n]) else None
  {}

  /** The links walks downwards can follow back: those through closed shadow roots are missing. */
  function Visible(d: Dom): map<Id, Id>
  {
    (map s | s in d.host && s in d.open :: d.host[s]) + d.parent
  }

  /** Parent and child links agree, each open root hangs off its host, and nothing is above itself. */
  ghost predicate WellFormed(d: Dom) {
    && d.parent.Keys !! d.host.Keys
    && d.elements !! d.host.Keys
    && d.open <= d.host.Keys
    && Acyclic(Up(d))
    && d.pos.Keys == d.parent.Keys
    && (forall c {:trigger d.parent[c]} :: c in d.parent ==>
          d.parent[c] in d.kids && d.pos[c] < |d.kids[d.parent[c]]| && d.kids[d.parent[c]][d.pos[c]] == c)
    && (forall p, i {:trigger d.kids[p][i]} :: p in d.kids && 0 <= i < |d.kids[p]| ==>
          d.kids[p][i] in d.parent && d.parent[d.kids[p][i]] == p && d.pos[d.kids[p][i]] == i)
    && (forall e {:trigger d.shadow[e]} :: e in d.shadow ==>
          e in d.elements && d.shadow[e] in d.open && d.host[d.shadow[e]] == e)
    && (forall s {:trigger s in d.open} :: s in d.open ==> d.host[s] in d.shadow && d.shadow[d.host[s]] == s)
  }

  function EmptyDom(): (d: Dom)
    ensures WellFormed(d)
  {
    assert Ranks(map[], (n: Id) => 0, 0);
    var d := Dom(map[], map[], {}, {}, map[], map[], map[]);
    assert Up(d) == map[];
    d
  }

  type Document = d: Dom | WellFormed(d) witness EmptyDom()

  lemma VisibleAcyclic(d: Document)
    ensures Acyclic(Visible(d))
    ensures forall n :: n in Visible(d) ==> n in Up(d) && Up(d)[n] == Visible(d)[n]
  {
    AcyclicSub(Up(d), Visible(d));
  }

  // ---------------------------------------------------------------- walking up

  /** The first element strictly above `start` that satisfies the predicate. */
  ghost function Enclosing(d: Document, start: Id, isHost: Id -> bool): Option<Id>
    decreases Rank(Up(d), start)
  {
    if start !in Up(d) then None
    else
      var p := Up(d)[start];
      if p in d.elements && isHost(p) then Some(p) else Enclosing(d, p, isHost)
  }

  /** The elements a predicate accepts without throwing. */
  function Accepted(isHost: Id -> bool, throws: Id -> bool): Id -> bool { (e: Id) => !throws(e) && isHost(e) }

  /** A predicate that throws is taken for no match, and the walk goes on. */
  method FindEnclosingHost(d: Document, start: Id, isHost: Id -> bool, throws: Id -> bool) returns (r: Option<Id>)
    ensures r == Enclosing(d, start, Accepted(isHost, throws))
  {
    ghost var accepted := Accepted(isHost, throws);
    ghost var below := start;
    ComposedParentIsUp(d, start);
    var node := ComposedParentNode(d, start);
    while node.Some?
      invariant node == if below in Up(d) then Some(Up(d)[below]) else None
      invariant Enclosing(d, start, accepted) == Enclosing(d, below, accepted)
      decreases Rank(Up(d), below)
    {
      if node.value in d.elements && !throws(node.value) && isHost(node.value) {
        return node;
      }
      below := node.value;
      ComposedParentIsUp(d, node.value);
      node := ComposedParentNode(d, node.value);
    }
    return None;
  }

  function Never(): Id -> bool { (e: Id) => false }

  /** Predicates that answer alike find the same host. */
  lemma {:induction false} EnclosingSame(d: Document, start: Id, isHost: Id -> bool, isHost': Id -> bool)
    requires forall e :: isHost(e) <==> isHost'(e)
    ensures Enclosing(d, start, isHost) == Enclosing(d, start, isHost')
    decreases Rank(Up(d), start)
  {
    if start in Up(d) {
      EnclosingSame(d, Up(d)[start], isHost, isHost');
    }
  }

  /** What was found is the nearest: above `start`, a host, and below every other host above `start`. */
  lemma {:induction false} EnclosingIsNearest(d: Document, start: Id, isHost: Id -> bool)
    ensures
      var r := Enclosing(d, start, isHost);
      match r
      case None => forall a :: Above(Up(d), a, start) && a != start ==> !(a in d.elements && isHost(a))
      case Some(h) =>
        && h != start && Above(Up(d), h, start) && h in d.elements && isHost(h)
        && forall a :: Above(Up(d), a, start) && a != start && a in d.elements && isHost(a) ==> Above(Up(d), a, h)
    decreases Rank(Up(d), start)
  {
    var up := Up(d);
    if start in up {
      var p := up[start];
      AboveStep(up, p, p);
      AboveStep(up, p, start);
      forall a | Above(up, a, start) && a != start
        ensures Above(up, a, p)
      {
        AboveStep(up, a, start);
      }
      if !(p in d.elements && isHost(p)) {
        EnclosingIsNearest(d, p, isHost);
        var r := Enclosing(d, p, isHost);
        if r.Some? {
          AboveStep(up, r.value, start);
          AboveRank(up, r.value, p);
        }
      }
    } else {
      forall a | Above(up, a, start)
        ensures a == start
      {
        AboveStep(up, a, start);
      }
    }
  }

  /** `composedContains`: strictly above, shadow boundaries included. */
  ghost predicate Contains(d: Document, ancestor: Id, descendant: Id)
  {
    ancestor != descendant && ancestor in d.elements && Above(Up(d), ancestor, descendant)
  }

  method ComposedContains(d: Document, ancestor: Id, descendant: Id) returns (b: bool)
    ensures b == Contains(d, ancestor, descendant)
  {
    var isIt := (e: Id) => e == ancestor;
    var found := FindEnclosingHost(d, descendant, isIt, Never());
    EnclosingSame(d, descendant, isIt, Accepted(isIt, Never()));
    EnclosingIsNearest(d, descendant, isIt);
    b := found.Some?;
  }

  // ---------------------------------------------------------------- walking down

  /** The open shadow roots found below `n`, in the order they are pushed. */
  ghost function Discover(d: Document, n: Id): seq<Id>
    decreases Room(Up(d), n), 1, 0
  {
    (if n in d.shadow then
       assert Up(d)[d.shadow[n]] == n;
       [d.shadow[n]] + Discover(d, d.shadow[n])
     else [])
    + (if n in d.kids then DiscoverKids(d, n, 0) else [])
  }

  /** The same, below the children of `n` from position `i` on. */
  ghost function DiscoverKids(d: Document, n: Id, i: nat): seq<Id>
    requires n in d.kids && i <= |d.kids[n]|
    decreases Room(Up(d), n), 0, |d.kids[n]| - i
  {
    if i == |d.kids[n]| then []
    else
      assert Up(d)[d.kids[n][i]] == n;
      Discover(d, d.kids[n][i]) + DiscoverKids(d, n, i + 1)
  }

  lemma Assoc(a: seq<Id>, b: seq<Id>, c: seq<Id>)
    ensures a + (b + c) == (a + b) + c
    ensures a + [] == a
  {}

  /** `walkForShadows` with its shared output array. */
  method WalkForShadows(d: Document, node: Id, before: seq<Id>) returns (out: seq<Id>)
    ensures out == before + Discover(d, node)
    decreases Room(Up(d), node)
  {
    out := before;
    ghost var inShadow: seq<Id> := [];
    if node in d.elements {
      if node in d.shadow {
        var shadow := d.shadow[node];
        assert Up(d)[shadow] == node;
        inShadow := [shadow] + Discover(d, shadow);
        Assoc(before, [shadow], Discover(d, shadow));
        out := out + [shadow];
        out := WalkForShadows(d, shadow, out);
      }
    }
    Assoc(before, inShadow, []);
    if node !in d.kids {
      return;
    }
    var children := d.kids[node];
    ghost var start := out;
    ghost var inKids := DiscoverKids(d, node, 0);
    Assoc(before, inShadow, inKids);
    for i := 0 to |children|
      invariant out + DiscoverKids(d, node, i) == start + inKids
    {
      assert Up(d)[children[i]] == node;
      Assoc(out, Discover(d, children[i]), DiscoverKids(d, node, i + 1));
      out := WalkForShadows(d, children[i], out);
    }
    Assoc(out, [], []);
  }

  method DiscoverShadowRoots(d: Document, node: Id) returns (out: seq<Id>)
    ensures out == Discover(d, node)
  {
    out := WalkForShadows(d, node, []);
  }

  ghost predicate InChild(d: Document, n: Id, j: int, s: Id) {
    n in d.kids && 0 <= j < |d.kids[n]| && s in Discover(d, d.kids[n][j])
  }

  lemma DiscoverKidsStep(d: Document, n: Id, i: nat, s: Id)
    requires n in d.kids && i < |d.kids[n]|
    ensures s in DiscoverKids(d, n, i) <==> InChild(d, n, i, s) || s in DiscoverKids(d, n, i + 1)
  {
    var first, rest := Discover(d, d.kids[n][i]), DiscoverKids(d, n, i + 1);
    assert s in first + rest <==> s in first || s in rest;
  }

  lemma {:induction false} DiscoverKidsMember(d: Document, n: Id, i: nat, s: Id)
    requires n in d.kids && i <= |d.kids[n]|
    ensures s in DiscoverKids(d, n, i) <==> exists j :: i <= j && InChild(d, n, j, s)
    decreases |d.kids[n]| - i
  {
    if i < |d.kids[n]| {
      DiscoverKidsStep(d, n, i, s);
      DiscoverKidsMember(d, n, i + 1, s);
    }
  }

  /** What is discovered is the node's own shadow root, or lies below that, or below a child. */
  lemma DiscoverSplit(d: Document, n: Id, s: Id)
    ensures s in Discover(d, n)
       <==> (n in d.shadow && (s == d.shadow[n] || s in Discover(d, d.shadow[n]))) || exists j :: InChild(d, n, j, s)
  {
    var kids: seq<Id> := if n in d.kids then DiscoverKids(d, n, 0) else [];
    if n in d.kids {
      DiscoverKidsMember(d, n, 0, s);
    }
    assert s in kids <==> exists j :: InChild(d, n, j, s);
    if n in d.shadow {
      var r: seq<Id> := [d.shadow[n]] + Discover(d, d.shadow[n]);
      assert s in r <==> s == d.shadow[n] || s in Discover(d, d.shadow[n]);
      assert s in r + kids <==> s in r || s in kids;
    } else {
      assert [] + kids == kids;
    }
  }

  lemma ChildIsBelow(d: Document, n: Id, j: int)
    requires n in d.kids && 0 <= j < |d.kids[n]|
    ensures var m := d.kids[n][j]; m in Visible(d) && Visible(d)[m] == n && m in Up(d) && Up(d)[m] == n
  {}

  /** The node just below `n` through which `s` was discovered. */
  lemma DiscoveredVia(d: Document, n: Id, s: Id) returns (m: Id)
    requires s in Discover(d, n)
    ensures m in Visible(d) && Visible(d)[m] == n && m in Up(d) && Up(d)[m] == n
    ensures (s == m && s in d.open) || s in Discover(d, m)
  {
    DiscoverSplit(d, n, s);
    if n in d.shadow && (s == d.shadow[n] || s in Discover(d, d.shadow[n])) {
      m := d.shadow[n];
    } else {
      var j :| InChild(d, n, j, s);
      m := d.kids[n][j];
      ChildIsBelow(d, n, j);
    }
  }

  lemma {:induction false} DiscoveredIsBelow(d: Document, n: Id, s: Id)
    requires s in Discover(d, n)
    ensures Acyclic(Visible(d)) && s in d.open && s != n && Above(Visible(d), n, s)
    decreases Room(Up(d), n)
  {
    VisibleAcyclic(d);
    var visible := Visible(d);
    var m := DiscoveredVia(d, n, s);
    AboveStep(visible, m, m);
    if s in Discover(d, m) {
      DiscoveredIsBelow(d, m, s);
    }
    AboveStep(visible, n, n);
    AboveStep(visible, n, m);
    AboveTransitive(visible, n, m, s);
    AboveRank(visible, m, s);
    assert Rank(visible, n) < Rank(visible, m);
  }

  lemma {:induction false} BelowIsDiscovered(d: Document, n: Id, s: Id)
    requires Acyclic(Visible(d)) && s in d.open && s != n && Above(Visible(d), n, s)
    ensures s in Discover(d, n)
    decreases Room(Up(d), n)
  {
    var visible := Visible(d);
    var m := JustBelow(visible, n, s);
    assert Up(d)[m] == n;
    DiscoverSplit(d, n, s);
    if m in d.parent {
      assert m != s;
      BelowIsDiscovered(d, m, s);
      assert InChild(d, n, d.pos[m], s);
    } else {
      assert m in d.open && d.shadow[n] == m;
      if m != s {
        BelowIsDiscovered(d, m, s);
      }
    }
  }

  /** Discovery finds exactly the open shadow roots whose chain, free of closed roots, passes through the node. */
  lemma DiscoverIff(d: Document, n: Id, s: Id)
    ensures Acyclic(Visible(d))
    ensures s in Discover(d, n) <==> s in d.open && s != n && Above(Visible(d), n, s)
  {
    VisibleAcyclic(d);
    if s in Discover(d, n) {
      DiscoveredIsBelow(d, n, s);
    }
    if s in d.open && s != n && Above(Visible(d), n, s) {
      BelowIsDiscovered(d, n, s);
    }
  }

  /** Without closed shadow roots that is the chain `composedParentNode` walks. */
  lemma DiscoverWithoutClosed(d: Document, n: Id, s: Id)
    requires d.open == d.host.Keys
    ensures s in Discover(d, n) <==> s in d.host && s != n && Above(Up(d), n, s)
  {
    assert Visible(d) == Up(d);
    DiscoverIff(d, n, s);
  }

  lemma DistinctAppend(a: seq<Id>, b: seq<Id>)
    requires Distinct(a) && Distinct(b) && forall x :: x in a ==> x !in b
    ensures Distinct(a + b)
  {
    forall i, j | 0 <= i < j < |a + b|
      ensures (a + b)[i] != (a + b)[j]
    {
      if i < |a| <= j {
        assert a[i] in a && (a + b)[j] in b;
      }
    }
  }

  /** Nothing is both in or under the shadow root of a node and under one of its children. */
  lemma NotInBoth(d: Document, n: Id, x: Id)
    requires n in d.shadow && n in d.kids && x in [d.shadow[n]] + Discover(d, d.shadow[n])
    requires Up(d)[d.shadow[n]] == n
    ensures x !in DiscoverKids(d, n, 0)
  {
    var s := d.shadow[n];
    if x in DiscoverKids(d, n, 0) {
      DiscoverKidsMember(d, n, 0, x);
      var j :| 0 <= j && InChild(d, n, j, x);
      ChildIsBelow(d, n, j);
      DiscoveredIsBelow(d, d.kids[n][j], x);
      AboveStep(Visible(d), s, s);
      DiscoverIff(d, s, x);
      JustBelowUnique(Visible(d), n, x, s, d.kids[n][j]);
    }
  }

  /** Nothing is discovered twice. */
  lemma {:induction false} DiscoverDistinct(d: Document, n: Id)
    ensures Distinct(Discover(d, n))
    decreases Room(Up(d), n), 1, 0
  {
    var kids := if n in d.kids then DiscoverKids(d, n, 0) else [];
    if n in d.kids {
      DiscoverKidsDistinct(d, n, 0);
    }
    if n in d.shadow {
      var s := d.shadow[n];
      assert Up(d)[s] == n;
      DiscoverDistinct(d, s);
      DiscoverIff(d, s, s);
      DistinctAppend([s], Discover(d, s));
      forall x | x in [s] + Discover(d, s)
        ensures x !in kids
      {
        if x in kids {
          NotInBoth(d, n, x);
        }
      }
      DistinctAppend([s] + Discover(d, s), kids);
    }
  }

  lemma {:induction false} DiscoverKidsDistinct(d: Document, n: Id, i: nat)
    requires n in d.kids && i <= |d.kids[n]|
    ensures Distinct(DiscoverKids(d, n, i))
    decreases Room(Up(d), n), 0, |d.kids[n]| - i
  {
    if i < |d.kids[n]| {
      var c := d.kids[n][i];
      assert Up(d)[c] == n;
      DiscoverDistinct(d, c);
      DiscoverKidsDistinct(d, n, i + 1);
      forall x | x in Discover(d, c)
        ensures x !in DiscoverKids(d, n, i + 1)
      {
        if x in DiscoverKids(d, n, i + 1) {
          DiscoverKidsMember(d, n, i + 1, x);
          var j :| i + 1 <= j && InChild(d, n, j, x);
          ChildIsBelow(d, n, j);
          DiscoveredIsBelow(d, c, x);
          DiscoveredIsBelow(d, d.kids[n][j], x);
          JustBelowUnique(Visible(d), n, x, c, d.kids[n][j]);
        }
      }
      DistinctAppend(Discover(d, c), DiscoverKids(d, n, i + 1));
    }
  }
}
