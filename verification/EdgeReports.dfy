/** What the layout checks report (layout_measure/checks_box.ts), spelled out on rects, styles and ancestors. */
module EdgeReports {
  import opened Prelude
  import opened ComposedTree
  import opened Elements
  import opened EdgeContact

  // ---------------------------------------------------------------- off screen

  /** Strictly above the element and not beyond the root. */
  ghost predicate Within(p: Page, a: Id, el: Id, root: Id) {
    Over(p, a, el) && !(Over(p, a, root) && Above(p.up, root, el))
  }

  /** More than one pixel past an edge of the viewport, unless it is parked
   * outside, hidden, exempt or inside a scroller. */
  ghost predicate OffScreen(p: Page, k: Looks, el: Id, root: Id) {
    var r := k.rect(el);
    && k.visible(el) && !k.exempt(el) && !k.ariaHidden(el)
    && (r.x < -1.0 || r.x + r.width > k.viewportWidth + 1.0)
    && (k.outOfFlow(el) ==> r.x + r.width > 0.0 && r.x < k.viewportWidth)
    && !exists a :: Within(p, a, el, root) && a != root && k.scrollerX(a)
  }

  lemma OffScreenIff(p: Page, k: Looks, el: Id, root: Id)
    ensures Offending(p, k, el, root) <==> OffScreen(p, k, el, root)
  {
    forall a ensures a in AncestorsWithin(p, el, root) <==> Within(p, a, el, root) {
      AncestorsWithinIff(p, el, root, a);
    }
    if a :| a in AncestorsWithin(p, el, root) && a != root && k.scrollerX(a) {
      assert Within(p, a, el, root);
    }
    if a :| Within(p, a, el, root) && a != root && k.scrollerX(a) {
      assert a in AncestorsWithin(p, el, root);
    }
  }

  /** Reported exactly: the elements off screen with none off screen above them. */
  lemma ReportedIff(p: Page, k: Looks, elements: seq<Id>, root: Id, el: Id)
    ensures el in OffscreenReports(p, k, elements, root)
       <==> && el in elements && OffScreen(p, k, el, root)
            && !exists a :: Within(p, a, el, root) && a in elements && OffScreen(p, k, a, root)
  {
    var hits := Hits(p, k, elements, root);
    HitsIff(p, k, elements, root);
    OutermostIff(p, hits, hits, root);
    OffScreenIff(p, k, el, root);
    forall a ensures a in AncestorsWithin(p, el, root) <==> Within(p, a, el, root) {
      AncestorsWithinIff(p, el, root, a);
    }
    forall a ensures a in hits <==> a in elements && OffScreen(p, k, a, root) {
      OffScreenIff(p, k, a, root);
    }
    if a :| Within(p, a, el, root) && a in elements && OffScreen(p, k, a, root) {
      assert a in AncestorsWithin(p, el, root) && a in hits;
    }
  }

  /** For a rect that is one and a viewport there is: some point lies more than a pixel outside, none lies inside. */
  lemma InPoints(k: Looks, r: Rect)
    requires r.width >= 0.0 && k.viewportWidth > 0.0
    ensures CrossesX(k, r) <==> exists x :: Spans(r, x) && (x < -1.0 || x > k.viewportWidth + 1.0)
    ensures FullyOutsideX(k, r) <==> !exists x :: Spans(r, x) && 0.0 < x < k.viewportWidth
  {
    assert Spans(r, r.x) && Spans(r, r.x + r.width);
    if !FullyOutsideX(k, r) {
      var x := if r.x > 0.0 then r.x
               else if r.x + r.width < k.viewportWidth then r.x + r.width else k.viewportWidth / 2.0;
      assert Spans(r, x);
    }
  }

  predicate Spans(r: Rect, x: real) { r.x <= x <= r.x + r.width }

  // ---------------------------------------------------------------- edges touched

  /** The axis an edge is crossed on. */
  predicate Clips(k: Looks, el: Id, side: Side) {
    if side == Left || side == Right then k.clips(el, X) else k.clips(el, Y)
  }

  predicate Shown(k: Looks, el: Id) { k.visible(el) && !k.exempt(el) && !k.outOfFlow(el) }

  /**
   * The leaf faces that side of the box: a control, or text without an edge of its own there, inside the box
   * and no nearer one with such an edge, with nothing between the two that is left out, a control or clips.
   */
  ghost predicate Faces(p: Page, k: Looks, box: Id, leaf: Id, side: Side) {
    && Over(p, box, leaf) && k.edge(box, side)
    && (forall a :: Over(p, a, leaf) && k.edge(a, side) ==> Above(p.up, a, box))
    && Shown(k, leaf) && (k.control(leaf) || (k.ownText(leaf) && !k.edge(leaf, side)))
    && forall m :: Over(p, box, m) && Over(p, m, leaf) ==> Shown(k, m) && !k.control(m) && !Clips(k, m, side)
  }

  lemma FacesIff(p: Page, k: Looks, box: Id, leaf: Id, side: Side)
    ensures Faces(p, k, box, leaf, side) <==> Attributed(p, k, box, leaf, side)
  {}

  /** Too close, in whole pixels: across the edge; a control with an edge of
   * its own touching it; text nearer than `min` sideways. */
  predicate TooClose(side: Side, m: Measure, min: real) {
    || m.px < -0.5
    || (m.kind == Edged && m.px < 0.5)
    || (m.kind == Textual && (side == Left || side == Right) && m.px < WholeFrom(min) as real - 0.5)
  }

  /** The least whole number that is not below `min`. */
  function WholeFrom(min: real): (n: int)
    ensures n as real >= min > n as real - 1.0
  {
    -((-min).Floor)
  }

  lemma TooCloseIff(i: Inset, min: real)
    ensures Violates(i, min) <==> TooClose(i.side, Measure(i.px, i.kind), min)
  {
    var n, c := Round(i.px), WholeFrom(min);
    assert n as real < min <==> n < c;
    assert n < c <==> i.px < c as real - 0.5;
  }

  /** A box that is checked. */
  predicate Checked(k: Looks, el: Id, root: Id) {
    el != root && !k.pageLevel(el) && k.visible(el) && !k.exempt(el) && !k.ariaHidden(el)
  }

  /** This leaf is too close to this side of the box, by this measure. */
  ghost predicate Touches(p: Page, k: Looks, ms: Measures, min: real, box: Id, leaf: Id, side: Side, m: Measure) {
    Faces(p, k, box, leaf, side) && !Clips(k, box, side) && ms(box, leaf, side) == Some(m) && TooClose(side, m, min)
  }

  lemma TouchesIff(p: Page, k: Looks, ms: Measures, min: real, box: Id, leaf: Id, side: Side, m: Measure)
    ensures Touches(p, k, ms, min, box, leaf, side, m)
       <==> var i := Inset(side, m.px, leaf, m.kind); IsInset(p, k, box, i, ms) && Violates(i, min)
  {
    FacesIff(p, k, box, leaf, side);
    AttributedIff(p, k, box, leaf, side);
    TooCloseIff(Inset(side, m.px, leaf, m.kind), min);
  }

  /** Every finding names a checked box and what touches it most. */
  lemma FindingTouches(p: Page, k: Looks, elements: seq<Id>, root: Id, ms: Measures, min: real, f: Finding)
    requires f in Findings(p, k, elements, root, ms, min)
    ensures f.box in elements && Checked(k, f.box, root)
    ensures Touches(p, k, ms, min, f.box, f.worst.leaf, f.worst.side, Measure(f.worst.px, f.worst.kind))
    ensures forall leaf, side, m :: Touches(p, k, ms, min, f.box, leaf, side, m) ==> f.worst.px <= m.px
  {
    FindingsIff(p, k, elements, root, ms, min);
    assert IsBox(k, f.box, root) && IsWorst(p, k, f, ms, min);
    TouchesIff(p, k, ms, min, f.box, f.worst.leaf, f.worst.side, Measure(f.worst.px, f.worst.kind));
    assert Inset(f.worst.side, f.worst.px, f.worst.leaf, f.worst.kind) == f.worst;
    forall leaf, side, m | Touches(p, k, ms, min, f.box, leaf, side, m) ensures f.worst.px <= m.px {
      TouchesIff(p, k, ms, min, f.box, leaf, side, m);
      var i := Inset(side, m.px, leaf, m.kind);
      assert IsInset(p, k, f.box, i, ms) && Violates(i, min);
    }
  }

  /** And every checked box that something touches has a finding. */
  lemma TouchedIsFound(p: Page, k: Looks, elements: seq<Id>, root: Id, ms: Measures, min: real, box: Id, leaf: Id,
    side: Side, m: Measure)
    requires box in elements && Checked(k, box, root) && Touches(p, k, ms, min, box, leaf, side, m)
    ensures exists f :: f in Findings(p, k, elements, root, ms, min) && f.box == box
  {
    FindingsIff(p, k, elements, root, ms, min);
    TouchesIff(p, k, ms, min, box, leaf, side, m);
    assert k.edge(box, side);
    assert IsBox(k, box, root);
    assert IsInset(p, k, box, Inset(side, m.px, leaf, m.kind), ms);
  }

  // ---------------------------------------------------------------- in which order

  /** In document order: an ancestor before what is below it, an earlier sibling and all below before a later one. */
  ghost predicate InOrder(p: Page, a: Id, b: Id) {
    Over(p, a, b) || exists c, c' :: Siblings(p, c, c') && Above(p.up, c, a) && Above(p.up, c', b)
  }

  predicate Siblings(p: Page, c: Id, c': Id) {
    c in p.up && c' in p.up && p.up[c] == p.up[c'] && p.pos[c] < p.pos[c']
  }

  ghost predicate Ordered(p: Page, leaves: seq<Id>) {
    forall i, j :: 0 <= i < j < |leaves| ==> InOrder(p, leaves[i], leaves[j])
  }

  lemma OrderedConcat(p: Page, a: seq<Id>, b: seq<Id>)
    requires Ordered(p, a) && Ordered(p, b) && forall x, y :: x in a && y in b ==> InOrder(p, x, y)
    ensures Ordered(p, a + b)
  {
    forall i, j | 0 <= i < j < |a + b| ensures InOrder(p, (a + b)[i], (a + b)[j]) {
      if i < |a| <= j {
        assert a[i] in a && b[j - |a|] in b;
      }
    }
  }

  /** The leaves of a side come in document order. */
  lemma {:induction false} LeavesInOrder(p: Page, k: Looks, box: Id, side: Side)
    ensures Ordered(p, SideLeaves(p, k, box, side))
    decreases Room(p.up, box), 1, 0
  {
    if box in p.kids {
      ChildrenInOrder(p, k, box, 0, side);
    }
  }

  lemma {:induction false} ChildrenInOrder(p: Page, k: Looks, parent: Id, i: nat, side: Side)
    requires parent in p.kids && i <= |p.kids[parent]|
    ensures Ordered(p, ChildrenLeaves(p, k, parent, i, side))
    decreases Room(p.up, parent), 0, |p.kids[parent]| - i
  {
    if i < |p.kids[parent]| {
      var child := p.kids[parent][i];
      assert p.up[child] == parent;
      var a, b := ChildLeaves(p, k, child, side), ChildrenLeaves(p, k, parent, i + 1, side);
      ChildInOrder(p, k, child, side);
      ChildrenInOrder(p, k, parent, i + 1, side);
      forall x, y | x in a && y in b ensures InOrder(p, x, y) {
        ChildLeavesIff(p, k, child, side, x);
        ChildrenLeavesIff(p, k, parent, i + 1, side, y);
        var j :| i + 1 <= j < |p.kids[parent]| && Above(p.up, p.kids[parent][j], y);
        assert p.up[p.kids[parent][j]] == parent;
        assert Siblings(p, child, p.kids[parent][j]);
      }
      OrderedConcat(p, a, b);
    }
  }

  lemma {:induction false} ChildInOrder(p: Page, k: Looks, child: Id, side: Side)
    ensures Ordered(p, ChildLeaves(p, k, child, side))
    decreases Room(p.up, child), 2, 0
  {
    LeavesInOrder(p, k, child, side);
    var below := SideLeaves(p, k, child, side);
    forall y | y in below ensures InOrder(p, child, y) {
      SideLeavesIff(p, k, child, side, y);
    }
    OrderedConcat(p, [child], below);
    assert [] + below == below;
  }

  function ReadingPlace(s: Side): nat {
    match s
    case Left => 0
    case Right => 1
    case Top => 2
    case Bottom => 3
  }

  /** Left, right, top, bottom, and on one side in document order. */
  ghost predicate Precedes(p: Page, a: Inset, b: Inset) {
    ReadingPlace(a.side) < ReadingPlace(b.side) || (a.side == b.side && InOrder(p, a.leaf, b.leaf))
  }

  ghost predicate InsetsOrdered(p: Page, s: seq<Inset>) {
    forall i, j :: 0 <= i < j < |s| ==> Precedes(p, s[i], s[j])
  }

  lemma InsetsConcat(p: Page, a: seq<Inset>, b: seq<Inset>)
    requires InsetsOrdered(p, a) && InsetsOrdered(p, b) && forall x, y :: x in a && y in b ==> Precedes(p, x, y)
    ensures InsetsOrdered(p, a + b)
  {
    forall i, j | 0 <= i < j < |a + b| ensures Precedes(p, (a + b)[i], (a + b)[j]) {
      if i < |a| <= j {
        assert a[i] in a && b[j - |a|] in b;
      }
    }
  }

  lemma {:induction false} OneSideOrdered(p: Page, box: Id, leaves: seq<Id>, side: Side, ms: Measures)
    requires Ordered(p, leaves)
    ensures InsetsOrdered(p, InsetsOf(box, leaves, side, ms))
  {
    if leaves != [] {
      var m := ms(box, leaves[0], side);
      var head := if m.Some? then [Inset(side, m.value.px, leaves[0], m.value.kind)] else [];
      var rest := InsetsOf(box, leaves[1..], side, ms);
      assert Ordered(p, leaves[1..]);
      OneSideOrdered(p, box, leaves[1..], side, ms);
      forall x, y | x in head && y in rest ensures Precedes(p, x, y) {
        InsetsOfIff(box, leaves[1..], side, ms, y);
        var j :| 0 <= j < |leaves[1..]| && leaves[1..][j] == y.leaf;
        assert InOrder(p, leaves[0], leaves[j + 1]);
      }
      InsetsConcat(p, head, rest);
    }
  }

  /** Sides in reading order. */
  predicate Ascending(sides: seq<Side>) {
    forall i, j :: 0 <= i < j < |sides| ==> ReadingPlace(sides[i]) < ReadingPlace(sides[j])
  }

  lemma {:induction false} AllSidesOrdered(p: Page, k: Looks, box: Id, sides: seq<Side>, ms: Measures)
    requires Ascending(sides)
    ensures InsetsOrdered(p, Insets(p, k, box, sides, ms))
  {
    if sides != [] {
      var side, rest := sides[0], Insets(p, k, box, sides[1..], ms);
      var first := if Measured(k, box, side) then InsetsOf(box, SideLeaves(p, k, box, side), side, ms) else [];
      LeavesInOrder(p, k, box, side);
      OneSideOrdered(p, box, SideLeaves(p, k, box, side), side, ms);
      AllSidesOrdered(p, k, box, sides[1..], ms);
      forall x, y | x in first && y in rest ensures Precedes(p, x, y) {
        InsetsOfIff(box, SideLeaves(p, k, box, side), side, ms, x);
        InsetsAmongIff(p, k, box, sides[1..], ms, y);
        var j :| 0 <= j < |sides[1..]| && sides[1..][j] == y.side;
        assert ReadingPlace(sides[0]) < ReadingPlace(sides[j + 1]);
      }
      InsetsConcat(p, first, rest);
    }
  }

  lemma FilteredOrdered(p: Page, s: seq<Inset>, keep: Inset -> bool)
    requires InsetsOrdered(p, s)
    ensures InsetsOrdered(p, Filter(s, keep))
  {
    var at := FilterPlaces(s, keep);
    forall i, j | 0 <= i < j < |at| ensures Precedes(p, Filter(s, keep)[i], Filter(s, keep)[j]) {
      assert Precedes(p, s[at[i]], s[at[j]]);
    }
  }

  lemma {:induction false} FirstOfLeast(bad: seq<Inset>) returns (i: nat)
    requires bad != []
    ensures i < |bad| && bad[i] == Worst(bad) && forall j :: 0 <= j < i ==> bad[j].px > Worst(bad).px
  {
    if |bad| == 1 || bad[0].px <= Worst(bad[1..]).px {
      i := 0;
    } else {
      var k := FirstOfLeast(bad[1..]);
      i := k + 1;
      assert forall j :: 0 < j < i ==> bad[j] == bad[1..][j - 1];
    }
  }

  /** Among what is equally close the worst comes first: left, right, top, bottom, and then in document order. */
  lemma WorstComesFirst(p: Page, k: Looks, box: Id, ms: Measures, min: real, leaf: Id, side: Side, m: Measure)
    requires Touches(p, k, ms, min, box, leaf, side, m)
    ensures
      var bad := Filter(Insets(p, k, box, SIDES, ms), Violating(min));
      && bad != [] && Worst(bad).px <= m.px
      && (Worst(bad).px == m.px ==>
            Worst(bad) == Inset(side, m.px, leaf, m.kind) || Precedes(p, Worst(bad), Inset(side, m.px, leaf, m.kind)))
  {
    var all := Insets(p, k, box, SIDES, ms);
    var other := Inset(side, m.px, leaf, m.kind);
    TouchesIff(p, k, ms, min, box, leaf, side, m);
    BadIff(p, k, box, ms, min, other);
    AllSidesOrdered(p, k, box, SIDES, ms);
    FilteredOrdered(p, all, Violating(min));
    FirstAmong(p, Filter(all, Violating(min)), other);
  }

  lemma FirstAmong(p: Page, bad: seq<Inset>, other: Inset)
    requires InsetsOrdered(p, bad) && other in bad
    ensures Worst(bad).px <= other.px
    ensures Worst(bad).px == other.px ==> Worst(bad) == other || Precedes(p, Worst(bad), other)
  {
    WorstIsLeast(bad);
    var i := FirstOfLeast(bad);
    var j :| 0 <= j < |bad| && bad[j] == other;
  }

  /** Every finding of a box names that worst one. */
  lemma {:induction false} FindingIsWorst(p: Page, k: Looks, elements: seq<Id>, root: Id, ms: Measures, min: real,
    f: Finding)
    requires f in Findings(p, k, elements, root, ms, min)
    ensures
      var bad := Filter(Insets(p, k, f.box, SIDES, ms), Violating(min));
      bad != [] && f.worst == Worst(bad)
  {
    var bad := Filter(Insets(p, k, elements[0], SIDES, ms), Violating(min));
    if !(IsBox(k, elements[0], root) && bad != [] && f == Finding(elements[0], Worst(bad))) {
      FindingIsWorst(p, k, elements[1..], root, ms, min, f);
    }
  }

  /** Ties: what a finding names comes before everything else that touches its box as closely. */
  lemma FindingComesFirst(p: Page, k: Looks, elements: seq<Id>, root: Id, ms: Measures, min: real, f: Finding,
    leaf: Id, side: Side, m: Measure)
    requires f in Findings(p, k, elements, root, ms, min)
    requires Touches(p, k, ms, min, f.box, leaf, side, m) && m.px == f.worst.px
    ensures f.worst == Inset(side, m.px, leaf, m.kind) || Precedes(p, f.worst, Inset(side, m.px, leaf, m.kind))
  {
    FindingIsWorst(p, k, elements, root, ms, min, f);
    WorstComesFirst(p, k, f.box, ms, min, leaf, side, m);
  }

  // ---------------------------------------------------------------- reports in the order of the elements

  lemma IsAtFurther(elements: seq<Id>, r: seq<Id>, at: seq<nat>, last: Id)
    requires IsAt(elements, r, at)
    ensures IsAt(elements + [last], r, at) && IsAt(elements + [last], r + [last], at + [|elements|])
  {}

  lemma {:induction false} HitsPlaces(p: Page, k: Looks, elements: seq<Id>, root: Id) returns (at: seq<nat>)
    ensures IsAt(elements, Hits(p, k, elements, root), at)
  {
    at := [];
    if elements != [] {
      var front, last := elements[..|elements| - 1], elements[|elements| - 1];
      at := HitsPlaces(p, k, front, root);
      IsAtFurther(front, Hits(p, k, front, root), at, last);
      assert elements == front + [last];
      if Offending(p, k, last, root) && last !in Hits(p, k, front, root) {
        at := at + [|front|];
      }
    }
  }

  /** These elements, at these places. */
  ghost predicate IsAt(elements: seq<Id>, r: seq<Id>, at: seq<nat>) {
    Places(at, |elements|) && |r| == |at| && forall i :: 0 <= i < |at| ==> r[i] == elements[at[i]]
  }

  lemma IsAtInFront(elements: seq<Id>, among: seq<Id>, at: seq<nat>, r: seq<Id>, at': seq<nat>)
    requires among != [] && IsAt(elements, among, at) && IsAt(elements, r, at')
    requires forall i :: 0 <= i < |at'| ==> at'[i] in at[1..]
    ensures IsAt(elements, [among[0]] + r, [at[0]] + at')
  {
    forall i | 0 <= i < |at'| ensures at[0] < at'[i] {
      var j :| 0 <= j < |at[1..]| && at[1..][j] == at'[i];
      assert at[0] < at[j + 1];
    }
  }

  lemma {:induction false} OutermostPlaces(p: Page, hits: seq<Id>, elements: seq<Id>, among: seq<Id>, root: Id,
    at: seq<nat>) returns (at': seq<nat>)
    requires IsAt(elements, among, at)
    ensures IsAt(elements, Outermost(p, hits, among, root), at')
    ensures forall i :: 0 <= i < |at'| ==> at'[i] in at
  {
    at' := [];
    if among != [] {
      assert IsAt(elements, among[1..], at[1..]);
      at' := OutermostPlaces(p, hits, elements, among[1..], root, at[1..]);
      if !HasHitAbove(p, hits, among[0], root) {
        IsAtInFront(elements, among, at, Outermost(p, hits, among[1..], root), at');
        at' := [at[0]] + at';
      }
    }
  }

  /** The reports come in the order of the elements. */
  lemma ReportsInOrder(p: Page, k: Looks, elements: seq<Id>, root: Id) returns (at: seq<nat>)
    ensures IsAt(elements, OffscreenReports(p, k, elements, root), at)
  {
    var hits := Hits(p, k, elements, root);
    at := HitsPlaces(p, k, elements, root);
    at := OutermostPlaces(p, hits, elements, hits, root, at);
  }

  function Boxes(fs: seq<Finding>): seq<Id> { seq(|fs|, i requires 0 <= i < |fs| => fs[i].box) }

  lemma BoxesConcat(a: seq<Finding>, b: seq<Finding>)
    ensures Boxes(a + b) == Boxes(a) + Boxes(b)
  {}

  function OneOn(at: seq<nat>): (r: seq<nat>)
    ensures |r| == |at| && forall i :: 0 <= i < |at| ==> r[i] == at[i] + 1
  {
    seq(|at|, i requires 0 <= i < |at| => at[i] + 1)
  }

  lemma IsAtOneOn(elements: seq<Id>, r: seq<Id>, at: seq<nat>)
    requires elements != [] && IsAt(elements[1..], r, at)
    ensures IsAt(elements, r, OneOn(at)) && IsAt(elements, [elements[0]] + r, [0] + OneOn(at))
  {}

  /** So do the findings. */
  lemma {:induction false} FindingsInOrder(p: Page, k: Looks, elements: seq<Id>, root: Id, ms: Measures, min: real)
    returns (at: seq<nat>)
    ensures IsAt(elements, Boxes(Findings(p, k, elements, root, ms, min)), at)
  {
    at := [];
    if elements != [] {
      var tail := FindingsInOrder(p, k, elements[1..], root, ms, min);
      var rest := Findings(p, k, elements[1..], root, ms, min);
      var bad := Filter(Insets(p, k, elements[0], SIDES, ms), Violating(min));
      var first := if IsBox(k, elements[0], root) && bad != [] then [Finding(elements[0], Worst(bad))] else [];
      IsAtOneOn(elements, Boxes(rest), tail);
      BoxesConcat(first, rest);
      assert Boxes(first) == if first == [] then [] else [elements[0]];
      assert [] + Boxes(rest) == Boxes(rest);
      at := (if first == [] then [] else [0]) + OneOn(tail);
      assert [] + OneOn(tail) == OneOn(tail);
    }
  }
}
