/** Outermost offenders and edge attribution (layout_measure/checks_box.ts);
 * styles, rects and measures are given values. */
module EdgeContact {
  import opened Prelude
  import opened ComposedTree
  import opened Elements

  datatype Side = Left | Right | Top | Bottom
  datatype Axis = X | Y

  function AxisOf(s: Side): Axis { if s == Left || s == Right then X else Y }

  /** In reading order. */
  const SIDES: seq<Side> := [Left, Right, Top, Bottom]

  datatype Rect = Rect(x: real, y: real, width: real, height: real)

  /** What the measure context reads of each element. */
  datatype Looks = Looks(
    visible: Id -> bool, exempt: Id -> bool, ariaHidden: Id -> bool, outOfFlow: Id -> bool,
    control: Id -> bool, ownText: Id -> bool, pageLevel: Id -> bool,
    edge: (Id, Side) -> bool, clips: (Id, Axis) -> bool,
    rect: Id -> Rect, scrollerX: Id -> bool, viewportWidth: real)

  const SLACK: real := 1.0

  // ---------------------------------------------------------------- off screen

  ghost predicate InsideHorizontalClip(p: Page, k: Looks, el: Id, root: Id) {
    exists a :: a in AncestorsWithin(p, el, root) && a != root && k.scrollerX(a)
  }

  predicate CrossesX(k: Looks, r: Rect) { r.x < -SLACK || r.x + r.width > k.viewportWidth + SLACK }

  predicate FullyOutsideX(k: Looks, r: Rect) { r.x + r.width <= 0.0 || r.x >= k.viewportWidth }

  ghost predicate Offending(p: Page, k: Looks, el: Id, root: Id) {
    && k.visible(el) && !k.exempt(el) && !k.ariaHidden(el)
    && CrossesX(k, k.rect(el))
    && !(FullyOutsideX(k, k.rect(el)) && k.outOfFlow(el))
    && !InsideHorizontalClip(p, k, el, root)
  }

  /** The offending elements, each once, in order. */
  ghost function Hits(p: Page, k: Looks, elements: seq<Id>, root: Id): seq<Id> {
    if elements == [] then []
    else
      var front, last := Hits(p, k, elements[..|elements| - 1], root), elements[|elements| - 1];
      if Offending(p, k, last, root) && last !in front then front + [last] else front
  }

  ghost predicate HasHitAbove(p: Page, hits: seq<Id>, el: Id, root: Id) {
    exists a :: a in AncestorsWithin(p, el, root) && a in hits
  }

  ghost function Outermost(p: Page, hits: seq<Id>, among: seq<Id>, root: Id): seq<Id> {
    if among == [] then []
    else
      (if HasHitAbove(p, hits, among[0], root) then [] else [among[0]]) + Outermost(p, hits, among[1..], root)
  }

  /** `checkOffscreen`: the elements reported. */
  ghost function OffscreenReports(p: Page, k: Looks, elements: seq<Id>, root: Id): seq<Id> {
    var hits := Hits(p, k, elements, root);
    Outermost(p, hits, hits, root)
  }

  lemma {:induction false} HitsIff(p: Page, k: Looks, elements: seq<Id>, root: Id)
    ensures forall el :: el in Hits(p, k, elements, root) <==> el in elements && Offending(p, k, el, root)
    ensures Distinct(Hits(p, k, elements, root))
  {
    if elements != [] {
      var front, last := elements[..|elements| - 1], elements[|elements| - 1];
      HitsIff(p, k, front, root);
      assert elements == front + [last];
    }
  }

  lemma {:induction false} OutermostIff(p: Page, hits: seq<Id>, among: seq<Id>, root: Id)
    ensures forall el :: el in Outermost(p, hits, among, root) <==> el in among && !HasHitAbove(p, hits, el, root)
    ensures Distinct(among) ==> Distinct(Outermost(p, hits, among, root))
  {
    if among != [] {
      var rest := among[1..];
      OutermostIff(p, hits, rest, root);
      assert among == [among[0]] + rest;
      if Distinct(among) {
        forall i, j | 0 <= i < j < |rest| ensures rest[i] != rest[j] {
          assert among[i + 1] != among[j + 1];
        }
        forall x | x in rest ensures x != among[0] {
          var i :| 0 <= i < |rest| && rest[i] == x;
          assert among[0] != among[i + 1];
        }
      }
    }
  }

  lemma WithinTransitive(p: Page, r: Id, a: Id, el: Id, root: Id)
    requires r in AncestorsWithin(p, a, root) && a in AncestorsWithin(p, el, root)
    ensures r in AncestorsWithin(p, el, root)
  {
    AncestorsWithinIff(p, a, root, r);
    AncestorsWithinIff(p, el, root, a);
    AncestorsWithinIff(p, el, root, r);
    OverTransitive(p, r, a, el);
    if Over(p, r, root) && Above(p.up, root, el) {
      AboveLinear(p.up, root, a, el);
    }
  }

  /** Each element reported once, none inside another, and every offender is reported or inside one that is. */
  lemma OffscreenCovers(p: Page, k: Looks, elements: seq<Id>, root: Id)
    ensures
      var reports := OffscreenReports(p, k, elements, root);
      && Distinct(reports)
      && (forall el :: el in reports ==> el in elements && Offending(p, k, el, root))
      && (forall r, r' :: r in reports && r' in reports ==> r !in AncestorsWithin(p, r', root))
      && (forall el :: el in elements && Offending(p, k, el, root) ==>
            exists r :: r in reports && (r == el || r in AncestorsWithin(p, el, root)))
  {
    var hits := Hits(p, k, elements, root);
    HitsIff(p, k, elements, root);
    OutermostIff(p, hits, hits, root);
    forall el | el in hits
      ensures exists r :: r in Outermost(p, hits, hits, root) && (r == el || r in AncestorsWithin(p, el, root))
    {
      var r := ReportOf(p, hits, el, root);
    }
  }

  lemma {:induction false} ReportOf(p: Page, hits: seq<Id>, el: Id, root: Id) returns (r: Id)
    requires el in hits
    ensures r in hits && !HasHitAbove(p, hits, r, root) && (r == el || r in AncestorsWithin(p, el, root))
    decreases Rank(p.up, el)
  {
    if HasHitAbove(p, hits, el, root) {
      var a :| a in AncestorsWithin(p, el, root) && a in hits;
      AncestorsWithinIff(p, el, root, a);
      AboveRank(p.up, a, el);
      r := ReportOf(p, hits, a, root);
      if r != a {
        WithinTransitive(p, r, a, el, root);
      }
    } else {
      r := el;
    }
  }

  // ---------------------------------------------------------------- leaves of a side

  predicate Skipped(k: Looks, el: Id) { !k.visible(el) || k.exempt(el) || k.outOfFlow(el) }

  /** `sideLeaves` */
  ghost function SideLeaves(p: Page, k: Looks, parent: Id, side: Side): seq<Id>
    decreases Room(p.up, parent), 1, 0
  {
    if parent in p.kids then ChildrenLeaves(p, k, parent, 0, side) else []
  }

  ghost function ChildrenLeaves(p: Page, k: Looks, parent: Id, i: nat, side: Side): seq<Id>
    requires parent in p.kids && i <= |p.kids[parent]|
    decreases Room(p.up, parent), 0, |p.kids[parent]| - i
  {
    if i == |p.kids[parent]| then []
    else
      var child := p.kids[parent][i];
      assert p.up[child] == parent;
      ChildLeaves(p, k, child, side) + ChildrenLeaves(p, k, parent, i + 1, side)
  }

  ghost function ChildLeaves(p: Page, k: Looks, child: Id, side: Side): seq<Id>
    decreases Room(p.up, child), 2, 0
  {
    if Skipped(k, child) then []
    else if k.control(child) then [child]
    else if k.edge(child, side) then []
    else
      var own := if k.ownText(child) then [child] else [];
      if k.clips(child, AxisOf(side)) then own else own + SideLeaves(p, k, child, side)
  }

  // What the walk does, element by element.

  /** An element the walk looks into. */
  predicate Passes(k: Looks, m: Id, side: Side) {
    !Skipped(k, m) && !k.control(m) && !k.edge(m, side) && !k.clips(m, AxisOf(side))
  }

  /** An element the walk reports. */
  predicate Counts(k: Looks, leaf: Id, side: Side) {
    !Skipped(k, leaf) && (k.control(leaf) || (!k.edge(leaf, side) && k.ownText(leaf)))
  }

  /** Nothing between the box and the leaf stops the walk. */
  ghost predicate OpenPath(p: Page, k: Looks, box: Id, leaf: Id, side: Side) {
    forall m :: Over(p, box, m) && Over(p, m, leaf) ==> Passes(k, m, side)
  }

  ghost predicate IsSideLeaf(p: Page, k: Looks, box: Id, leaf: Id, side: Side) {
    Over(p, box, leaf) && Counts(k, leaf, side) && OpenPath(p, k, box, leaf, side)
  }

  /** Seen from one child: the leaf is the child, or below it with the way down open. */
  ghost predicate IsChildLeaf(p: Page, k: Looks, child: Id, leaf: Id, side: Side) {
    Counts(k, leaf, side) && (leaf == child || (Passes(k, child, side) && IsSideLeaf(p, k, child, leaf, side)))
  }

  /** What lies between the box and the leaf: the child the leaf is under, and what is between those two. */
  lemma BetweenSplit(p: Page, child: Id, leaf: Id, m: Id)
    requires child in p.up && Above(p.up, child, leaf)
    ensures (Over(p, p.up[child], m) && Over(p, m, leaf))
      <==> (m == child && child != leaf) || (Over(p, child, m) && Over(p, m, leaf))
  {
    var box := p.up[child];
    AboveStep(p.up, box, box);
    OverStep(p, box, child);
    if Over(p, child, m) {
      OverTransitive(p, box, child, m);
    }
    if Over(p, box, m) && Over(p, m, leaf) {
      AboveLinear(p.up, child, m, leaf);
      if Over(p, m, child) {
        OverStep(p, m, child);
        NotBothOver(p, box, m);
      }
      if m == child {
        assert child != leaf;
      }
    }
  }

  lemma ThroughChild(p: Page, k: Looks, child: Id, leaf: Id, side: Side)
    requires child in p.up && Above(p.up, child, leaf)
    ensures IsChildLeaf(p, k, child, leaf, side) <==> IsSideLeaf(p, k, p.up[child], leaf, side)
  {
    var box := p.up[child];
    AboveStep(p.up, box, box);
    OverStep(p, box, child);
    OverTransitive(p, box, child, leaf);
    forall m
      ensures (Over(p, box, m) && Over(p, m, leaf))
        <==> (m == child && child != leaf) || (Over(p, child, m) && Over(p, m, leaf))
    {
      BetweenSplit(p, child, leaf, m);
    }
    if leaf == child {
      forall m | Over(p, m, leaf) ensures !Over(p, child, m) {
        NotBothOver(p, m, leaf);
      }
    } else {
      assert OpenPath(p, k, box, leaf, side) <==> Passes(k, child, side) && OpenPath(p, k, child, leaf, side);
    }
  }

  /** A side leaf is exactly what counts, below the box, with the way down open. */
  lemma {:induction false} SideLeavesIff(p: Page, k: Looks, box: Id, side: Side, leaf: Id)
    ensures leaf in SideLeaves(p, k, box, side) <==> IsSideLeaf(p, k, box, leaf, side)
    decreases Room(p.up, box), 1, 0
  {
    if box in p.kids {
      ChildrenLeavesIff(p, k, box, 0, side, leaf);
    }
    if Over(p, box, leaf) {
      var child := JustBelow(p.up, box, leaf);
      ThroughChild(p, k, child, leaf, side);
      assert p.kids[box][p.pos[child]] == child;
    }
    if box in p.kids {
      forall i | 0 <= i < |p.kids[box]| && Above(p.up, p.kids[box][i], leaf)
        ensures IsChildLeaf(p, k, p.kids[box][i], leaf, side) <==> IsSideLeaf(p, k, box, leaf, side)
      {
        ThroughChild(p, k, p.kids[box][i], leaf, side);
      }
    }
  }

  lemma {:induction false} ChildrenLeavesIff(p: Page, k: Looks, parent: Id, i: nat, side: Side, leaf: Id)
    requires parent in p.kids && i <= |p.kids[parent]|
    ensures leaf in ChildrenLeaves(p, k, parent, i, side)
       <==> exists j ::
              && i <= j < |p.kids[parent]| && Above(p.up, p.kids[parent][j], leaf)
              && IsChildLeaf(p, k, p.kids[parent][j], leaf, side)
    decreases Room(p.up, parent), 0, |p.kids[parent]| - i
  {
    if i < |p.kids[parent]| {
      var child := p.kids[parent][i];
      assert p.up[child] == parent;
      ChildLeavesIff(p, k, child, side, leaf);
      ChildrenLeavesIff(p, k, parent, i + 1, side, leaf);
    }
  }

  lemma {:induction false} ChildLeavesIff(p: Page, k: Looks, child: Id, side: Side, leaf: Id)
    ensures leaf in ChildLeaves(p, k, child, side) <==> Above(p.up, child, leaf) && IsChildLeaf(p, k, child, leaf, side)
    decreases Room(p.up, child), 2, 0
  {
    SideLeavesIff(p, k, child, side, leaf);
    AboveStep(p.up, child, child);
  }

  // ---------------------------------------------------------------- attribution

  /** The nearest strict ancestor that shows an edge on this side. */
  ghost predicate NearestEdge(p: Page, k: Looks, box: Id, leaf: Id, side: Side) {
    && Over(p, box, leaf) && k.edge(box, side)
    && forall a :: Over(p, a, leaf) && k.edge(a, side) ==> Above(p.up, a, box)
  }

  /** Nothing between the two is skipped, a control, or clips the axis. */
  ghost predicate Clear(p: Page, k: Looks, box: Id, leaf: Id, side: Side) {
    forall m :: Over(p, box, m) && Over(p, m, leaf) ==> !Skipped(k, m) && !k.control(m) && !k.clips(m, AxisOf(side))
  }

  ghost predicate Attributed(p: Page, k: Looks, box: Id, leaf: Id, side: Side) {
    NearestEdge(p, k, box, leaf, side) && Counts(k, leaf, side) && Clear(p, k, box, leaf, side)
  }

  /** A leaf belongs to a box's side exactly when that box is the nearest to
   * show an edge there and nothing shields the leaf. */
  lemma AttributedIff(p: Page, k: Looks, box: Id, leaf: Id, side: Side)
    ensures k.edge(box, side) && leaf in SideLeaves(p, k, box, side) <==> Attributed(p, k, box, leaf, side)
  {
    SideLeavesIff(p, k, box, side, leaf);
    if k.edge(box, side) && IsSideLeaf(p, k, box, leaf, side) {
      forall a | Over(p, a, leaf) && k.edge(a, side) ensures Above(p.up, a, box) {
        AboveLinear(p.up, a, box, leaf);
        if !Above(p.up, a, box) {
          AboveStep(p.up, a, a);
          assert Over(p, box, a);
        }
      }
    }
    if Attributed(p, k, box, leaf, side) {
      forall m | Over(p, box, m) && Over(p, m, leaf) ensures Passes(k, m, side) {
        if k.edge(m, side) {
          NotBothOver(p, box, m);
        }
      }
    }
  }

  /** So at most one box measures a given side of a given leaf. */
  lemma OneBoxPerLeafSide(p: Page, k: Looks, box: Id, box': Id, leaf: Id, side: Side)
    requires k.edge(box, side) && leaf in SideLeaves(p, k, box, side)
    requires k.edge(box', side) && leaf in SideLeaves(p, k, box', side)
    ensures box == box'
  {
    AttributedIff(p, k, box, leaf, side);
    AttributedIff(p, k, box', leaf, side);
    if box != box' {
      NotBothOver(p, box, box');
    }
  }

  // ---------------------------------------------------------------- findings

  datatype Kind = Edged | Textual
  datatype Measure = Measure(px: real, kind: Kind)
  datatype Inset = Inset(side: Side, px: real, leaf: Id, kind: Kind)
  datatype Finding = Finding(box: Id, worst: Inset)

  /** How far a leaf's shape is from a box's inner edge; None without a shape, or when it spans the box by design. */
  type Measures = (Id, Id, Side) -> Option<Measure>

  function Round(px: real): int { (px + 0.5).Floor }

  predicate Violates(i: Inset, min: real) {
    var px := Round(i.px);
    px < 0 || (if i.kind == Edged then px < 1 else AxisOf(i.side) == X && px as real < min)
  }

  ghost function InsetsOf(box: Id, leaves: seq<Id>, side: Side, ms: Measures): seq<Inset> {
    if leaves == [] then []
    else
      var m := ms(box, leaves[0], side);
      (if m.Some? then [Inset(side, m.value.px, leaves[0], m.value.kind)] else [])
        + InsetsOf(box, leaves[1..], side, ms)
  }

  predicate Measured(k: Looks, box: Id, side: Side) { k.edge(box, side) && !k.clips(box, AxisOf(side)) }

  ghost function Insets(p: Page, k: Looks, box: Id, sides: seq<Side>, ms: Measures): seq<Inset> {
    if sides == [] then []
    else
      (if Measured(k, box, sides[0]) then InsetsOf(box, SideLeaves(p, k, box, sides[0]), sides[0], ms) else [])
      + Insets(p, k, box, sides[1..], ms)
  }

  function Violating(min: real): Inset -> bool { (i: Inset) => Violates(i, min) }

  /** The first of the least: what a stable ascending sort puts in front. */
  function Worst(bad: seq<Inset>): Inset
    requires bad != []
  {
    if |bad| == 1 then bad[0]
    else
      var w := Worst(bad[1..]);
      if bad[0].px <= w.px then bad[0] else w
  }

  ghost predicate IsBox(k: Looks, el: Id, root: Id) {
    el != root && !k.pageLevel(el) && k.visible(el) && !k.exempt(el) && !k.ariaHidden(el) && exists s :: k.edge(el, s)
  }

  ghost function Findings(p: Page, k: Looks, elements: seq<Id>, root: Id, ms: Measures, min: real): seq<Finding> {
    if elements == [] then []
    else
      var bad := Filter(Insets(p, k, elements[0], SIDES, ms), Violating(min));
      (if IsBox(k, elements[0], root) && bad != [] then [Finding(elements[0], Worst(bad))] else [])
      + Findings(p, k, elements[1..], root, ms, min)
  }

  ghost predicate IsInset(p: Page, k: Looks, box: Id, i: Inset, ms: Measures) {
    && Measured(k, box, i.side) && i.leaf in SideLeaves(p, k, box, i.side)
    && ms(box, i.leaf, i.side) == Some(Measure(i.px, i.kind))
  }

  lemma {:induction false} InsetsOfIff(box: Id, leaves: seq<Id>, side: Side, ms: Measures, i: Inset)
    ensures i in InsetsOf(box, leaves, side, ms)
       <==> i.side == side && i.leaf in leaves && ms(box, i.leaf, side) == Some(Measure(i.px, i.kind))
  {
    if leaves != [] {
      InsetsOfIff(box, leaves[1..], side, ms, i);
      assert leaves == [leaves[0]] + leaves[1..];
    }
  }

  lemma {:induction false} InsetsAmongIff(p: Page, k: Looks, box: Id, sides: seq<Side>, ms: Measures, i: Inset)
    ensures i in Insets(p, k, box, sides, ms) <==> i.side in sides && IsInset(p, k, box, i, ms)
  {
    if sides != [] {
      InsetsAmongIff(p, k, box, sides[1..], ms, i);
      InsetsOfIff(box, SideLeaves(p, k, box, sides[0]), sides[0], ms, i);
      assert sides == [sides[0]] + sides[1..];
    }
  }

  lemma EverySide(s: Side)
    ensures s in SIDES
  {
    assert SIDES[0] == Left && SIDES[1] == Right && SIDES[2] == Top && SIDES[3] == Bottom;
  }

  lemma {:induction false} FilterIff<T>(s: seq<T>, keep: T -> bool, x: T)
    ensures x in Filter(s, keep) <==> x in s && keep(x)
  {
    if s != [] {
      FilterIff(s[1..], keep, x);
      assert s == [s[0]] + s[1..];
    }
  }

  lemma {:induction false} WorstIsLeast(bad: seq<Inset>)
    requires bad != []
    ensures Worst(bad) in bad && forall i :: i in bad ==> Worst(bad).px <= i.px
  {
    if |bad| > 1 {
      WorstIsLeast(bad[1..]);
      assert bad == [bad[0]] + bad[1..];
    }
  }

  /** The finding of a box names a violation, and none of its sides is worse. */
  ghost predicate IsWorst(p: Page, k: Looks, f: Finding, ms: Measures, min: real) {
    && IsInset(p, k, f.box, f.worst, ms) && Violates(f.worst, min)
    && forall i :: IsInset(p, k, f.box, i, ms) && Violates(i, min) ==> f.worst.px <= i.px
  }

  lemma BadIff(p: Page, k: Looks, box: Id, ms: Measures, min: real, i: Inset)
    ensures i in Filter(Insets(p, k, box, SIDES, ms), Violating(min)) <==> IsInset(p, k, box, i, ms) && Violates(i, min)
  {
    FilterIff(Insets(p, k, box, SIDES, ms), Violating(min), i);
    InsetsAmongIff(p, k, box, SIDES, ms, i);
    EverySide(i.side);
  }

  lemma BoxFinding(p: Page, k: Looks, box: Id, ms: Measures, min: real)
    ensures
      var bad := Filter(Insets(p, k, box, SIDES, ms), Violating(min));
      && (bad == [] <==> !exists i :: IsInset(p, k, box, i, ms) && Violates(i, min))
      && (bad != [] ==> IsWorst(p, k, Finding(box, Worst(bad)), ms, min))
  {
    var bad := Filter(Insets(p, k, box, SIDES, ms), Violating(min));
    forall i ensures i in bad <==> IsInset(p, k, box, i, ms) && Violates(i, min) {
      BadIff(p, k, box, ms, min, i);
    }
    if bad != [] {
      WorstIsLeast(bad);
      assert IsInset(p, k, box, Worst(bad), ms);
    }
    if i :| IsInset(p, k, box, i, ms) && Violates(i, min) {
      assert i in bad;
    }
  }

  ghost predicate OnePerBox(fs: seq<Finding>) {
    forall f, f' :: f in fs && f' in fs && f.box == f'.box ==> f == f'
  }

  /** One finding for each box with a violation, naming its worst. */
  lemma {:induction false} FindingsIff(p: Page, k: Looks, elements: seq<Id>, root: Id, ms: Measures, min: real)
    ensures forall f ::
      f in Findings(p, k, elements, root, ms, min) ==>
        f.box in elements && IsBox(k, f.box, root) && IsWorst(p, k, f, ms, min)
    ensures forall box, i :: box in elements && IsBox(k, box, root) && IsInset(p, k, box, i, ms) && Violates(i, min)
              ==> exists f :: f in Findings(p, k, elements, root, ms, min) && f.box == box
    ensures Distinct(elements) ==> OnePerBox(Findings(p, k, elements, root, ms, min))
  {
    if elements != [] {
      FindingsIff(p, k, elements[1..], root, ms, min);
      BoxFinding(p, k, elements[0], ms, min);
      var rest := Findings(p, k, elements[1..], root, ms, min);
      var all := Findings(p, k, elements, root, ms, min);
      assert elements == [elements[0]] + elements[1..];
      forall box, i | box in elements && IsBox(k, box, root) && IsInset(p, k, box, i, ms) && Violates(i, min)
        ensures exists f :: f in all && f.box == box
      {
        if box == elements[0] {
          assert all[0] in all && all[0].box == box;
        } else {
          var f :| f in rest && f.box == box;
          assert f in all;
        }
      }
      if Distinct(elements) {
        forall i, j | 0 <= i < j < |elements[1..]| ensures elements[1..][i] != elements[1..][j] {
          assert elements[i + 1] != elements[j + 1];
        }
        forall x | x in elements[1..] ensures x != elements[0] {
          var i :| 0 <= i < |elements[1..]| && elements[1..][i] == x;
          assert elements[0] != elements[i + 1];
        }
      }
    }
  }

  /** No two findings judge the same side of the same leaf, and each is judged by its nearest box. */
  lemma FindingsDoNotOverlap(p: Page, k: Looks, elements: seq<Id>, root: Id, ms: Measures, min: real, f: Finding,
    f': Finding)
    requires Distinct(elements)
    requires f in Findings(p, k, elements, root, ms, min) && f' in Findings(p, k, elements, root, ms, min)
    ensures Attributed(p, k, f.box, f.worst.leaf, f.worst.side)
    ensures f.worst.leaf == f'.worst.leaf && f.worst.side == f'.worst.side ==> f == f'
  {
    FindingsIff(p, k, elements, root, ms, min);
    assert IsWorst(p, k, f, ms, min) && IsWorst(p, k, f', ms, min);
    AttributedIff(p, k, f.box, f.worst.leaf, f.worst.side);
    if f.worst.leaf == f'.worst.leaf && f.worst.side == f'.worst.side {
      OneBoxPerLeafSide(p, k, f.box, f'.box, f.worst.leaf, f.worst.side);
    }
  }
}
