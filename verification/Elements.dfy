/** The element tree as layout checks see it, and the memoized reads of layout_measure/geometry.ts. */
module Elements {
  import opened Prelude
  import opened ComposedTree

  /** `up` is `parentElement`, `kids` are `children`, and `pos` is the place of a child among them. */
  datatype Links = Links(up: map<Id, Id>, kids: map<Id, seq<Id>>, pos: map<Id, nat>)

  ghost predicate WellLinked(p: Links) {
    && Acyclic(p.up)
    && p.pos.Keys == p.up.Keys
    && (forall c {:trigger p.up[c]} :: c in p.up ==>
          p.up[c] in p.kids && p.pos[c] < |p.kids[p.up[c]]| && p.kids[p.up[c]][p.pos[c]] == c)
    && (forall q, i {:trigger p.kids[q][i]} :: q in p.kids && 0 <= i < |p.kids[q]| ==>
          p.kids[q][i] in p.up && p.up[p.kids[q][i]] == q && p.pos[p.kids[q][i]] == i)
  }

  function NoLinks(): (p: Links)
    ensures WellLinked(p)
  {
    assert Ranks(map[], (n: Id) => 0, 0);
    Links(map[], map[], map[])
  }

  type Page = p: Links | WellLinked(p) witness NoLinks()

  /** Strictly above. */
  ghost predicate Over(p: Page, a: Id, n: Id) { a != n && Above(p.up, a, n) }

  lemma OverStep(p: Page, a: Id, n: Id)
    ensures Over(p, a, n) <==> n in p.up && Above(p.up, a, p.up[n])
  {
    AboveStep(p.up, a, n);
    if n in p.up && Above(p.up, a, p.up[n]) {
      AboveRank(p.up, a, p.up[n]);
    }
  }

  lemma OverTransitive(p: Page, a: Id, b: Id, n: Id)
    requires Over(p, a, b) && Above(p.up, b, n)
    ensures Over(p, a, n)
  {
    AboveTransitive(p.up, a, b, n);
    AboveRank(p.up, a, b);
    AboveRank(p.up, b, n);
  }

  lemma NotBothOver(p: Page, a: Id, b: Id)
    requires Over(p, a, b)
    ensures !Above(p.up, b, a)
  {
    AboveRank(p.up, a, b);
    if Above(p.up, b, a) {
      AboveRank(p.up, b, a);
    }
  }

  // ---------------------------------------------------------------- ancestorsWithin

  ghost function Climb(p: Page, node: Id, stop: Id, acc: seq<Id>): seq<Id>
    decreases Rank(p.up, node)
  {
    if node == stop || node !in p.up then acc + [node] else Climb(p, p.up[node], stop, acc + [node])
  }

  /** `ancestorsWithin`: nearest first, up to and including `stop` when it is met. */
  ghost function AncestorsWithin(p: Page, el: Id, stop: Id): seq<Id> {
    if el == stop || el !in p.up then [] else Climb(p, p.up[el], stop, [])
  }

  lemma {:induction false} ClimbMembers(p: Page, node: Id, stop: Id, acc: seq<Id>, a: Id)
    ensures a in Climb(p, node, stop, acc)
      <==> a in acc || (Above(p.up, a, node) && !(Over(p, a, stop) && Above(p.up, stop, node)))
    decreases Rank(p.up, node)
  {
    AboveStep(p.up, a, node);
    AboveStep(p.up, stop, node);
    if node == stop || node !in p.up {
      assert a in acc + [node] <==> a in acc || a == node;
    } else {
      ClimbMembers(p, p.up[node], stop, acc + [node], a);
      if a == node && Over(p, a, stop) {
        AboveStep(p.up, node, node);
        OverStep(p, a, node);
        NotBothOver(p, a, stop);
        assert !Above(p.up, stop, node);
      }
    }
  }

  /** Exactly the strict ancestors that are not beyond `stop`. */
  lemma AncestorsWithinIff(p: Page, el: Id, stop: Id, a: Id)
    ensures a in AncestorsWithin(p, el, stop) <==> Over(p, a, el) && !(Over(p, a, stop) && Above(p.up, stop, el))
  {
    OverStep(p, a, el);
    AboveStep(p.up, stop, el);
    if el != stop && el in p.up {
      ClimbMembers(p, p.up[el], stop, [], a);
    }
  }

  // ---------------------------------------------------------------- memoized reads

  /** `memo1`: whatever was asked before, a read gives what the function gives. */
  class Memo<K(==), V> {
    const read: K -> V
    var cache: map<K, V>

    ghost predicate Valid()
      reads this
    {
      forall k :: k in cache ==> cache[k] == read(k)
    }

    constructor (read: K -> V)
      ensures Valid() && this.read == read
    {
      this.read := read;
      cache := map[];
    }

    method Get(k: K) returns (v: V)
      requires Valid()
      modifies this
      ensures Valid() && v == read(k)
      ensures cache == old(cache)[k := v]
    {
      if k in cache {
        v := cache[k];
        assert cache == cache[k := v];
        return;
      }
      v := read(k);
      cache := cache[k := v];
    }
  }

  /** What a recursive predicate needs of one element: its verdict alone, or one step on to its parent. */
  datatype Marks = Marks(hidden: Id -> bool, details: Id -> bool, summary: Id -> bool)

  /** A child of a closed `<details>` other than its summary. */
  predicate Folded(p: Links, m: Marks, el: Id) { el in p.up && m.details(p.up[el]) && !m.summary(el) }

  ghost function InClosedDetails(p: Page, m: Marks, el: Id): bool
    decreases Rank(p.up, el)
  {
    if el !in p.up then false else Folded(p, m, el) || InClosedDetails(p, m, p.up[el])
  }

  ghost function InVisuallyHidden(p: Page, m: Marks, el: Id): bool
    decreases Rank(p.up, el)
  {
    m.hidden(el) || (el in p.up && InVisuallyHidden(p, m, p.up[el]))
  }

  /** Hidden at any depth below a closed `<details>`, except under its summary. */
  lemma {:induction false} InClosedDetailsIff(p: Page, m: Marks, el: Id)
    ensures InClosedDetails(p, m, el)
       <==> exists a :: Above(p.up, a, el) && a in p.up && m.details(p.up[a]) && !m.summary(a)
    decreases Rank(p.up, el)
  {
    AboveStep(p.up, el, el);
    if el in p.up {
      InClosedDetailsIff(p, m, p.up[el]);
      if a :| Above(p.up, a, el) && Folded(p, m, a) {
        AboveStep(p.up, a, el);
      }
      if a :| Above(p.up, a, p.up[el]) && Folded(p, m, a) {
        AboveStep(p.up, a, el);
      }
    } else {
      forall a | Above(p.up, a, el) ensures a == el {
        AboveStep(p.up, a, el);
      }
    }
  }

  lemma {:induction false} InVisuallyHiddenIff(p: Page, m: Marks, el: Id)
    ensures InVisuallyHidden(p, m, el) <==> exists a :: Above(p.up, a, el) && m.hidden(a)
    decreases Rank(p.up, el)
  {
    AboveStep(p.up, el, el);
    if el in p.up {
      InVisuallyHiddenIff(p, m, p.up[el]);
      if a :| Above(p.up, a, el) && m.hidden(a) {
        AboveStep(p.up, a, el);
      }
      if a :| Above(p.up, a, p.up[el]) && m.hidden(a) {
        AboveStep(p.up, a, el);
      }
    } else {
      forall a | Above(p.up, a, el) ensures a == el {
        AboveStep(p.up, a, el);
      }
    }
  }

  /** The two predicates that climb through their own memo. */
  class Visibility {
    const page: Page
    const marks: Marks
    var folded: map<Id, bool>
    var hidden: map<Id, bool>

    ghost predicate Valid()
      reads this
    {
      && (forall e :: e in folded ==> folded[e] == InClosedDetails(page, marks, e))
      && (forall e :: e in hidden ==> hidden[e] == InVisuallyHidden(page, marks, e))
    }

    constructor (page: Page, marks: Marks)
      ensures Valid() && this.page == page && this.marks == marks
    {
      this.page, this.marks := page, marks;
      folded, hidden := map[], map[];
    }

    method CheckClosedDetails(el: Id) returns (b: bool)
      requires Valid()
      modifies this
      ensures Valid() && b == InClosedDetails(page, marks, el) && hidden == old(hidden)
      decreases Rank(page.up, el)
    {
      if el in folded {
        return folded[el];
      }
      if el !in page.up {
        b := false;
      } else {
        b := Folded(page, marks, el);
        if !b {
          b := CheckClosedDetails(page.up[el]);
        }
      }
      folded := folded[el := b];
    }

    method CheckVisuallyHidden(el: Id) returns (b: bool)
      requires Valid()
      modifies this
      ensures Valid() && b == InVisuallyHidden(page, marks, el) && folded == old(folded)
      decreases Rank(page.up, el)
    {
      if el in hidden {
        return hidden[el];
      }
      b := marks.hidden(el);
      if !b && el in page.up {
        b := CheckVisuallyHidden(page.up[el]);
      }
      hidden := hidden[el := b];
    }
  }
}
