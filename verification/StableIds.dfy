/**
 * The grammar of stable ids, shared by the React and the Vue resolver:
 * `root<i>/<name>[<discriminator>]/...`, one segment for each step down from the root.
 *
 * The discriminator is the key of a keyed node; for an unkeyed one it is the number of earlier
 * unkeyed siblings of the same name.
 */
module StableIds {
  import opened Prelude
  import opened Text

  type Id = nat

  /** What an id records of a node: its display name and its (non-empty) key. */
  datatype Item = Item(name: string, key: Option<string>)

  // ---------------------------------------------------------------- one segment

  function Segment(name: string, disc: string): string { name + "[" + disc + "]" }

  predicate IsLineBreak(c: char) { c == '\n' || c == '\r' || c == '\U{2028}' || c == '\U{2029}' }

  predicate OneLine(s: string) { forall i :: 0 <= i < |s| ==> !IsLineBreak(s[i]) }

  /** The position of the last `c` in `s`. */
  function LastIndexOf(s: string, c: char): (r: Option<nat>)
    ensures r.Some? ==> r.value < |s| && s[r.value] == c && c !in s[r.value + 1..]
    ensures r.None? ==> c !in s
  {
    if s == "" then None
    else if s[|s| - 1] == c then Some(|s| - 1)
    else
      var r := LastIndexOf(s[..|s| - 1], c);
      assert r.Some? ==> s[r.value + 1..] == s[..|s| - 1][r.value + 1..] + [s[|s| - 1]];
      assert s == s[..|s| - 1] + [s[|s| - 1]];
      r
  }

  /** `/^(.+)\[(.*)\]$/`: the greedy first group reaches to the last bracket that can open the second. */
  function ParseSegment(seg: string): Option<(string, string)> {
    if seg == "" || seg[|seg| - 1] != ']' || !OneLine(seg) then None
    else
      var open := LastIndexOf(seg[..|seg| - 1], '[');
      if open.None? || open.value == 0 then None
      else Some((seg[..open.value], seg[open.value + 1..|seg| - 1]))
  }

  lemma BracketPosition(name: string, disc: string, k: nat)
    requires k < |name + "[" + disc|
    ensures
      var s := name + "[" + disc;
      s[k] == '[' && '[' !in s[k + 1..] ==> k >= |name| && (k == |name| <==> '[' !in disc)
  {
    var s := name + "[" + disc;
    if k < |name| {
      assert s[k + 1..][|name| - k - 1] == '[';
    } else if k == |name| {
      assert s[k + 1..] == disc;
    } else {
      assert s[k] == disc[k - |name| - 1];
    }
  }

  /** What a printed segment parses to, whatever is in it. */
  lemma ParsePrinted(name: string, disc: string)
    ensures
      var r := ParseSegment(Segment(name, disc));
      && (!OneLine(name) || !OneLine(disc) ==> r.None?)
      && ('[' !in disc && OneLine(name) && OneLine(disc) ==> r == if name == "" then None else Some((name, disc)))
      && ('[' in disc && r.Some? ==> |r.value.0| > |name|)
  {
    var seg := Segment(name, disc);
    var body := name + "[" + disc;
    assert seg[..|seg| - 1] == body;
    if !OneLine(name) {
      var i :| 0 <= i < |name| && IsLineBreak(name[i]);
      assert IsLineBreak(seg[i]);
    } else if !OneLine(disc) {
      var i :| 0 <= i < |disc| && IsLineBreak(disc[i]);
      assert IsLineBreak(seg[|name| + 1 + i]);
    } else {
      assert OneLine(seg);
      var open := LastIndexOf(body, '[');
      assert body[|name|] == '[';
      BracketPosition(name, disc, open.value);
      if '[' !in disc {
        assert seg[..open.value] == name;
        assert seg[open.value + 1..|seg| - 1] == disc;
      }
    }
  }

  /** Parsing finds exactly the split whose discriminator holds no opening bracket. */
  lemma ParseSegmentIff(seg: string, name: string, disc: string)
    ensures ParseSegment(seg) == Some((name, disc))
       <==> seg == Segment(name, disc) && name != "" && '[' !in disc && OneLine(seg)
  {
    if ParseSegment(seg) == Some((name, disc)) {
      var open := LastIndexOf(seg[..|seg| - 1], '[').value;
      assert seg == seg[..open] + [seg[open]] + seg[open + 1..|seg| - 1] + [seg[|seg| - 1]];
      assert seg[..|seg| - 1][open + 1..] == disc;
    }
    if seg == Segment(name, disc) && name != "" && '[' !in disc && OneLine(seg) {
      forall i | 0 <= i < |name| ensures !IsLineBreak(name[i]) {
        assert seg[i] == name[i];
      }
      forall i | 0 <= i < |disc| ensures !IsLineBreak(disc[i]) {
        assert seg[|name| + 1 + i] == disc[i];
      }
      ParsePrinted(name, disc);
    }
  }

  // ---------------------------------------------------------------- one level of siblings

  /** How many of the first `n` siblings are unkeyed and called `name`. */
  function UnkeyedBefore(items: seq<Item>, name: string, n: nat): nat
    requires n <= |items|
  {
    if n == 0 then 0
    else UnkeyedBefore(items, name, n - 1) + (if items[n - 1] == Item(name, None) then 1 else 0)
  }

  /** The first place of a sibling in its row. */
  function FirstPlace(ids: seq<Id>, n: Id): (i: nat)
    requires n in ids
    ensures i < |ids| && ids[i] == n && n !in ids[..i]
  {
    if ids[0] == n then 0 else FirstPlace(ids[1..], n) + 1
  }

  lemma {:induction false} FirstPlaceIs(ids: seq<Id>, n: Id, i: nat)
    requires i < |ids| && ids[i] == n && n !in ids[..i]
    ensures n in ids && FirstPlace(ids, n) == i
  {
    if i > 0 {
      assert ids[..i][0] == ids[0] && ids[..i][1..] == ids[1..][..i - 1];
      FirstPlaceIs(ids[1..], n, i - 1);
    }
  }

  /** How many unkeyed namesakes stand before a sibling; 0 for one its row does not hold. */
  function OccurrenceIn(ids: seq<Id>, items: seq<Item>, name: string, n: Id): nat
    requires |items| == |ids|
  {
    if n in ids then UnkeyedBefore(items, name, FirstPlace(ids, n)) else 0
  }

  function Discriminator(items: seq<Item>, i: nat): string
    requires i < |items|
  {
    match items[i].key
    case Some(key) => key
    case None => Decimal(UnkeyedBefore(items, items[i].name, i))
  }

  function SegmentAt(items: seq<Item>, i: nat): string
    requires i < |items|
  {
    Segment(items[i].name, Discriminator(items, i))
  }

  /** The first sibling from position `i` on with this name and key. */
  function ByKey(items: seq<Item>, name: string, key: string, i: nat): (r: Option<nat>)
    requires i <= |items|
    ensures r.Some? ==> i <= r.value < |items| && items[r.value] == Item(name, Some(key))
    ensures r.Some? ==> forall j :: i <= j < r.value ==> items[j] != Item(name, Some(key))
    ensures r.None? ==> forall j :: i <= j < |items| ==> items[j] != Item(name, Some(key))
    decreases |items| - i
  {
    if i == |items| then None
    else if items[i] == Item(name, Some(key)) then Some(i)
    else ByKey(items, name, key, i + 1)
  }

  /** The unkeyed sibling of this name that has `index - matched` more of them before it, from position `i` on. */
  function ByIndex(items: seq<Item>, name: string, index: nat, i: nat, matched: nat): (r: Option<nat>)
    requires i <= |items|
    ensures r.Some? ==> r.value < |items|
    decreases |items| - i
  {
    if i == |items| then None
    else if items[i] == Item(name, None) then
      if matched == index then Some(i) else ByIndex(items, name, index, i + 1, matched + 1)
    else ByIndex(items, name, index, i + 1, matched)
  }

  /** A numeric discriminator is tried as a key first and as an occurrence number after that. */
  function FindChild(items: seq<Item>, name: string, disc: string): (r: Option<nat>)
    ensures r.Some? ==> r.value < |items|
  {
    var keyed := ByKey(items, name, disc, 0);
    if IsNumeric(disc) && keyed.None? then ByIndex(items, name, ParseDecimal(disc), 0, 0) else keyed
  }

  /** One step of a resolver: parse the segment, then look among the siblings. */
  function Step(items: seq<Item>, seg: string): (r: Option<nat>)
    ensures r.Some? ==> r.value < |items|
  {
    var parsed := ParseSegment(seg);
    if parsed.None? then None else FindChild(items, parsed.value.0, parsed.value.1)
  }

  lemma {:induction false} ByIndexFinds(items: seq<Item>, i: nat, k: nat)
    requires k <= i < |items| && items[i].key.None?
    ensures ByIndex(items, items[i].name, UnkeyedBefore(items, items[i].name, i), k,
                    UnkeyedBefore(items, items[i].name, k)) == Some(i)
    decreases i - k
  {
    var name := items[i].name;
    if k < i {
      ByIndexFinds(items, i, k + 1);
      UnkeyedBeforeMonotonic(items, name, k + 1, i);
    } else {
      assert items[i] == Item(name, None);
    }
  }

  lemma {:induction false} UnkeyedBeforeMonotonic(items: seq<Item>, name: string, m: nat, n: nat)
    requires m <= n <= |items|
    ensures UnkeyedBefore(items, name, m) <= UnkeyedBefore(items, name, n)
  {
    if m < n {
      UnkeyedBeforeMonotonic(items, name, m, n - 1);
    }
  }

  /** A found child has the name it was looked for by. */
  lemma {:induction false} ByIndexName(items: seq<Item>, name: string, index: nat, i: nat, matched: nat)
    requires i <= |items|
    ensures
      var r := ByIndex(items, name, index, i, matched);
      r.Some? ==> items[r.value] == Item(name, None)
    decreases |items| - i
  {
    if i < |items| && !(items[i] == Item(name, None) && matched == index) {
      ByIndexName(items, name, index, i + 1, if items[i] == Item(name, None) then matched + 1 else matched);
    }
  }

  lemma FoundName(items: seq<Item>, name: string, disc: string)
    ensures FindChild(items, name, disc).Some? ==> items[FindChild(items, name, disc).value].name == name
  {
    if IsNumeric(disc) {
      ByIndexName(items, name, ParseDecimal(disc), 0, 0);
    }
  }

  /** Neither the name nor the key breaks the grammar of a segment (the separator `/` aside). */
  predicate Printable(item: Item) {
    && item.name != "" && OneLine(item.name)
    && (item.key.Some? ==> OneLine(item.key.value) && '[' !in item.key.value)
  }

  /** No sibling answers to the discriminator of sibling `i` before it does. */
  predicate Unambiguous(items: seq<Item>, i: nat)
    requires i < |items|
  {
    match items[i].key
    case Some(key) => forall j :: 0 <= j < i ==> items[j] != items[i]
    case None =>
      var occurrence := Decimal(UnkeyedBefore(items, items[i].name, i));
      forall j :: 0 <= j < |items| ==> items[j] != Item(items[i].name, Some(occurrence))
  }

  lemma DecimalPrintable(n: nat)
    ensures OneLine(Decimal(n)) && '[' !in Decimal(n) && '/' !in Decimal(n)
  {
    var s := Decimal(n);
    forall i | 0 <= i < |s|
      ensures !IsLineBreak(s[i]) && s[i] != '[' && s[i] != '/'
    {
      assert IsDigit(s[i]);
    }
  }

  /** Resolving the segment of a sibling gives that sibling exactly when it is printable and unambiguous. */
  lemma StepIff(items: seq<Item>, i: nat)
    requires i < |items|
    ensures Step(items, SegmentAt(items, i)) == Some(i) <==> Printable(items[i]) && Unambiguous(items, i)
  {
    var name, disc := items[i].name, Discriminator(items, i);
    var n := UnkeyedBefore(items, name, i);
    DecimalPrintable(n);
    ParsePrinted(name, disc);
    if !Printable(items[i]) {
      var parsed := ParseSegment(SegmentAt(items, i));
      if parsed.Some? {
        FoundName(items, parsed.value.0, parsed.value.1);
      }
    } else if items[i].key.None? {
      DecimalRoundTrip(n);
      ByIndexFinds(items, i, 0);
    } else {
      assert items[i] == Item(name, Some(disc));
    }
  }

  // ---------------------------------------------------------------- which segments lead to a sibling

  lemma {:induction false} ByIndexCount(items: seq<Item>, name: string, index: nat, i: nat, matched: nat)
    requires i <= |items| && matched == UnkeyedBefore(items, name, i)
    ensures
      var r := ByIndex(items, name, index, i, matched);
      r.Some? ==> UnkeyedBefore(items, name, r.value) == index
    decreases |items| - i
  {
    if i < |items| && !(items[i] == Item(name, None) && matched == index) {
      ByIndexCount(items, name, index, i + 1, if items[i] == Item(name, None) then matched + 1 else matched);
    }
  }

  /** An occurrence index leads to the one unkeyed sibling with that many before it. */
  lemma ByIndexIff(items: seq<Item>, name: string, index: nat, i: nat)
    requires i < |items|
    ensures ByIndex(items, name, index, 0, 0) == Some(i)
       <==> items[i] == Item(name, None) && UnkeyedBefore(items, name, i) == index
  {
    ByIndexName(items, name, index, 0, 0);
    ByIndexCount(items, name, index, 0, 0);
    if items[i] == Item(name, None) {
      ByIndexFinds(items, i, 0);
    }
  }

  /** What sibling `i` answers to: its own key, first of its kind, or any
   * numeral of its occurrence number that is no key. */
  predicate AnswersTo(items: seq<Item>, i: nat, disc: string)
    requires i < |items|
  {
    var name := items[i].name;
    match items[i].key
    case Some(key) => disc == key && forall j :: 0 <= j < i ==> items[j] != items[i]
    case None =>
      && IsNumeric(disc) && ParseDecimal(disc) == UnkeyedBefore(items, name, i)
      && forall j :: 0 <= j < |items| ==> items[j] != Item(name, Some(disc))
  }

  lemma FindChildIff(items: seq<Item>, name: string, disc: string, i: nat)
    requires i < |items|
    ensures FindChild(items, name, disc) == Some(i) <==> items[i].name == name && AnswersTo(items, i, disc)
  {
    FoundName(items, name, disc);
    if IsNumeric(disc) {
      ByIndexIff(items, name, ParseDecimal(disc), i);
    }
    if items[i].key == Some(disc) && items[i].name == name {
      assert items[i] == Item(name, Some(disc));
    }
  }

  lemma OneLineSegment(name: string, disc: string)
    ensures OneLine(Segment(name, disc)) <==> OneLine(name) && OneLine(disc)
  {
    var seg := Segment(name, disc);
    assert forall i :: 0 <= i < |name| ==> seg[i] == name[i];
    assert forall i :: 0 <= i < |disc| ==> seg[|name| + 1 + i] == disc[i];
    assert seg[|name|] == '[' && seg[|seg| - 1] == ']';
    assert OneLine(name) && OneLine(disc) ==> forall i :: 0 <= i < |seg| ==> !IsLineBreak(seg[i]);
  }

  /** The segment is the sibling's name with a discriminator it answers to, and can be parsed. */
  ghost predicate LeadsTo(items: seq<Item>, seg: string, i: nat, disc: string)
    requires i < |items|
  {
    var name := items[i].name;
    && seg == Segment(name, disc) && AnswersTo(items, i, disc)
    && name != "" && OneLine(name) && OneLine(disc) && '[' !in disc
  }

  ghost predicate Leads(items: seq<Item>, seg: string, i: nat)
    requires i < |items|
  {
    exists disc :: LeadsTo(items, seg, i, disc)
  }

  /** Every text that leads one step down to a sibling, and no other. */
  lemma StepResolvesIff(items: seq<Item>, seg: string, i: nat)
    requires i < |items|
    ensures Step(items, seg) == Some(i) <==> Leads(items, seg, i)
  {
    var parsed := ParseSegment(seg);
    if parsed.Some? {
      var (name, disc) := parsed.value;
      ParseSegmentIff(seg, name, disc);
      FindChildIff(items, name, disc, i);
      OneLineSegment(name, disc);
      assert Step(items, seg) == Some(i) ==> LeadsTo(items, seg, i, disc);
    }
    if disc :| LeadsTo(items, seg, i, disc) {
      OneLineSegment(items[i].name, disc);
      ParseSegmentIff(seg, items[i].name, disc);
      FindChildIff(items, items[i].name, disc, i);
    }
  }

  // ---------------------------------------------------------------- a whole tree

  /**
   * A rooted tree: the children of every node in order, its parent and its position among the
   * children of that parent, what ids record of it, and its distance from the root.
   */
  datatype Tree = Tree(kids: map<Id, seq<Id>>, up: map<Id, Id>, pos: map<Id, nat>, item: map<Id, Item>,
                       depth: map<Id, nat>, height: nat)

  ghost predicate WellLinked(t: Tree, root: Id) {
    && root in t.kids && root !in t.up
    && t.depth.Keys == t.kids.Keys && t.item.Keys == t.kids.Keys && t.pos.Keys == t.up.Keys
    && t.depth[root] == 0
    && (forall n {:trigger n in t.kids} :: n in t.kids ==> (n == root || n in t.up) && t.depth[n] <= t.height)
    && (forall c {:trigger t.up[c]} :: c in t.up ==>
          && c in t.kids && t.up[c] in t.kids && t.depth[c] == t.depth[t.up[c]] + 1
          && t.pos[c] < |t.kids[t.up[c]]| && t.kids[t.up[c]][t.pos[c]] == c)
    && (forall p, i {:trigger t.kids[p][i]} :: p in t.kids && 0 <= i < |t.kids[p]| ==>
          && t.kids[p][i] in t.up && t.up[t.kids[p][i]] == p && t.pos[t.kids[p][i]] == i)
  }

  function ItemAt(t: Tree, n: Id): Item { if n in t.item then t.item[n] else Item("", None) }

  /** What ids record of the children of `p`. */
  function Siblings(t: Tree, p: Id): (items: seq<Item>)
    requires p in t.kids
    ensures |items| == |t.kids[p]|
    ensures forall i :: 0 <= i < |items| ==> items[i] == ItemAt(t, t.kids[p][i])
  {
    seq(|t.kids[p]|, i requires 0 <= i < |t.kids[p]| => ItemAt(t, t.kids[p][i]))
  }

  /** The segment written for a node below the root. */
  ghost function SegmentOf(t: Tree, root: Id, n: Id): string
    requires WellLinked(t, root) && n in t.up
  {
    SegmentAt(Siblings(t, t.up[n]), t.pos[n])
  }

  /** The segments from the root down to `n`. */
  ghost function SegmentsTo(t: Tree, root: Id, n: Id): (segs: seq<string>)
    requires WellLinked(t, root) && n in t.kids
    ensures |segs| == t.depth[n]
    decreases t.depth[n]
  {
    if n == root then [] else SegmentsTo(t, root, t.up[n]) + [SegmentOf(t, root, n)]
  }

  /** Walking down from `n`, one segment at a time. */
  ghost function Descend(t: Tree, root: Id, n: Id, segs: seq<string>): (r: Option<Id>)
    requires WellLinked(t, root) && n in t.kids
    ensures r.Some? ==> r.value in t.kids && t.depth[r.value] == t.depth[n] + |segs|
    decreases |segs|
  {
    if segs == [] then Some(n)
    else
      var k := Step(Siblings(t, n), segs[0]);
      if k.None? then None else Descend(t, root, t.kids[n][k.value], segs[1..])
  }

  /** One segment further down. */
  lemma DescendFrom(t: Tree, root: Id, n: Id, segs: seq<string>, i: nat)
    requires WellLinked(t, root) && n in t.kids && i < |segs|
    ensures forall k :: 0 <= k < |t.kids[n]| ==> t.kids[n][k] in t.kids
    ensures
      var k := Step(Siblings(t, n), segs[i]);
      Descend(t, root, n, segs[i..]) == if k.None? then None else Descend(t, root, t.kids[n][k.value], segs[i + 1..])
  {
    var rest, k := segs[i..], Step(Siblings(t, n), segs[i]);
    assert rest != [] && rest[0] == segs[i] && rest[1..] == segs[i + 1..];
    assert k.None? ==> Descend(t, root, n, rest) == None;
  }

  lemma {:induction false} DescendLast(t: Tree, root: Id, n: Id, segs: seq<string>, last: string)
    requires WellLinked(t, root) && n in t.kids
    ensures
      var r := Descend(t, root, n, segs);
      Descend(t, root, n, segs + [last]) == if r.None? then None else Descend(t, root, r.value, [last])
    decreases |segs|
  {
    if segs == [] {
      assert segs + [last] == [last];
    } else {
      assert (segs + [last])[1..] == segs[1..] + [last];
      var k := Step(Siblings(t, n), segs[0]);
      if k.Some? {
        DescendLast(t, root, t.kids[n][k.value], segs[1..], last);
      }
    }
  }

  /** A node stands once in its parent's list, at its position. */
  lemma TreePlace(t: Tree, root: Id, n: Id)
    requires WellLinked(t, root) && n in t.up
    ensures n in t.kids[t.up[n]] && FirstPlace(t.kids[t.up[n]], n) == t.pos[n]
  {
    var ids, k := t.kids[t.up[n]], t.pos[n];
    forall i | 0 <= i < k ensures ids[i] != n {
      assert t.pos[ids[i]] == i;
    }
    FirstPlaceIs(ids, n, k);
  }

  /** A node below the root whose segment leads back to it. */
  ghost predicate StepOk(t: Tree, root: Id, n: Id)
    requires WellLinked(t, root) && n in t.up
  {
    Printable(t.item[n]) && Unambiguous(Siblings(t, t.up[n]), t.pos[n])
  }

  /** Every node from below the root down to `n` is printable and unambiguous among its siblings. */
  ghost predicate PathOk(t: Tree, root: Id, n: Id)
    requires WellLinked(t, root) && n in t.kids
    decreases t.depth[n]
  {
    n == root || (PathOk(t, root, t.up[n]) && StepOk(t, root, n))
  }

  lemma LastStep(t: Tree, root: Id, p: Id, n: Id)
    requires WellLinked(t, root) && p in t.kids && n in t.up
    ensures Descend(t, root, p, [SegmentOf(t, root, n)]) == Some(n) <==> p == t.up[n] && StepOk(t, root, n)
  {
    var seg := SegmentOf(t, root, n);
    var k := Step(Siblings(t, p), seg);
    var rest: seq<string> := [seg][1..];
    assert rest == [];
    var i := t.pos[n];
    if p == t.up[n] {
      StepIff(Siblings(t, p), i);
      if k.Some? && k.value != i {
        assert t.kids[p][k.value] != t.kids[p][i];
      }
    } else if k.Some? {
      assert t.up[t.kids[p][k.value]] == p;
    }
  }

  /** Walking down the segments of a node leads back to it exactly when every step of the way does. */
  lemma {:induction false} DescendIff(t: Tree, root: Id, n: Id)
    requires WellLinked(t, root) && n in t.kids
    ensures Descend(t, root, root, SegmentsTo(t, root, n)) == Some(n) <==> PathOk(t, root, n)
    decreases t.depth[n]
  {
    if n != root {
      var p := t.up[n];
      DescendIff(t, root, p);
      var segs := SegmentsTo(t, root, p);
      DescendLast(t, root, root, segs, SegmentOf(t, root, n));
      var r := Descend(t, root, root, segs);
      if r.Some? {
        LastStep(t, root, r.value, n);
      }
    }
  }

  /** Each segment leads one step down the path to `n`. */
  ghost predicate PathAnswers(t: Tree, root: Id, n: Id, segs: seq<string>)
    requires WellLinked(t, root) && n in t.kids
    decreases t.depth[n]
  {
    if n == root then segs == []
    else
      && segs != [] && PathAnswers(t, root, t.up[n], segs[..|segs| - 1])
      && Leads(Siblings(t, t.up[n]), segs[|segs| - 1], t.pos[n])
  }

  lemma LastStepTo(t: Tree, root: Id, p: Id, n: Id, seg: string)
    requires WellLinked(t, root) && p in t.kids && n in t.up
    ensures Descend(t, root, p, [seg]) == Some(n) <==> p == t.up[n] && Step(Siblings(t, p), seg) == Some(t.pos[n])
  {
    var k := Step(Siblings(t, p), seg);
    var rest: seq<string> := [seg][1..];
    assert rest == [];
    if p == t.up[n] {
      if k.Some? && k.value != t.pos[n] {
        assert t.kids[p][k.value] != t.kids[p][t.pos[n]];
      }
    } else if k.Some? {
      assert t.up[t.kids[p][k.value]] == p;
    }
  }

  lemma DescendByLast(t: Tree, root: Id, segs: seq<string>, front: seq<string>, last: string)
    requires WellLinked(t, root) && segs == front + [last]
    ensures
      var r := Descend(t, root, root, front);
      Descend(t, root, root, segs) == if r.None? then None else Descend(t, root, r.value, [last])
  {
    DescendLast(t, root, root, front, last);
  }

  lemma AllButLast(segs: seq<string>)
    requires segs != []
    ensures segs == segs[..|segs| - 1] + [segs[|segs| - 1]]
  {}

  /** One segment more, from a node reached or not. */
  lemma LastLeads(t: Tree, root: Id, n: Id, segs: seq<string>, front: seq<string>, last: string)
    requires WellLinked(t, root) && n in t.up && segs == front + [last]
    ensures Descend(t, root, root, segs) == Some(n)
       <==> Descend(t, root, root, front) == Some(t.up[n]) && Leads(Siblings(t, t.up[n]), last, t.pos[n])
  {
    DescendByLast(t, root, segs, front, last);
    var r := Descend(t, root, root, front);
    if r.Some? {
      LastStepTo(t, root, r.value, n, last);
    }
    StepResolvesIff(Siblings(t, t.up[n]), last, t.pos[n]);
  }

  lemma OnlyTheEmptyPathStays(t: Tree, root: Id, segs: seq<string>)
    requires WellLinked(t, root)
    ensures Descend(t, root, root, segs) == Some(root) <==> segs == []
  {}

  /** Every list of segments that leads from the root down to `n`, and no other. */
  lemma {:induction false} DescendResolvesIff(t: Tree, root: Id, n: Id, segs: seq<string>)
    requires WellLinked(t, root) && n in t.kids
    ensures Descend(t, root, root, segs) == Some(n) <==> PathAnswers(t, root, n, segs)
    decreases |segs|
  {
    if n == root {
      OnlyTheEmptyPathStays(t, root, segs);
    } else if segs != [] {
      DescendResolvesIff(t, root, t.up[n], segs[..|segs| - 1]);
      AllButLast(segs);
      LastLeads(t, root, n, segs, segs[..|segs| - 1], segs[|segs| - 1]);
    }
  }

  // ---------------------------------------------------------------- whole ids

  function RootSegment(rootIndex: nat): string { "root" + Decimal(rootIndex) }

  /** `/^root(\d+)$/` */
  function ParseRoot(head: string): Option<nat> {
    if |head| > 4 && head[..4] == "root" && IsNumeric(head[4..]) then Some(ParseDecimal(head[4..])) else None
  }

  lemma RootRoundTrip(rootIndex: nat)
    ensures ParseRoot(RootSegment(rootIndex)) == Some(rootIndex)
    ensures '/' !in RootSegment(rootIndex)
  {
    var head := RootSegment(rootIndex);
    assert head[..4] == "root";
    assert head[4..] == Decimal(rootIndex);
    DecimalRoundTrip(rootIndex);
    DecimalPrintable(rootIndex);
  }

  /** The texts that parse as a root index: any numeral of it, leading zeros included. */
  lemma ParseRootIff(head: string, rootIndex: nat)
    ensures ParseRoot(head) == Some(rootIndex)
       <==> exists digits :: head == "root" + digits && IsNumeric(digits) && ParseDecimal(digits) == rootIndex
  {
    if ParseRoot(head) == Some(rootIndex) {
      assert head == "root" + head[4..];
    }
    if digits :| head == "root" + digits && IsNumeric(digits) && ParseDecimal(digits) == rootIndex {
      assert head[..4] == "root" && head[4..] == digits;
    }
  }

  predicate SlashFree(segs: seq<string>) { forall i :: 0 <= i < |segs| ==> '/' !in segs[i] }

  lemma SlashFreeAppend(a: seq<string>, b: seq<string>)
    ensures SlashFree(a + b) <==> SlashFree(a) && SlashFree(b)
  {
    assert forall i :: 0 <= i < |a| ==> (a + b)[i] == a[i];
    assert forall i :: 0 <= i < |b| ==> (a + b)[|a| + i] == b[i];
  }

  lemma SlashFreeOne(seg: string)
    ensures SlashFree([seg]) <==> '/' !in seg
  {
    assert [seg][0] == seg;
  }

  /** The text `root<digits>/<seg>/...` of pieces that hold no separator. */
  ghost predicate IsText(stableId: string, digits: string, segs: seq<string>) {
    && IsNumeric(digits) && SlashFree(segs)
    && stableId == Join(["root" + digits] + segs, '/')
  }

  /** A text splits into a root index and segments exactly when it is written that way. */
  lemma TextIff(stableId: string, digits: string, segs: seq<string>)
    requires IsNumeric(digits)
    ensures IsText(stableId, digits, segs) <==> Split(stableId, '/') == ["root" + digits] + segs
  {
    var pieces := ["root" + digits] + segs;
    JoinSplit(stableId, '/');
    assert '/' !in "root" + digits;
    assert forall i :: 0 <= i < |segs| ==> pieces[i + 1] == segs[i];
    if IsText(stableId, digits, segs) {
      forall i | 0 <= i < |pieces| ensures '/' !in pieces[i] {
        assert i > 0 ==> pieces[i] == segs[i - 1];
      }
      SplitJoin(pieces, '/');
    }
  }

  /** The numeral and the segments of a text whose root segment parses. */
  lemma TextOf(stableId: string) returns (digits: string, segs: seq<string>)
    requires ParseRoot(Split(stableId, '/')[0]).Some?
    ensures IsText(stableId, digits, segs)
  {
    var pieces := Split(stableId, '/');
    digits, segs := pieces[0][4..], pieces[1..];
    assert pieces[0] == pieces[0][..4] + digits;
    assert pieces == [pieces[0]] + segs;
    TextIff(stableId, digits, segs);
  }

  function IdOf(rootIndex: nat, segs: seq<string>): string { Join([RootSegment(rootIndex)] + segs, '/') }

  /** The pieces an id splits into: the root, then the segments - more of them when a `/` hides in one. */
  lemma IdPieces(rootIndex: nat, segs: seq<string>)
    ensures
      var pieces := Split(IdOf(rootIndex, segs), '/');
      && pieces[0] == RootSegment(rootIndex)
      && |pieces| >= 1 + |segs|
      && (SlashFree(segs) ==> pieces[1..] == segs)
      && (!SlashFree(segs) ==> |pieces| > 1 + |segs|)
  {
    var head := RootSegment(rootIndex);
    var all := [head] + segs;
    RootRoundTrip(rootIndex);
    SplitNone(head, '/');
    if segs != [] {
      assert all[1..] == segs;
      SplitAt(head, Join(segs, '/'), '/');
    }
    SplitJoinCount(all, '/');
    if i :| 0 <= i < |segs| && '/' in segs[i] {
      assert '/' in all[i + 1];
    } else {
      forall i | 0 <= i < |all|
        ensures '/' !in all[i]
      {
        assert i > 0 ==> all[i] == segs[i - 1];
      }
      SplitJoin(all, '/');
    }
  }

  /** No `/` in the name or the key. */
  predicate NoSlash(item: Item) { '/' !in item.name && (item.key.Some? ==> '/' !in item.key.value) }

  ghost predicate PathNoSlash(t: Tree, root: Id, n: Id)
    requires WellLinked(t, root) && n in t.kids
    decreases t.depth[n]
  {
    n == root || (PathNoSlash(t, root, t.up[n]) && NoSlash(t.item[n]))
  }

  lemma SegmentSlash(t: Tree, root: Id, n: Id)
    requires WellLinked(t, root) && n in t.up
    ensures '/' !in SegmentOf(t, root, n) <==> NoSlash(t.item[n])
  {
    var items, i := Siblings(t, t.up[n]), t.pos[n];
    var name, disc := items[i].name, Discriminator(items, i);
    DecimalPrintable(UnkeyedBefore(items, name, i));
    assert '/' in Segment(name, disc) <==> '/' in name || '/' in disc;
  }

  lemma {:induction false} SegmentsSlash(t: Tree, root: Id, n: Id)
    requires WellLinked(t, root) && n in t.kids
    ensures SlashFree(SegmentsTo(t, root, n)) <==> PathNoSlash(t, root, n)
    decreases t.depth[n]
  {
    if n != root {
      SegmentsSlash(t, root, t.up[n]);
      SegmentSlash(t, root, n);
      SlashFreeAppend(SegmentsTo(t, root, t.up[n]), [SegmentOf(t, root, n)]);
      SlashFreeOne(SegmentOf(t, root, n));
    }
  }

  /** An id leads back to the node it was made from exactly when its path is printable, unambiguous and free of `/`. */
  lemma IdIff(t: Tree, root: Id, n: Id, rootIndex: nat)
    requires WellLinked(t, root) && n in t.kids
    ensures Descend(t, root, root, Split(IdOf(rootIndex, SegmentsTo(t, root, n)), '/')[1..]) == Some(n)
       <==> PathOk(t, root, n) && PathNoSlash(t, root, n)
  {
    var segs := SegmentsTo(t, root, n);
    IdPieces(rootIndex, segs);
    SegmentsSlash(t, root, n);
    DescendIff(t, root, n);
  }
}
