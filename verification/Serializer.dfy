/** Turning console arguments into plain data (`serializeValue`, `serializeArgs` in captures/serialize.ts). */
module Serializer {
  import opened Prelude

  type Ref = nat

  datatype Value =
    | Undefined
    | Null
    | Bool(b: bool)
    | Text(s: string)
    | Number(n: Num)
    | BigInt(digits: string)
    | Symbol(description: string)
    | Function(called: Option<string>)
    | Object(ref: Ref)

  /** What a reference leads to; a plain object has its own enumerable keys in order, with their values. */
  datatype Obj =
    | DomNode(nodeName: string, domId: Option<string>)
    | Error(name: string, message: string, stack: Option<string>)
    | Promise
    | Array(items: seq<Value>)
    | Plain(keys: seq<string>, values: seq<Value>)

  datatype Leaf =
    | NullOut
    | UndefinedOut
    | BoolOut(b: bool)
    | TextOut(s: string)
    | NumberOut(r: real)
    | FunctionTag(called: Option<string>)
    | DomTag(nodeName: string, domId: Option<string>)
    | ErrorTag(errorName: string, message: string, stack: Option<string>)
    | PromiseTag

  datatype Out =
    | LeafOut(leaf: Leaf)
    | CycleTag
    | ArrayOut(items: Outs)
    | PlainOut(keys: seq<string>, values: Outs)

  datatype Outs = End | More(head: Out, rest: Outs)

  type Heap = map<Ref, Obj>

  function Children(o: Obj): seq<Value> {
    match o
    case Array(items) => items
    case Plain(_, values) => values
    case _ => []
  }

  predicate InHeap(h: Heap, v: Value) { v.Object? ==> v.ref in h }

  ghost predicate AllInHeap(h: Heap, vs: seq<Value>) { forall i :: 0 <= i < |vs| ==> InHeap(h, vs[i]) }

  /** References lead somewhere, and a plain object has a value for each key. */
  ghost predicate Closed(h: Heap) {
    forall r {:trigger h[r]} :: r in h ==>
      AllInHeap(h, Children(h[r])) && (h[r].Plain? ==> |h[r].keys| == |h[r].values|)
  }

  type Graph = h: Heap | Closed(h) witness map[]

  function Unless(s: Option<string>): Option<string> { if s == Some("") then None else s }

  /** Everything that is not an object. */
  function Primitive(v: Value): Leaf
    requires !v.Object?
  {
    match v
    case Undefined => UndefinedOut
    case Null => NullOut
    case Bool(b) => BoolOut(b)
    case Text(s) => TextOut(s)
    case Number(Fin(r)) => NumberOut(r)
    case Number(NaN) => TextOut("NaN")
    case Number(PosInf) => TextOut("Infinity")
    case Number(NegInf) => TextOut("-Infinity")
    case BigInt(digits) => TextOut(digits + "n")
    case Symbol(d) => TextOut(d)
    case Function(name) => FunctionTag(Unless(name))
  }

  /** What an object becomes, given what its children became. */
  function Rebuilt(o: Obj, kids: Outs): Out {
    match o
    case DomNode(nodeName, domId) => LeafOut(DomTag(nodeName, Unless(domId)))
    case Error(name, message, stack) => LeafOut(ErrorTag(name, message, stack))
    case Promise => LeafOut(PromiseTag)
    case Array(_) => ArrayOut(kids)
    case Plain(keys, _) => PlainOut(keys, kids)
  }

  // ---------------------------------------------------------------- the walk

  lemma SubsetSize<T>(a: set<T>, b: set<T>)
    requires a <= b
    ensures |a| <= |b|
  {
    if a != {} {
      var x :| x in a;
      SubsetSize(a - {x}, b - {x});
    }
  }

  /** How many objects are still unseen. */
  ghost function Unseen(h: Graph, seen: set<Ref>): nat { |h.Keys - seen| }

  lemma SeeingShrinks(h: Graph, seen: set<Ref>, seen': set<Ref>)
    requires seen <= seen'
    ensures Unseen(h, seen') <= Unseen(h, seen)
    ensures forall r :: r in h && r !in seen && r in seen' ==> Unseen(h, seen') < Unseen(h, seen)
  {
    SubsetSize(h.Keys - seen', h.Keys - seen);
    forall r | r in h && r !in seen && r in seen'
      ensures Unseen(h, seen') < Unseen(h, seen)
    {
      SubsetSize(h.Keys - seen', h.Keys - seen - {r});
    }
  }

  datatype Walked = Walked(out: Out, seen: set<Ref>)
  datatype WalkedAll = WalkedAll(outs: Outs, seen: set<Ref>)

  ghost function Walk(h: Graph, v: Value, seen: set<Ref>): (r: Walked)
    requires InHeap(h, v)
    ensures seen <= r.seen
    decreases Unseen(h, seen), 0, 0
  {
    if !v.Object? then Walked(LeafOut(Primitive(v)), seen)
    else if v.ref in seen then Walked(CycleTag, seen)
    else
      SeeingShrinks(h, seen, seen + {v.ref});
      var kids := WalkAll(h, Children(h[v.ref]), seen + {v.ref});
      Walked(Rebuilt(h[v.ref], kids.outs), kids.seen)
  }

  ghost function WalkAll(h: Graph, vs: seq<Value>, seen: set<Ref>): (r: WalkedAll)
    requires AllInHeap(h, vs)
    ensures seen <= r.seen
    decreases Unseen(h, seen), 1, |vs|
  {
    if vs == [] then WalkedAll(End, seen)
    else
      var first := Walk(h, vs[0], seen);
      SeeingShrinks(h, seen, first.seen);
      var rest := WalkAll(h, vs[1..], first.seen);
      WalkedAll(More(first.out, rest.outs), rest.seen)
  }

  /** The `WeakSet` shared by one argument's walk. */
  class Seen {
    var refs: set<Ref>

    constructor ()
      ensures refs == {}
    {
      refs := {};
    }
  }

  function Snoc(outs: Outs, o: Out): Outs {
    match outs
    case End => More(o, End)
    case More(head, rest) => More(head, Snoc(rest, o))
  }

  /** The walk over a list, one element further. */
  lemma {:induction false} WalkSnoc(h: Graph, vs: seq<Value>, v: Value, seen: set<Ref>)
    requires AllInHeap(h, vs + [v])
    ensures AllInHeap(h, vs) && InHeap(h, v)
    ensures
      var front := WalkAll(h, vs, seen);
      var last := Walk(h, v, front.seen);
      WalkAll(h, vs + [v], seen) == WalkedAll(Snoc(front.outs, last.out), last.seen)
    decreases |vs|
  {
    assert InHeap(h, (vs + [v])[|vs|]);
    forall i | 0 <= i < |vs| ensures InHeap(h, vs[i]) {
      assert InHeap(h, (vs + [v])[i]);
    }
    if vs == [] {
      assert vs + [v] == [v];
      assert [v][1..] == [];
    } else {
      var first := Walk(h, vs[0], seen);
      assert (vs + [v])[1..] == vs[1..] + [v];
      forall i | 0 <= i < |vs[1..] + [v]| ensures InHeap(h, (vs[1..] + [v])[i]) {
        assert InHeap(h, (vs + [v])[i + 1]);
      }
      WalkSnoc(h, vs[1..], v, first.seen);
    }
  }

  /** `serializeValue`: terminates on every graph, cyclic or shared, because
   * each expansion leaves fewer objects unseen. */
  method SerializeValue(h: Graph, v: Value, seen: Seen) returns (out: Out)
    requires InHeap(h, v)
    modifies seen
    ensures Walked(out, seen.refs) == Walk(h, v, old(seen.refs))
    decreases Unseen(h, seen.refs)
  {
    if !v.Object? {
      return LeafOut(Primitive(v));
    }
    if v.ref in seen.refs {
      return CycleTag;
    }
    ghost var before := seen.refs;
    seen.refs := seen.refs + {v.ref};
    ghost var entered := seen.refs;
    var o := h[v.ref];
    var values := Children(o);
    var outs := End;
    for i := 0 to |values|
      invariant AllInHeap(h, values[..i])
      invariant WalkedAll(outs, seen.refs) == WalkAll(h, values[..i], entered)
    {
      assert values[..i + 1] == values[..i] + [values[i]];
      WalkSnoc(h, values[..i], values[i], entered);
      SeeingShrinks(h, before, seen.refs);
      var item := SerializeValue(h, values[i], seen);
      outs := Snoc(outs, item);
    }
    assert values[..|values|] == values;
    out := Rebuilt(o, outs);
  }

  // ---------------------------------------------------------------- each object once

  /** How many objects were expanded into an output. */
  function Objects(o: Out): nat {
    match o
    case LeafOut(leaf) => if leaf.DomTag? || leaf.ErrorTag? || leaf.PromiseTag? then 1 else 0
    case CycleTag => 0
    case ArrayOut(items) => 1 + ObjectsAll(items)
    case PlainOut(_, values) => 1 + ObjectsAll(values)
  }

  function ObjectsAll(outs: Outs): nat {
    match outs
    case End => 0
    case More(head, rest) => Objects(head) + ObjectsAll(rest)
  }

  lemma ObjectsRebuilt(o: Obj, kids: Outs)
    requires Children(o) == [] ==> kids == End
    ensures Objects(Rebuilt(o, kids)) == 1 + ObjectsAll(kids)
  {}

  /** Every expansion in the output is an object seen for the first time, so the output is no larger than the heap. */
  lemma {:induction false} ExpandedOnce(h: Graph, v: Value, seen: set<Ref>)
    requires InHeap(h, v)
    ensures |Walk(h, v, seen).seen| == |seen| + Objects(Walk(h, v, seen).out)
    ensures Walk(h, v, seen).seen <= seen + h.Keys
    decreases Unseen(h, seen), 0, 0
  {
    if v.Object? && v.ref !in seen {
      SeeingShrinks(h, seen, seen + {v.ref});
      var kids := WalkAll(h, Children(h[v.ref]), seen + {v.ref});
      ExpandedOnceAll(h, Children(h[v.ref]), seen + {v.ref});
      assert Walk(h, v, seen) == Walked(Rebuilt(h[v.ref], kids.outs), kids.seen);
      ObjectsRebuilt(h[v.ref], kids.outs);
      assert Children(h[v.ref]) == [] ==> kids.outs == End;
    }
  }

  lemma {:induction false} ExpandedOnceAll(h: Graph, vs: seq<Value>, seen: set<Ref>)
    requires AllInHeap(h, vs)
    ensures |WalkAll(h, vs, seen).seen| == |seen| + ObjectsAll(WalkAll(h, vs, seen).outs)
    ensures WalkAll(h, vs, seen).seen <= seen + h.Keys
    decreases Unseen(h, seen), 1, |vs|
  {
    if vs != [] {
      var first := Walk(h, vs[0], seen);
      ExpandedOnce(h, vs[0], seen);
      SeeingShrinks(h, seen, first.seen);
      ExpandedOnceAll(h, vs[1..], first.seen);
    }
  }

  /** The next object is a child of the one before. */
  ghost predicate Path(h: Graph, p: seq<Ref>) {
    && p != []
    && (forall i :: 0 <= i < |p| ==> p[i] in h)
    && forall i :: 0 < i < |p| ==> Object(p[i]) in Children(h[p[i - 1]])
  }

  ghost predicate Reaches(h: Graph, v: Value, r: Ref) {
    v.Object? && exists p :: Path(h, p) && p[0] == v.ref && p[|p| - 1] == r
  }

  lemma ReachesItself(h: Graph, r: Ref)
    requires r in h
    ensures Reaches(h, Object(r), r)
  {
    assert Path(h, [r]);
  }

  lemma ReachesChild(h: Graph, r: Ref, c: Value, x: Ref)
    requires r in h && c in Children(h[r]) && Reaches(h, c, x)
    ensures Reaches(h, Object(r), x)
  {
    var p :| Path(h, p) && p[0] == c.ref && p[|p| - 1] == x;
    assert Path(h, [r] + p);
  }

  /** The children of whatever was newly seen have been seen. */
  ghost predicate Covered(h: Graph, seen: set<Ref>, seen': set<Ref>) {
    forall r, c :: r in seen' && r !in seen && r in h && c in Children(h[r]) && c.Object? ==> c.ref in seen'
  }

  lemma {:induction false} WalkCovers(h: Graph, v: Value, seen: set<Ref>)
    requires InHeap(h, v)
    ensures Covered(h, seen, Walk(h, v, seen).seen) && (v.Object? ==> v.ref in Walk(h, v, seen).seen)
    ensures forall r :: r in Walk(h, v, seen).seen && r !in seen ==> Reaches(h, v, r)
    decreases Unseen(h, seen), 0, 0
  {
    if v.Object? && v.ref !in seen {
      var entered := seen + {v.ref};
      SeeingShrinks(h, seen, entered);
      WalkAllCovers(h, Children(h[v.ref]), entered);
      ReachesItself(h, v.ref);
      forall r | r in Walk(h, v, seen).seen && r !in entered ensures Reaches(h, v, r) {
        var c :| c in Children(h[v.ref]) && Reaches(h, c, r);
        ReachesChild(h, v.ref, c, r);
      }
    }
  }

  lemma {:induction false} WalkAllCovers(h: Graph, vs: seq<Value>, seen: set<Ref>)
    requires AllInHeap(h, vs)
    ensures Covered(h, seen, WalkAll(h, vs, seen).seen)
    ensures forall c :: c in vs && c.Object? ==> c.ref in WalkAll(h, vs, seen).seen
    ensures forall r :: r in WalkAll(h, vs, seen).seen && r !in seen ==> exists c :: c in vs && Reaches(h, c, r)
    decreases Unseen(h, seen), 1, |vs|
  {
    if vs != [] {
      var first := Walk(h, vs[0], seen);
      WalkCovers(h, vs[0], seen);
      SeeingShrinks(h, seen, first.seen);
      WalkAllCovers(h, vs[1..], first.seen);
      var all := WalkAll(h, vs, seen);
      assert vs == [vs[0]] + vs[1..];
      forall r | r in all.seen && r !in seen ensures exists c :: c in vs && Reaches(h, c, r) {
        if r in first.seen {
          assert Reaches(h, vs[0], r);
        } else {
          var c :| c in vs[1..] && Reaches(h, c, r);
          assert c in vs;
        }
      }
    }
  }

  lemma {:induction false} PathStaysIn(h: Graph, p: seq<Ref>, seen: set<Ref>)
    requires Path(h, p) && p[0] in seen && Covered(h, {}, seen)
    ensures p[|p| - 1] in seen
    decreases |p|
  {
    if |p| > 1 {
      assert Object(p[1]) in Children(h[p[0]]);
      assert forall i :: 0 <= i < |p[1..]| ==> p[1..][i] == p[i + 1];
      PathStaysIn(h, p[1..], seen);
    }
  }

  /** One argument's walk expands exactly the objects reachable from it. */
  lemma ExpandsTheReachable(h: Graph, v: Value, r: Ref)
    requires InHeap(h, v)
    ensures r in Walk(h, v, {}).seen <==> Reaches(h, v, r)
  {
    WalkCovers(h, v, {});
    if Reaches(h, v, r) {
      var p :| Path(h, p) && p[0] == v.ref && p[|p| - 1] == r;
      PathStaysIn(h, p, Walk(h, v, {}).seen);
    }
  }

  // ---------------------------------------------------------------- trees are mirrored

  function Kids(o: Out): Outs {
    match o
    case ArrayOut(items) => items
    case PlainOut(_, values) => values
    case _ => End
  }

  /** A name that is there and not empty. */
  ghost predicate Shown(name: Option<string>, shown: Option<string>) {
    forall s :: shown == Some(s) <==> name == Some(s) && s != ""
  }

  /** What a leaf says of the value it stands for. */
  ghost predicate StandsFor(leaf: Leaf, v: Value) {
    match leaf
    case NullOut => v == Null
    case UndefinedOut => v == Undefined
    case BoolOut(b) => v == Bool(b)
    case NumberOut(r) => v == Number(Fin(r))
    case TextOut(s) =>
      || v == Text(s) || v == Symbol(s) || (v.BigInt? && s == v.digits + "n")
      || (v == Number(NaN) && s == "NaN")
      || (v == Number(PosInf) && s == "Infinity") || (v == Number(NegInf) && s == "-Infinity")
    case FunctionTag(called) => v.Function? && Shown(v.called, called)
    case _ => false
  }

  /** The same for an object without members. */
  ghost predicate Tags(leaf: Leaf, o: Obj) {
    match o
    case DomNode(nodeName, domId) => leaf.DomTag? && leaf.nodeName == nodeName && Shown(domId, leaf.domId)
    case Error(name, message, stack) => leaf == ErrorTag(name, message, stack)
    case Promise => leaf == PromiseTag
    case _ => false
  }

  /** The output is the value, object for object and member for member, all the way down. */
  ghost predicate Mirrors(h: Graph, v: Value, o: Out)
    requires InHeap(h, v)
    decreases o
  {
    match o
    case LeafOut(leaf) => if v.Object? then Tags(leaf, h[v.ref]) else StandsFor(leaf, v)
    case CycleTag => false
    case ArrayOut(items) => v.Object? && h[v.ref].Array? && MirrorsAll(h, h[v.ref].items, items)
    case PlainOut(keys, values) =>
      v.Object? && h[v.ref].Plain? && keys == h[v.ref].keys && MirrorsAll(h, h[v.ref].values, values)
  }

  lemma ShownIs(name: Option<string>, shown: Option<string>)
    ensures Shown(name, shown) <==> shown == Unless(name)
  {
    if shown.Some? && Shown(name, shown) {
      assert name == Some(shown.value);
    }
    if Unless(name).Some? && Shown(name, shown) {
      assert shown == Some(name.value);
    }
  }

  lemma PrimitiveStands(v: Value, leaf: Leaf)
    requires !v.Object?
    ensures StandsFor(leaf, v) <==> leaf == Primitive(v)
  {
    if v.Function? && leaf.FunctionTag? {
      ShownIs(v.called, leaf.called);
    }
  }

  /** What is mirrored is what the walk rebuilds. */
  lemma MirrorIsRebuilt(h: Graph, v: Value, o: Out)
    requires InHeap(h, v) && Mirrors(h, v, o)
    ensures v.Object? ==> o == Rebuilt(h[v.ref], Kids(o)) && MirrorsAll(h, Children(h[v.ref]), Kids(o))
    ensures !v.Object? ==> o == LeafOut(Primitive(v))
  {
    if o.LeafOut? && !v.Object? {
      PrimitiveStands(v, o.leaf);
    }
    if o.LeafOut? && v.Object? && h[v.ref].DomNode? {
      ShownIs(h[v.ref].domId, o.leaf.domId);
    }
  }

  lemma RebuiltMirrors(h: Graph, v: Value, kids: Outs)
    requires v.Object? && InHeap(h, v) && MirrorsAll(h, Children(h[v.ref]), kids)
    ensures Mirrors(h, v, Rebuilt(h[v.ref], kids))
  {
    if h[v.ref].DomNode? {
      ShownIs(h[v.ref].domId, Unless(h[v.ref].domId));
    }
  }

  ghost predicate MirrorsAll(h: Graph, vs: seq<Value>, outs: Outs)
    requires AllInHeap(h, vs)
    decreases outs
  {
    match outs
    case End => vs == []
    case More(head, rest) => vs != [] && Mirrors(h, vs[0], head) && MirrorsAll(h, vs[1..], rest)
  }

  /** The objects met while unfolding a value along an output. */
  ghost function Refs(h: Graph, v: Value, o: Out): seq<Ref>
    requires InHeap(h, v)
    decreases o
  {
    if !v.Object? then []
    else
      [v.ref]
      + match o
        case ArrayOut(items) => RefsAll(h, Children(h[v.ref]), items)
        case PlainOut(_, values) => RefsAll(h, Children(h[v.ref]), values)
        case _ => []
  }

  ghost function RefsAll(h: Graph, vs: seq<Value>, outs: Outs): seq<Ref>
    requires AllInHeap(h, vs)
    decreases outs
  {
    match outs
    case End => []
    case More(head, rest) => if vs == [] then [] else Refs(h, vs[0], head) + RefsAll(h, vs[1..], rest)
  }

  predicate NoCycle(o: Out) {
    match o
    case LeafOut(_) => true
    case CycleTag => false
    case ArrayOut(items) => NoCycles(items)
    case PlainOut(_, values) => NoCycles(values)
  }

  predicate NoCycles(outs: Outs) {
    match outs
    case End => true
    case More(head, rest) => NoCycle(head) && NoCycles(rest)
  }

  ghost function SetOf(s: seq<Ref>): set<Ref> { set r | r in s }

  /** No object twice, and none of them in `seen`. */
  ghost predicate New(refs: seq<Ref>, seen: set<Ref>) { Distinct(refs) && SetOf(refs) !! seen }

  lemma NewSplit(a: seq<Ref>, b: seq<Ref>, seen: set<Ref>)
    ensures New(a + b, seen) <==> New(a, seen) && New(b, seen + SetOf(a))
    ensures SetOf(a + b) == SetOf(a) + SetOf(b)
  {
    if New(a + b, seen) {
      forall i, j | 0 <= i < j < |a| ensures a[i] != a[j] {
        assert (a + b)[i] != (a + b)[j];
      }
      forall i, j | 0 <= i < j < |b| ensures b[i] != b[j] {
        assert (a + b)[|a| + i] != (a + b)[|a| + j];
      }
      forall r | r in b ensures r !in seen + SetOf(a) {
        var j :| 0 <= j < |b| && b[j] == r;
        forall i | 0 <= i < |a| ensures a[i] != r {
          assert (a + b)[i] != (a + b)[|a| + j];
        }
        assert r in SetOf(a + b);
      }
      assert forall r :: r in SetOf(a) ==> r in SetOf(a + b);
    }
    if New(a, seen) && New(b, seen + SetOf(a)) {
      forall i, j | 0 <= i < j < |a + b| ensures (a + b)[i] != (a + b)[j] {
        if i < |a| <= j {
          assert b[j - |a|] in SetOf(b) && a[i] in SetOf(a);
        }
      }
    }
  }

  /** What unfolds into a tree of distinct, unseen objects is copied as it is. */
  lemma {:induction false} TreeIsCopied(h: Graph, v: Value, o: Out, seen: set<Ref>)
    requires InHeap(h, v) && Mirrors(h, v, o) && New(Refs(h, v, o), seen)
    ensures Walk(h, v, seen) == Walked(o, seen + SetOf(Refs(h, v, o)))
    decreases o
  {
    MirrorIsRebuilt(h, v, o);
    if v.Object? {
      var entered := seen + {v.ref};
      var kids := RefsAll(h, Children(h[v.ref]), Kids(o));
      assert Refs(h, v, o) == [v.ref] + kids;
      assert SetOf([v.ref]) == {v.ref};
      NewSplit([v.ref], kids, seen);
      assert v.ref in Refs(h, v, o);
      match o
      case ArrayOut(items) => TreesAreCopied(h, Children(h[v.ref]), items, entered);
      case PlainOut(_, values) => TreesAreCopied(h, Children(h[v.ref]), values, entered);
      case LeafOut(_) => assert WalkAll(h, Children(h[v.ref]), entered) == WalkedAll(End, entered);
      case CycleTag =>
    } else {
      assert SetOf([]) == {};
    }
  }

  lemma {:induction false} TreesAreCopied(h: Graph, vs: seq<Value>, outs: Outs, seen: set<Ref>)
    requires AllInHeap(h, vs) && MirrorsAll(h, vs, outs) && New(RefsAll(h, vs, outs), seen)
    ensures WalkAll(h, vs, seen) == WalkedAll(outs, seen + SetOf(RefsAll(h, vs, outs)))
    decreases outs
  {
    match outs
    case End =>
      assert SetOf([]) == {};
    case More(head, rest) =>
      NewSplit(Refs(h, vs[0], head), RefsAll(h, vs[1..], rest), seen);
      TreeIsCopied(h, vs[0], head, seen);
      TreesAreCopied(h, vs[1..], rest, seen + SetOf(Refs(h, vs[0], head)));
  }

  /** The output is a tree of distinct, unseen objects, and those are what was newly seen. */
  ghost predicate IsTree(h: Graph, v: Value, seen: set<Ref>, w: Walked)
    requires InHeap(h, v)
  {
    Mirrors(h, v, w.out) && New(Refs(h, v, w.out), seen) && w.seen == seen + SetOf(Refs(h, v, w.out))
  }

  ghost predicate AreTrees(h: Graph, vs: seq<Value>, seen: set<Ref>, w: WalkedAll)
    requires AllInHeap(h, vs)
  {
    MirrorsAll(h, vs, w.outs) && New(RefsAll(h, vs, w.outs), seen) && w.seen == seen + SetOf(RefsAll(h, vs, w.outs))
  }

  lemma TreeOfKids(h: Graph, v: Value, seen: set<Ref>, kids: WalkedAll)
    requires v.Object? && InHeap(h, v) && v.ref !in seen && AreTrees(h, Children(h[v.ref]), seen + {v.ref}, kids)
    ensures IsTree(h, v, seen, Walked(Rebuilt(h[v.ref], kids.outs), kids.seen))
  {
    var refs := RefsAll(h, Children(h[v.ref]), kids.outs);
    assert Children(h[v.ref]) == [] ==> kids.outs == End;
    assert Refs(h, v, Rebuilt(h[v.ref], kids.outs)) == [v.ref] + refs;
    assert SetOf([v.ref]) == {v.ref};
    NewSplit([v.ref], refs, seen);
    RebuiltMirrors(h, v, kids.outs);
  }

  lemma TreesOfTrees(h: Graph, vs: seq<Value>, seen: set<Ref>, first: Walked, rest: WalkedAll)
    requires vs != [] && AllInHeap(h, vs) && IsTree(h, vs[0], seen, first) && AreTrees(h, vs[1..], first.seen, rest)
    ensures AreTrees(h, vs, seen, WalkedAll(More(first.out, rest.outs), rest.seen))
  {
    NewSplit(Refs(h, vs[0], first.out), RefsAll(h, vs[1..], rest.outs), seen);
  }

  /** An output without a Cycle tag is a copy of a tree of distinct, unseen objects. */
  lemma {:induction false} CopyIsTree(h: Graph, v: Value, seen: set<Ref>)
    requires InHeap(h, v) && NoCycle(Walk(h, v, seen).out)
    ensures IsTree(h, v, seen, Walk(h, v, seen))
    decreases Unseen(h, seen), 0, 0
  {
    if v.Object? {
      var kids := WalkAll(h, Children(h[v.ref]), seen + {v.ref});
      assert Children(h[v.ref]) == [] ==> kids.outs == End;
      SeeingShrinks(h, seen, seen + {v.ref});
      CopiesAreTrees(h, Children(h[v.ref]), seen + {v.ref});
      TreeOfKids(h, v, seen, kids);
    } else {
      PrimitiveStands(v, Primitive(v));
      assert SetOf([]) == {};
    }
  }

  lemma NoTrees(h: Graph, seen: set<Ref>)
    ensures AreTrees(h, [], seen, WalkedAll(End, seen))
  {
    assert SetOf([]) == {};
  }

  lemma {:induction false} CopiesAreTrees(h: Graph, vs: seq<Value>, seen: set<Ref>)
    requires AllInHeap(h, vs) && NoCycles(WalkAll(h, vs, seen).outs)
    ensures AreTrees(h, vs, seen, WalkAll(h, vs, seen))
    decreases Unseen(h, seen), 1, |vs|
  {
    if vs == [] {
      NoTrees(h, seen);
    } else {
      var first := Walk(h, vs[0], seen);
      var rest := WalkAll(h, vs[1..], first.seen);
      assert WalkAll(h, vs, seen) == WalkedAll(More(first.out, rest.outs), rest.seen);
      SeeingShrinks(h, seen, first.seen);
      CopyIsTree(h, vs[0], seen);
      CopiesAreTrees(h, vs[1..], first.seen);
      TreesOfTrees(h, vs, seen, first, rest);
    }
  }

  /** The value unfolds into this finite tree, which meets no object twice. */
  ghost predicate UnfoldsTo(h: Graph, v: Value, o: Out)
    requires InHeap(h, v)
  {
    Mirrors(h, v, o) && Distinct(Refs(h, v, o))
  }

  /** No Cycle tag, if and only if the value unfolds into a tree of distinct objects; the output is then that tree. */
  lemma CopiedIffTree(h: Graph, v: Value)
    requires InHeap(h, v)
    ensures NoCycle(Walk(h, v, {}).out) <==> exists o :: UnfoldsTo(h, v, o)
    ensures forall o :: UnfoldsTo(h, v, o) ==> Walk(h, v, {}).out == o
  {
    var out := Walk(h, v, {}).out;
    forall o | UnfoldsTo(h, v, o) ensures out == o && NoCycle(out) {
      TreeIsCopied(h, v, o, {});
      MirrorHasNoCycle(h, v, o);
    }
    if NoCycle(out) {
      CopyIsTree(h, v, {});
      assert UnfoldsTo(h, v, out);
    }
  }

  lemma {:induction false} MirrorHasNoCycle(h: Graph, v: Value, o: Out)
    requires InHeap(h, v) && Mirrors(h, v, o)
    ensures NoCycle(o)
    decreases o
  {
    match o
    case ArrayOut(items) => MirrorsHaveNoCycles(h, Children(h[v.ref]), items);
    case PlainOut(_, values) => MirrorsHaveNoCycles(h, Children(h[v.ref]), values);
    case _ =>
  }

  lemma {:induction false} MirrorsHaveNoCycles(h: Graph, vs: seq<Value>, outs: Outs)
    requires AllInHeap(h, vs) && MirrorsAll(h, vs, outs)
    ensures NoCycles(outs)
    decreases outs
  {
    match outs
    case End =>
    case More(head, rest) =>
      MirrorHasNoCycle(h, vs[0], head);
      MirrorsHaveNoCycles(h, vs[1..], rest);
  }

  // ---------------------------------------------------------------- plain data

  /** The value is this JSON value. */
  ghost predicate IsData(h: Graph, v: Value, j: Json)
    requires InHeap(h, v)
    decreases j
  {
    match j
    case JNull => v == Null
    case JBool(b) => v == Bool(b)
    case JNum(n) => v == Number(Fin(n))
    case JStr(s) => v == Text(s)
    case JArr(items) =>
      && v.Object? && h[v.ref].Array? && |h[v.ref].items| == |items|
      && forall i :: 0 <= i < |items| ==> InHeap(h, h[v.ref].items[i]) && IsData(h, h[v.ref].items[i], items[i])
    case JObj(fields) =>
      && v.Object? && h[v.ref].Plain? && |h[v.ref].keys| == |h[v.ref].values|
      && (forall k :: k in fields <==> k in h[v.ref].keys)
      && forall i :: 0 <= i < |h[v.ref].keys| ==>
           && h[v.ref].keys[i] in fields && InHeap(h, h[v.ref].values[i])
           && IsData(h, h[v.ref].values[i], fields[h[v.ref].keys[i]])
  }

  function At(outs: Outs, i: nat): Out
    requires i < Length(outs)
  {
    if i == 0 then outs.head else At(outs.rest, i - 1)
  }

  function Length(outs: Outs): nat { if outs.End? then 0 else 1 + Length(outs.rest) }

  /** So is the output. */
  ghost predicate ShowsData(o: Out, j: Json)
    decreases j
  {
    match j
    case JNull => o == LeafOut(NullOut)
    case JBool(b) => o == LeafOut(BoolOut(b))
    case JNum(n) => o == LeafOut(NumberOut(n))
    case JStr(s) => o == LeafOut(TextOut(s))
    case JArr(items) =>
      && o.ArrayOut? && Length(o.items) == |items|
      && forall i :: 0 <= i < |items| ==> ShowsData(At(o.items, i), items[i])
    case JObj(fields) =>
      && o.PlainOut? && Length(o.values) == |o.keys| && (forall k :: k in fields <==> k in o.keys)
      && forall i :: 0 <= i < |o.keys| ==> o.keys[i] in fields && ShowsData(At(o.values, i), fields[o.keys[i]])
  }

  lemma {:induction false} MirrorsEach(h: Graph, vs: seq<Value>, outs: Outs, i: nat)
    requires AllInHeap(h, vs) && MirrorsAll(h, vs, outs)
    ensures Length(outs) == |vs|
    ensures i < |vs| ==> Mirrors(h, vs[i], At(outs, i))
    decreases outs
  {
    if outs.More? {
      MirrorsEach(h, vs[1..], outs.rest, if i > 0 then i - 1 else 0);
    }
  }

  lemma {:induction false} MirrorShowsData(h: Graph, v: Value, o: Out, j: Json)
    requires InHeap(h, v) && Mirrors(h, v, o) && IsData(h, v, j)
    ensures ShowsData(o, j)
    decreases j
  {
    MirrorIsRebuilt(h, v, o);
    match j
    case JArr(items) =>
      MirrorsEach(h, h[v.ref].items, o.items, 0);
      forall i | 0 <= i < |items| ensures ShowsData(At(o.items, i), items[i]) {
        MirrorsEach(h, h[v.ref].items, o.items, i);
        MirrorShowsData(h, h[v.ref].items[i], At(o.items, i), items[i]);
      }
    case JObj(fields) =>
      MirrorsEach(h, h[v.ref].values, o.values, 0);
      forall i | 0 <= i < |o.keys| ensures o.keys[i] in fields && ShowsData(At(o.values, i), fields[o.keys[i]]) {
        MirrorsEach(h, h[v.ref].values, o.values, i);
        MirrorShowsData(h, h[v.ref].values[i], At(o.values, i), fields[o.keys[i]]);
      }
    case _ =>
  }

  /** JSON data comes out as the JSON data it is, unless an object is met twice. */
  lemma DataIsKept(h: Graph, v: Value, j: Json)
    requires InHeap(h, v) && IsData(h, v, j)
    ensures NoCycle(Walk(h, v, {}).out) <==> ShowsData(Walk(h, v, {}).out, j)
  {
    var out := Walk(h, v, {}).out;
    if NoCycle(out) {
      CopyIsTree(h, v, {});
      MirrorShowsData(h, v, out, j);
    }
    if ShowsData(out, j) {
      ShownHasNoCycle(out, j);
    }
  }

  lemma {:induction false} ShownHasNoCycle(o: Out, j: Json)
    requires ShowsData(o, j)
    ensures NoCycle(o)
    decreases j
  {
    match j
    case JArr(items) =>
      forall i: nat | i < Length(o.items) ensures NoCycle(At(o.items, i)) {
        ShownHasNoCycle(At(o.items, i), items[i]);
      }
      NoCycleEach(o.items);
    case JObj(fields) =>
      forall i: nat | i < Length(o.values) ensures NoCycle(At(o.values, i)) {
        ShownHasNoCycle(At(o.values, i), fields[o.keys[i]]);
      }
      NoCycleEach(o.values);
    case _ =>
  }

  lemma {:induction false} NoCycleEach(outs: Outs)
    requires forall i: nat :: i < Length(outs) ==> NoCycle(At(outs, i))
    ensures NoCycles(outs)
  {
    if outs.More? {
      assert NoCycle(At(outs, 0));
      forall i: nat | i < Length(outs.rest) ensures NoCycle(At(outs.rest, i)) {
        assert At(outs, i + 1) == At(outs.rest, i);
      }
      NoCycleEach(outs.rest);
    }
  }

  // ---------------------------------------------------------------- arguments

  /** The size of an output as JSON text; None when writing it out throws, which counts as infinite. */
  type Sizes = Out -> Option<nat>

  datatype Arg = Whole(out: Out) | Truncated(approxSize: Option<nat>, max: int)

  predicate TooLarge(size: Option<nat>, max: int) { size.None? || size.value > max }

  /** Each argument is walked on its own and replaced by a stub when its text is too long. */
  method SerializeArgs(h: Graph, args: seq<Value>, max: int, sizes: Sizes)
    returns (serialized: seq<Arg>, truncated: bool)
    requires AllInHeap(h, args)
    ensures |serialized| == |args|
    ensures forall i :: 0 <= i < |args| ==>
              var out := Walk(h, args[i], {}).out;
              serialized[i] == if sizes(out) == None || sizes(out).value > max
                               then Truncated(sizes(out), max) else Whole(out)
    ensures truncated <==> exists i :: 0 <= i < |args| && serialized[i].Truncated?
  {
    serialized, truncated := [], false;
    for i := 0 to |args|
      invariant |serialized| == i
      invariant forall k :: 0 <= k < i ==>
                  var out := Walk(h, args[k], {}).out;
                  serialized[k] == if TooLarge(sizes(out), max) then Truncated(sizes(out), max) else Whole(out)
      invariant truncated <==> exists k :: 0 <= k < i && serialized[k].Truncated?
    {
      var seen := new Seen();
      var walked := SerializeValue(h, args[i], seen);
      var size := sizes(walked);
      if TooLarge(size, max) {
        truncated := true;
        serialized := serialized + [Truncated(size, max)];
      } else {
        serialized := serialized + [Whole(walked)];
      }
    }
  }
}
