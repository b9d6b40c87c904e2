/**
 * Attaching to every open shadow root of a document (`attachShadowObserver` in captures/walk_shadow.ts).
 *
 * The browser is the environment: it rearranges the tree, queues mutation records for the
 * registered observers and delivers the queue of one observer at a time.
 */
module ShadowObserver {
  import opened Prelude
  import opened ComposedTree

  /** A mutation record; `added` lists the nodes inserted under `target`. */
  datatype Record = Record(childList: bool, target: Id, added: seq<Id>)

  /** The roots already seen, and the announcements made, in order. */
  datatype Progress = Progress(seen: set<Id>, announced: seq<Id>)

  const NOTHING: Progress := Progress({}, [])

  /** `notifyAttach` then `observeShadow`, unless the root was seen before. */
  function Note(p: Progress, s: Id): Progress {
    if s in p.seen then p else Progress(p.seen + {s}, p.announced + [s])
  }

  function NoteAll(p: Progress, roots: seq<Id>): Progress
    decreases |roots|
  {
    if roots == [] then p else NoteAll(Note(p, roots[0]), roots[1..])
  }

  ghost function Scan(p: Progress, d: Document, n: Id): Progress { NoteAll(p, Discover(d, n)) }

  ghost function ScanAll(p: Progress, d: Document, ns: seq<Id>): Progress
    decreases |ns|
  {
    if ns == [] then p else ScanAll(Scan(p, d, ns[0]), d, ns[1..])
  }

  /** What the callback of a shadow root's observer does with a record. */
  ghost function ShadowRecord(p: Progress, d: Document, r: Record): Progress {
    if r.childList then ScanAll(p, d, r.added) else p
  }

  /** What the callback of the host-tree observer does with a record: it also looks at the target. */
  ghost function HostRecord(p: Progress, d: Document, r: Record): Progress {
    if !r.childList then p
    else
      var checked :=
        if r.target in d.shadow && d.shadow[r.target] !in p.seen
        then Scan(Note(p, d.shadow[r.target]), d, d.shadow[r.target])
        else p;
      ScanAll(checked, d, r.added)
  }

  ghost function OneRecord(p: Progress, d: Document, isHost: bool, r: Record): Progress {
    if isHost then HostRecord(p, d, r) else ShadowRecord(p, d, r)
  }

  ghost function Batch(p: Progress, d: Document, isHost: bool, rs: seq<Record>): Progress
    decreases |rs|
  {
    if rs == [] then p else Batch(OneRecord(p, d, isHost, rs[0]), d, isHost, rs[1..])
  }

  class Observer {
    const root: Id
    var observers: set<Id>
    var seen: set<Id>
    var announced: seq<Id>
    var disposed: bool

    ghost function State(): Progress
      reads this
    {
      Progress(seen, announced)
    }

    /** One observer for the host tree and one for each root seen. */
    ghost predicate Valid()
      reads this
    {
      observers == if disposed then {} else seen + {root}
    }

    constructor (d: Document, root: Id)
      ensures this.root == root && !disposed && Valid()
      ensures State() == Scan(NOTHING, d, root)
    {
      this.root := root;
      observers, seen, announced, disposed := {root}, {}, [], false;
      new;
      ScanAndObserve(d, root);
    }

    method ObserveShadow(s: Id)
      requires !disposed && Valid()
      modifies this
      ensures !disposed && Valid() && seen == old(seen) + {s} && announced == old(announced)
    {
      if s in seen {
        return;
      }
      seen := seen + {s};
      observers := observers + {s};
    }

    method ScanAndObserve(d: Document, subtree: Id)
      requires Valid()
      modifies this
      ensures disposed == old(disposed) && Valid()
      ensures State() == if disposed then old(State()) else Scan(old(State()), d, subtree)
    {
      if disposed {
        return;
      }
      var roots := DiscoverShadowRoots(d, subtree);
      assert roots[0..] == roots;
      for i := 0 to |roots|
        invariant !disposed && Valid()
        invariant NoteAll(State(), roots[i..]) == NoteAll(old(State()), roots)
      {
        assert roots[i..][0] == roots[i] && roots[i..][1..] == roots[i + 1..];
        if roots[i] in seen {
          continue;
        }
        announced := announced + [roots[i]];
        ObserveShadow(roots[i]);
      }
    }

    /** The listener of the patched `attachShadow`. */
    method OnAttach(s: Id)
      requires Valid()
      modifies this
      ensures disposed == old(disposed) && Valid()
      ensures State() == if disposed then old(State()) else Note(old(State()), s)
    {
      if disposed {
        return;
      }
      if s in seen {
        return;
      }
      announced := announced + [s];
      ObserveShadow(s);
    }

    method ScanAdded(d: Document, added: seq<Id>)
      requires !disposed && Valid()
      modifies this
      ensures !disposed && Valid()
      ensures State() == ScanAll(old(State()), d, added)
    {
      assert added[0..] == added;
      for i := 0 to |added|
        invariant !disposed && Valid()
        invariant ScanAll(State(), d, added[i..]) == ScanAll(old(State()), d, added)
      {
        assert added[i..][0] == added[i] && added[i..][1..] == added[i + 1..];
        ScanAndObserve(d, added[i]);
      }
    }

    /** The callbacks: of the host-tree observer, or of the observer of one shadow root. */
    method OnRecords(d: Document, isHost: bool, records: seq<Record>)
      requires Valid()
      modifies this
      ensures disposed == old(disposed) && Valid()
      ensures State() == if disposed then old(State()) else Batch(old(State()), d, isHost, records)
    {
      if disposed {
        return;
      }
      assert records[0..] == records;
      for i := 0 to |records|
        invariant !disposed && Valid()
        invariant Batch(State(), d, isHost, records[i..]) == Batch(old(State()), d, isHost, records)
      {
        var r := records[i];
        assert records[i..][0] == r && records[i..][1..] == records[i + 1..];
        if !r.childList {
          continue;
        }
        if isHost && r.target in d.shadow {
          var s := d.shadow[r.target];
          if s !in seen {
            announced := announced + [s];
            ObserveShadow(s);
            ScanAndObserve(d, s);
          }
        }
        ScanAdded(d, r.added);
      }
    }

    method Dispose()
      requires Valid()
      modifies this
      ensures disposed && Valid() && State() == old(State())
    {
      if disposed {
        return;
      }
      disposed := true;
      observers := {};
    }
  }

  // ---------------------------------------------------------------- runs

  /** The document, the observer's progress, and the records queued for each observed node. */
  datatype World = World(dom: Document, progress: Progress, queues: map<Id, seq<Record>>, disposed: bool)

  datatype Event =
    | Attach(host: Id, s: Id, open: bool)
    | Insert(n: Id, target: Id)
    | Remove(n: Id)
    | Change(target: Id)
    | Deliver(o: Id)
    | Dispose

  /** An observer registered on `o` hears of changes at `target`: `o` is above it in the same tree. */
  ghost predicate Hears(d: Document, o: Id, target: Id) {
    AcyclicSub(Up(d), d.parent);
    Above(d.parent, o, target)
  }

  ghost function Enqueue(queues: map<Id, seq<Record>>, d: Document, r: Record): map<Id, seq<Record>> {
    map o | o in queues :: if Hears(d, o, r.target) then queues[o] + [r] else queues[o]
  }

  /** Only parent links differ. */
  predicate SameRoots(d: Dom, d': Dom) { d'.host == d.host && d'.elements == d.elements && d'.open == d.open }

  predicate Unused(d: Dom, s: Id) {
    s !in d.parent && s !in d.host && s !in d.elements && s !in d.parent.Values && s !in d.host.Values
  }

  /** A node already in a tree leaves it first, which is a record of its own. */
  ghost function AfterLeaving(w: World, n: Id): map<Id, seq<Record>> {
    if n in w.dom.parent then Enqueue(w.queues, w.dom, Record(true, w.dom.parent[n], [])) else w.queues
  }

  ghost function AfterDelivery(root: Id, w: World, o: Id, p: Progress): map<Id, seq<Record>> {
    map k | k in {root} + p.seen :: if k in w.queues && k != o then w.queues[k] else []
  }

  /** `attachShadow` on an element without a shadow root; the patch announces an open one at once. */
  ghost predicate AttachStep(root: Id, w: World, h: Id, s: Id, isOpen: bool, w': World) {
    && h in w.dom.elements && h !in w.dom.host.Values && Unused(w.dom, s) && s != root
    && w'.dom.parent == w.dom.parent && w'.dom.elements == w.dom.elements
    && w'.dom.host == w.dom.host[s := h]
    && w'.dom.open == w.dom.open + (if isOpen then {s} else {})
    && w'.disposed == w.disposed
    && w'.progress == (if isOpen && !w.disposed then Note(w.progress, s) else w.progress)
    && w'.queues == if isOpen && !w.disposed && s !in w.progress.seen then w.queues[s := []] else w.queues
  }

  /** An element is inserted (or moved) under `target`, anywhere among its children. */
  ghost predicate InsertStep(root: Id, w: World, n: Id, target: Id, w': World) {
    && n != root && n in w.dom.elements
    && SameRoots(w.dom, w'.dom) && w'.dom.parent == w.dom.parent[n := target]
    && w'.progress == w.progress && w'.disposed == w.disposed
    && w'.queues == Enqueue(AfterLeaving(w, n), w'.dom, Record(true, target, [n]))
  }

  ghost predicate RemoveStep(w: World, n: Id, w': World) {
    && n in w.dom.parent && n in w.dom.elements
    && SameRoots(w.dom, w'.dom) && w'.dom.parent == w.dom.parent - {n}
    && w'.progress == w.progress && w'.disposed == w.disposed
    && w'.queues == AfterLeaving(w, n)
  }

  /** The queue of one observer is handed to its callback. */
  ghost predicate DeliverStep(root: Id, w: World, o: Id, w': World) {
    && o in w.queues && !w.disposed
    && w'.dom == w.dom && w'.disposed == w.disposed
    && w'.progress == Batch(w.progress, w.dom, o == root, w.queues[o])
    && w'.queues == AfterDelivery(root, w, o, w'.progress)
  }

  ghost predicate Step(root: Id, w: World, e: Event, w': World) {
    match e
    case Attach(h, s, isOpen) => AttachStep(root, w, h, s, isOpen, w')
    case Insert(n, target) => InsertStep(root, w, n, target, w')
    case Remove(n) => RemoveStep(w, n, w')
    case Change(target) => w' == w.(queues := Enqueue(w.queues, w.dom, Record(false, target, [])))
    case Deliver(o) => DeliverStep(root, w, o, w')
    case Dispose => w' == w.(disposed := true, queues := map[])
  }

  /** Just after installation: the root is a document, and what is visible below it has been scanned. */
  ghost predicate Initial(root: Id, w: World) {
    && root !in Up(w.dom) && !w.disposed
    && w.progress == Scan(NOTHING, w.dom, root)
    && w.queues == map k | k in {root} + w.progress.seen :: []
  }

  ghost predicate Run(root: Id, ws: seq<World>, es: seq<Event>) {
    && |ws| == |es| + 1
    && Initial(root, ws[0])
    && forall i :: 0 <= i < |es| ==> Step(root, ws[i], es[i], ws[i + 1])
  }

  // ---------------------------------------------------------------- what is covered

  /** `a` is `s` or above it, with no closed root on the way. */
  ghost predicate VisibleAbove(d: Document, a: Id, s: Id) {
    VisibleAcyclic(d);
    Above(Visible(d), a, s)
  }

  ghost predicate UnderRoot(d: Document, root: Id, s: Id) { s in d.open && VisibleAbove(d, root, s) }

  /** The record is an undelivered one, and `a` is a node it added. */
  ghost predicate Undelivered(queues: map<Id, seq<Record>>, o: Id, i: nat, a: Id) {
    o in queues && i < |queues[o]| && queues[o][i].childList && a in queues[o][i].added
  }

  /** Some undelivered record added a node that `s` is now below. */
  ghost predicate Pending(w: World, s: Id) {
    exists o, i, a :: Undelivered(w.queues, o, i, a) && VisibleAbove(w.dom, a, s)
  }

  /** Only elements are added to trees. */
  ghost predicate AddedElements(w: World) {
    forall o, i, a :: Undelivered(w.queues, o, i, a) ==> a in w.dom.elements
  }

  /** Every open root below the document is seen or pending. */
  ghost predicate Covered(root: Id, w: World) {
    forall s {:trigger UnderRoot(w.dom, root, s)} :: UnderRoot(w.dom, root, s) ==> s in w.progress.seen || Pending(w, s)
  }

  ghost predicate AnnouncedOnce(p: Progress) {
    && Distinct(p.announced)
    && forall s :: s in p.announced <==> s in p.seen
  }

  ghost predicate Invariant(root: Id, w: World) {
    && root !in Up(w.dom)
    && AnnouncedOnce(w.progress)
    && (!w.disposed ==> w.queues.Keys == {root} + w.progress.seen && AddedElements(w) && Covered(root, w))
  }

  // ---------------------------------------------------------------- scanning

  /** Every open root visible below `a` has been seen. */
  ghost predicate Exhausted(p: Progress, d: Document, a: Id) {
    VisibleAcyclic(d);
    forall s :: s in d.open && s != a && Above(Visible(d), a, s) ==> s in p.seen
  }

  /** Nothing is lost on the way from `p` to `p'`. */
  ghost predicate Extends(p: Progress, p': Progress) { AnnouncedOnce(p') && p.seen <= p'.seen }

  lemma NoteKeeps(p: Progress, s: Id)
    requires AnnouncedOnce(p)
    ensures AnnouncedOnce(Note(p, s)) && Note(p, s).seen == p.seen + {s}
  {}

  lemma {:induction false} NoteAllKeeps(p: Progress, roots: seq<Id>)
    requires AnnouncedOnce(p)
    ensures AnnouncedOnce(NoteAll(p, roots)) && NoteAll(p, roots).seen == p.seen + (set s | s in roots)
    decreases |roots|
  {
    if roots != [] {
      NoteKeeps(p, roots[0]);
      NoteAllKeeps(Note(p, roots[0]), roots[1..]);
      assert roots == [roots[0]] + roots[1..];
    }
  }

  lemma ScanSees(p: Progress, d: Document, n: Id)
    requires AnnouncedOnce(p)
    ensures Extends(p, Scan(p, d, n)) && Exhausted(Scan(p, d, n), d, n)
  {
    NoteAllKeeps(p, Discover(d, n));
    forall s | s in d.open && s != n && VisibleAbove(d, n, s)
      ensures s in Scan(p, d, n).seen
    {
      DiscoverIff(d, n, s);
    }
  }

  lemma {:induction false} ScanAllSees(p: Progress, d: Document, ns: seq<Id>)
    requires AnnouncedOnce(p)
    ensures Extends(p, ScanAll(p, d, ns))
    ensures forall j :: 0 <= j < |ns| ==> Exhausted(ScanAll(p, d, ns), d, ns[j])
    decreases |ns|
  {
    if ns != [] {
      ScanSees(p, d, ns[0]);
      ScanAllSees(Scan(p, d, ns[0]), d, ns[1..]);
      forall j | 0 <= j < |ns|
        ensures Exhausted(ScanAll(p, d, ns), d, ns[j])
      {
        if j > 0 {
          assert ns[1..][j - 1] == ns[j];
        }
      }
    }
  }

  lemma RecordSees(p: Progress, d: Document, isHost: bool, r: Record)
    requires AnnouncedOnce(p)
    ensures Extends(p, OneRecord(p, d, isHost, r))
    ensures r.childList ==> forall j :: 0 <= j < |r.added| ==> Exhausted(OneRecord(p, d, isHost, r), d, r.added[j])
  {
    if r.childList {
      if isHost && r.target in d.shadow && d.shadow[r.target] !in p.seen {
        var s := d.shadow[r.target];
        NoteKeeps(p, s);
        ScanSees(Note(p, s), d, s);
        ScanAllSees(Scan(Note(p, s), d, s), d, r.added);
      } else {
        ScanAllSees(p, d, r.added);
      }
    }
  }

  /** After a batch nothing below the nodes it added is unseen. */
  lemma {:induction false} BatchSees(p: Progress, d: Document, isHost: bool, rs: seq<Record>)
    requires AnnouncedOnce(p)
    ensures Extends(p, Batch(p, d, isHost, rs))
    ensures forall i, j :: 0 <= i < |rs| && rs[i].childList && 0 <= j < |rs[i].added| ==>
              Exhausted(Batch(p, d, isHost, rs), d, rs[i].added[j])
    decreases |rs|
  {
    if rs != [] {
      var next := OneRecord(p, d, isHost, rs[0]);
      RecordSees(p, d, isHost, rs[0]);
      BatchSees(next, d, isHost, rs[1..]);
      forall i, j | 0 <= i < |rs| && rs[i].childList && 0 <= j < |rs[i].added|
        ensures Exhausted(Batch(p, d, isHost, rs), d, rs[i].added[j])
      {
        if i > 0 {
          assert rs[1..][i - 1] == rs[i];
        } else {
          assert Exhausted(next, d, rs[0].added[j]);
        }
      }
    }
  }

  // ---------------------------------------------------------------- one step at a time

  lemma AboveIn(d: Document, a: Id, s: Id)
    ensures VisibleAbove(d, a, s) <==> a == s || (s in Visible(d) && VisibleAbove(d, a, Visible(d)[s]))
  {
    VisibleAcyclic(d);
    AboveStep(Visible(d), a, s);
  }

  lemma AboveThrough(d: Document, a: Id, b: Id, s: Id)
    requires VisibleAbove(d, a, b) && VisibleAbove(d, b, s)
    ensures VisibleAbove(d, a, s)
  {
    VisibleAcyclic(d);
    AboveTransitive(Visible(d), a, b, s);
  }

  /** Who hears of a change at `p` below the document: the host-tree observer, or the
   * tree of an open root `w` that is itself below the document. */
  lemma {:induction false} WhoHears(d: Document, root: Id, p: Id) returns (w: Id)
    requires VisibleAbove(d, root, p)
    ensures Hears(d, w, p) && VisibleAbove(d, w, p)
    ensures w == root || (w in d.open && VisibleAbove(d, root, w))
    decreases Rank(Up(d), p)
  {
    AcyclicSub(Up(d), d.parent);
    AboveStep(d.parent, p, p);
    AboveIn(d, p, p);
    AboveIn(d, root, p);
    if p == root {
      w := root;
    } else if p in d.parent {
      assert Up(d)[p] == d.parent[p] && Visible(d)[p] == d.parent[p];
      w := WhoHears(d, root, d.parent[p]);
      AboveStep(d.parent, w, p);
      AboveIn(d, w, p);
    } else {
      w := p;
    }
  }

  /** A chain without `n` is the same whether or not the link at `n` changed. */
  lemma Elsewhere(d: Document, d': Document, n: Id, s: Id)
    requires forall k ::
      k != n ==> (k in Visible(d) <==> k in Visible(d')) && (k in Visible(d) ==> Visible(d)[k] == Visible(d')[k])
    requires !VisibleAbove(d', n, s)
    ensures forall a :: VisibleAbove(d, a, s) <==> VisibleAbove(d', a, s)
  {
    VisibleAcyclic(d);
    VisibleAcyclic(d');
    ChainElsewhere(Visible(d), Visible(d'), n, s);
  }

  /** Nothing stands above the document, so what is above a node below it is below it too. */
  lemma BelowRoot(d: Document, root: Id, n: Id, s: Id)
    requires root !in Up(d) && VisibleAbove(d, root, s) && VisibleAbove(d, n, s)
    ensures VisibleAbove(d, root, n)
  {
    VisibleAcyclic(d);
    AboveLinear(Visible(d), root, n, s);
    AboveIn(d, n, root);
    AboveIn(d, root, root);
  }

  /** Undelivered records stay undelivered when records are added. */
  ghost predicate Grows(q: map<Id, seq<Record>>, q': map<Id, seq<Record>>) {
    q'.Keys == q.Keys && forall o {:trigger q'[o]} :: o in q ==> q[o] <= q'[o]
  }

  lemma EnqueueGrows(q: map<Id, seq<Record>>, d: Document, r: Record)
    ensures Grows(q, Enqueue(q, d, r))
    ensures forall o, i, a ::
      Undelivered(Enqueue(q, d, r), o, i, a) ==> Undelivered(q, o, i, a) || (r.childList && a in r.added)
    ensures forall o, i, a :: Undelivered(q, o, i, a) ==> Undelivered(Enqueue(q, d, r), o, i, a)
  {}

  /** What was pending at a node whose chain did not change is still pending for everything below it. */
  lemma StillPending(w: World, w': World, s: Id, t: Id)
    requires Pending(w, s)
    requires forall o, i, a :: Undelivered(w.queues, o, i, a) ==> Undelivered(w'.queues, o, i, a)
    requires forall a :: VisibleAbove(w.dom, a, s) ==> VisibleAbove(w'.dom, a, s)
    requires VisibleAbove(w'.dom, s, t)
    ensures Pending(w', t)
  {
    var o, i, a :| Undelivered(w.queues, o, i, a) && VisibleAbove(w.dom, a, s);
    AboveThrough(w'.dom, a, s, t);
  }

  lemma SameLinksButAt(d: Document, d': Document, n: Id)
    requires SameRoots(d, d') && n in d.elements
    requires forall k ::
      k != n ==> (k in d.parent <==> k in d'.parent) && (k in d.parent ==> d.parent[k] == d'.parent[k])
    ensures forall k ::
      k != n ==> (k in Visible(d) <==> k in Visible(d')) && (k in Visible(d) ==> Visible(d)[k] == Visible(d')[k])
  {}

  lemma QueuesAfterLeaving(w: World, n: Id)
    ensures AfterLeaving(w, n).Keys == w.queues.Keys
    ensures forall o, i, a :: Undelivered(AfterLeaving(w, n), o, i, a) <==> Undelivered(w.queues, o, i, a)
  {
    if n in w.dom.parent {
      EnqueueGrows(w.queues, w.dom, Record(true, w.dom.parent[n], []));
    }
  }

  /** What an insertion does to the queues. */
  lemma QueuesAfterInsert(w: World, n: Id, target: Id, w': World)
    requires AddedElements(w) && n in w.dom.elements && w'.dom.elements == w.dom.elements
    requires w'.queues == Enqueue(AfterLeaving(w, n), w'.dom, Record(true, target, [n]))
    ensures w'.queues.Keys == w.queues.Keys && AddedElements(w')
    ensures forall o, i, a :: Undelivered(w.queues, o, i, a) ==> Undelivered(w'.queues, o, i, a)
  {
    QueuesAfterLeaving(w, n);
    EnqueueGrows(AfterLeaving(w, n), w'.dom, Record(true, target, [n]));
  }

  /** An observer that hears of the insertion queues a record with the inserted node. */
  lemma HeardIsPending(root: Id, w: World, n: Id, target: Id, w': World, hears: Id, s: Id)
    requires InsertStep(root, w, n, target, w')
    requires hears in w.queues && Hears(w'.dom, hears, target) && VisibleAbove(w'.dom, n, s)
    ensures Pending(w', s)
  {
    var q := AfterLeaving(w, n);
    var r := Record(true, target, [n]);
    assert hears in q;
    assert w'.queues[hears] == q[hears] + [r];
    assert w'.queues[hears][|q[hears]|] == r && n in r.added;
    assert Undelivered(w'.queues, hears, |q[hears]|, n);
  }

  /** A root above the place of insertion is not below the inserted node. */
  lemma NotBelowInserted(d: Document, n: Id, target: Id, w: Id)
    requires n in Visible(d) && Visible(d)[n] == target && VisibleAbove(d, w, target)
    ensures !VisibleAbove(d, n, w)
  {
    VisibleAcyclic(d);
    AboveIn(d, target, target);
    AboveIn(d, target, n);
    if VisibleAbove(d, n, w) {
      AboveTransitive(Visible(d), n, w, target);
      AboveRank(Visible(d), n, target);
      AboveRank(Visible(d), target, n);
    }
  }

  /** A root whose chain did not change stays pending. */
  lemma ElsewhereKeeps(root: Id, w: World, w': World, n: Id, s: Id)
    requires Covered(root, w) && w'.progress.seen >= w.progress.seen && s !in w'.progress.seen && s in w.dom.open
    requires UnderRoot(w'.dom, root, s) && !VisibleAbove(w'.dom, n, s)
    requires forall k :: k != n ==> (k in Visible(w.dom) <==> k in Visible(w'.dom))
                                    && (k in Visible(w.dom) ==> Visible(w.dom)[k] == Visible(w'.dom)[k])
    requires forall o, i, a :: Undelivered(w.queues, o, i, a) ==> Undelivered(w'.queues, o, i, a)
    ensures Pending(w', s)
  {
    Elsewhere(w.dom, w'.dom, n, s);
    assert UnderRoot(w.dom, root, s);
    AboveIn(w'.dom, s, s);
    StillPending(w, w', s, s);
  }

  lemma InsertLinks(root: Id, w: World, n: Id, target: Id, w': World)
    requires InsertStep(root, w, n, target, w')
    ensures forall k :: k != n ==> (k in Visible(w.dom) <==> k in Visible(w'.dom))
                                   && (k in Visible(w.dom) ==> Visible(w.dom)[k] == Visible(w'.dom)[k])
  {
    SameLinksButAt(w.dom, w'.dom, n);
  }

  /** Insertion changes nothing about a root that is not below the inserted node. */
  lemma NotInsertedIsPending(root: Id, w: World, n: Id, target: Id, w': World, s: Id)
    requires AddedElements(w) && Covered(root, w) && InsertStep(root, w, n, target, w')
    requires UnderRoot(w'.dom, root, s) && s !in w.progress.seen && !VisibleAbove(w'.dom, n, s)
    ensures Pending(w', s)
  {
    InsertLinks(root, w, n, target, w');
    QueuesAfterInsert(w, n, target, w');
    ElsewhereKeeps(root, w, w', n, s);
  }

  /** What is below a pending root is pending. */
  lemma PendingBelow(w: World, r: Id, s: Id)
    requires Pending(w, r) && VisibleAbove(w.dom, r, s)
    ensures Pending(w, s)
  {
    var o, i, a :| Undelivered(w.queues, o, i, a) && VisibleAbove(w.dom, a, r);
    AboveThrough(w.dom, a, r, s);
  }

  /** An unseen root above the place of insertion was pending before, and carries what is inserted below it. */
  lemma CarriedIsPending(root: Id, w: World, n: Id, target: Id, w': World, r: Id, s: Id)
    requires AddedElements(w) && Covered(root, w) && InsertStep(root, w, n, target, w')
    requires n in Visible(w'.dom) && Visible(w'.dom)[n] == target
    requires UnderRoot(w'.dom, root, r) && r !in w.progress.seen
    requires VisibleAbove(w'.dom, r, target) && VisibleAbove(w'.dom, n, s)
    ensures Pending(w', s)
  {
    NotBelowInserted(w'.dom, n, target, r);
    NotInsertedIsPending(root, w, n, target, w', r);
    AboveIn(w'.dom, r, n);
    AboveThrough(w'.dom, r, n, s);
    PendingBelow(w', r, s);
  }

  /** The heart of coverage: a subtree inserted below the document is heard of,
   * or lies below an unseen root that is pending itself. */
  lemma InsertedIsPending(root: Id, w: World, n: Id, target: Id, w': World, s: Id)
    requires AddedElements(w) && Covered(root, w) && InsertStep(root, w, n, target, w')
    requires w.queues.Keys == {root} + w.progress.seen
    requires root !in Up(w'.dom) && VisibleAbove(w'.dom, root, s) && VisibleAbove(w'.dom, n, s)
    ensures Pending(w', s)
  {
    var d' := w'.dom;
    BelowRoot(d', root, n, s);
    AboveIn(d', root, n);
    assert Visible(d')[n] == target;
    var hears := WhoHears(d', root, target);
    if hears == root || hears in w.progress.seen {
      HeardIsPending(root, w, n, target, w', hears, s);
    } else {
      CarriedIsPending(root, w, n, target, w', hears, s);
    }
  }

  lemma InsertKeeps(root: Id, w: World, n: Id, target: Id, w': World)
    requires Invariant(root, w) && InsertStep(root, w, n, target, w')
    ensures Invariant(root, w')
  {
    if !w.disposed {
      QueuesAfterInsert(w, n, target, w');
      forall s | UnderRoot(w'.dom, root, s) && s !in w'.progress.seen
        ensures Pending(w', s)
      {
        if VisibleAbove(w'.dom, n, s) {
          InsertedIsPending(root, w, n, target, w', s);
        } else {
          NotInsertedIsPending(root, w, n, target, w', s);
        }
      }
    }
  }

  /** Nothing below the document is below a node that was taken out. */
  lemma NotBelowRemoved(d': Document, root: Id, n: Id, s: Id)
    requires root !in Up(d') && n !in Up(d') && n != root && VisibleAbove(d', root, s)
    ensures !VisibleAbove(d', n, s)
  {
    if VisibleAbove(d', n, s) {
      BelowRoot(d', root, n, s);
      AboveIn(d', root, n);
    }
  }

  lemma RemoveKeeps(root: Id, w: World, n: Id, w': World)
    requires Invariant(root, w) && RemoveStep(w, n, w')
    ensures Invariant(root, w')
  {
    if !w.disposed {
      QueuesAfterLeaving(w, n);
      SameLinksButAt(w.dom, w'.dom, n);
      forall s | UnderRoot(w'.dom, root, s) && s !in w'.progress.seen
        ensures Pending(w', s)
      {
        NotBelowRemoved(w'.dom, root, n, s);
        ElsewhereKeeps(root, w, w', n, s);
      }
    }
  }

  lemma NothingBelowUnused(d: Document, d': Document, h: Id, s0: Id, s: Id)
    requires Unused(d, s0) && h in d.elements && d'.parent == d.parent && d'.host == d.host[s0 := h]
    requires s != s0
    ensures !VisibleAbove(d', s0, s)
  {
    if VisibleAbove(d', s0, s) {
      VisibleAcyclic(d');
      var m := JustBelow(Visible(d'), s0, s);
      assert false;
    }
  }

  lemma LinksAfterAttach(d: Document, d': Document, h: Id, s0: Id, isOpen: bool)
    requires Unused(d, s0) && d'.parent == d.parent && d'.host == d.host[s0 := h]
    requires d'.open == d.open + (if isOpen then {s0} else {})
    ensures forall k ::
      k != s0 ==> (k in Visible(d) <==> k in Visible(d')) && (k in Visible(d) ==> Visible(d)[k] == Visible(d')[k])
  {}

  lemma AttachKeeps(root: Id, w: World, h: Id, s0: Id, isOpen: bool, w': World)
    requires Invariant(root, w) && AttachStep(root, w, h, s0, isOpen, w')
    ensures Invariant(root, w')
  {
    NoteKeeps(w.progress, s0);
    if !w.disposed {
      assert forall o, i, a :: Undelivered(w'.queues, o, i, a) <==> Undelivered(w.queues, o, i, a) by {
        assert s0 in w.queues ==> s0 in w.progress.seen;
      }
      LinksAfterAttach(w.dom, w'.dom, h, s0, isOpen);
      forall s | UnderRoot(w'.dom, root, s) && s !in w'.progress.seen
        ensures Pending(w', s)
      {
        NothingBelowUnused(w.dom, w'.dom, h, s0, s);
        ElsewhereKeeps(root, w, w', s0, s);
      }
    }
  }

  lemma ChangeKeeps(root: Id, w: World, target: Id, w': World)
    requires Invariant(root, w) && w' == w.(queues := Enqueue(w.queues, w.dom, Record(false, target, [])))
    ensures Invariant(root, w')
  {
    if !w.disposed {
      EnqueueGrows(w.queues, w.dom, Record(false, target, []));
      forall s | UnderRoot(w'.dom, root, s) && s !in w'.progress.seen
        ensures Pending(w', s)
      {
        assert UnderRoot(w.dom, root, s);
        AboveIn(w'.dom, s, s);
        StillPending(w, w', s, s);
      }
    }
  }

  /** Everything the delivered queue added is exhausted, so what is still unseen is pending in another queue. */
  lemma PendingElsewhere(w: World, o: Id, w': World, s: Id)
    requires w'.dom == w.dom && o in w.queues && AddedElements(w)
    requires s !in w'.progress.seen && s in w.dom.open && Pending(w, s)
    requires forall i, a :: Undelivered(w.queues, o, i, a) ==> Exhausted(w'.progress, w.dom, a)
    requires forall k, i, a :: k != o && Undelivered(w.queues, k, i, a) ==> Undelivered(w'.queues, k, i, a)
    ensures Pending(w', s)
  {
    var k, i, a :| Undelivered(w.queues, k, i, a) && VisibleAbove(w.dom, a, s);
    assert k == o ==> Exhausted(w'.progress, w.dom, a);
  }

  lemma QueuesAfterDelivery(root: Id, w: World, o: Id, p: Progress)
    requires w.queues.Keys == {root} + w.progress.seen && w.progress.seen <= p.seen && o in w.queues
    ensures
      var q := AfterDelivery(root, w, o, p);
      && q.Keys == {root} + p.seen
      && (forall k, i, a :: Undelivered(q, k, i, a) ==> Undelivered(w.queues, k, i, a))
      && (forall k, i, a :: k != o && Undelivered(w.queues, k, i, a) ==> Undelivered(q, k, i, a))
  {}

  lemma DeliverKeeps(root: Id, w: World, o: Id, w': World)
    requires Invariant(root, w) && DeliverStep(root, w, o, w')
    ensures Invariant(root, w')
  {
    var rs := w.queues[o];
    BatchSees(w.progress, w.dom, o == root, rs);
    QueuesAfterDelivery(root, w, o, w'.progress);
    forall i: nat, a: Id | Undelivered(w.queues, o, i, a)
      ensures Exhausted(w'.progress, w.dom, a)
    {
      var j :| 0 <= j < |rs[i].added| && rs[i].added[j] == a;
    }
    forall s | UnderRoot(w.dom, root, s) && s !in w'.progress.seen
      ensures Pending(w', s)
    {
      PendingElsewhere(w, o, w', s);
    }
  }

  lemma InitialInvariant(root: Id, w: World)
    requires Initial(root, w)
    ensures Invariant(root, w)
  {
    ScanSees(NOTHING, w.dom, root);
    forall s | UnderRoot(w.dom, root, s)
      ensures s in w.progress.seen
    {
      assert s in w.dom.host;
      assert s != root;
    }
  }

  /** Each kind of step keeps the invariant. */
  lemma StepKeeps(root: Id, w: World, e: Event, w': World)
    requires Invariant(root, w) && Step(root, w, e, w')
    ensures Invariant(root, w')
  {
    match e {
      case Attach(h, s, isOpen) => AttachKeeps(root, w, h, s, isOpen, w');
      case Insert(n, target) => InsertKeeps(root, w, n, target, w');
      case Remove(n) => RemoveKeeps(root, w, n, w');
      case Change(target) => ChangeKeeps(root, w, target, w');
      case Deliver(o) => DeliverKeeps(root, w, o, w');
      case Dispose =>
    }
  }

  /** The invariant holds all along every run. */
  lemma {:induction false} RunInvariant(root: Id, ws: seq<World>, es: seq<Event>, i: nat)
    requires Run(root, ws, es) && i < |ws|
    ensures Invariant(root, ws[i])
  {
    if i == 0 {
      InitialInvariant(root, ws[0]);
    } else {
      RunInvariant(root, ws, es, i - 1);
      assert Step(root, ws[i - 1], es[i - 1], ws[(i - 1) + 1]);
      StepKeeps(root, ws[i - 1], es[i - 1], ws[i]);
    }
  }

  // ---------------------------------------------------------------- nothing but open roots

  ghost predicate OnlyOpen(p: Progress, d: Document) { AnnouncedOnce(p) && p.seen <= d.open }

  lemma ScanOpen(p: Progress, d: Document, n: Id)
    requires OnlyOpen(p, d)
    ensures OnlyOpen(Scan(p, d, n), d)
  {
    NoteAllKeeps(p, Discover(d, n));
    forall s | s in Discover(d, n) ensures s in d.open {
      DiscoverIff(d, n, s);
    }
  }

  lemma {:induction false} ScanAllOpen(p: Progress, d: Document, ns: seq<Id>)
    requires OnlyOpen(p, d)
    ensures OnlyOpen(ScanAll(p, d, ns), d)
    decreases |ns|
  {
    if ns != [] {
      ScanOpen(p, d, ns[0]);
      ScanAllOpen(Scan(p, d, ns[0]), d, ns[1..]);
    }
  }

  lemma {:induction false} BatchOpen(p: Progress, d: Document, isHost: bool, rs: seq<Record>)
    requires OnlyOpen(p, d)
    ensures OnlyOpen(Batch(p, d, isHost, rs), d)
    decreases |rs|
  {
    if rs != [] {
      var r := rs[0];
      if isHost && r.childList && r.target in d.shadow && d.shadow[r.target] !in p.seen {
        var s := d.shadow[r.target];
        ScanOpen(Note(p, s), d, s);
        ScanAllOpen(Scan(Note(p, s), d, s), d, r.added);
      } else if r.childList {
        ScanAllOpen(p, d, r.added);
      }
      BatchOpen(OneRecord(p, d, isHost, r), d, isHost, rs[1..]);
    }
  }

  lemma AttachOpen(root: Id, w: World, h: Id, s: Id, isOpen: bool, w': World)
    requires OnlyOpen(w.progress, w.dom) && AttachStep(root, w, h, s, isOpen, w')
    ensures OnlyOpen(w'.progress, w'.dom)
  {
    NoteKeeps(w.progress, s);
  }

  lemma DeliverOpen(root: Id, w: World, o: Id, w': World)
    requires OnlyOpen(w.progress, w.dom) && DeliverStep(root, w, o, w')
    ensures OnlyOpen(w'.progress, w'.dom)
  {
    BatchOpen(w.progress, w.dom, o == root, w.queues[o]);
  }

  lemma StepOpen(root: Id, w: World, e: Event, w': World)
    requires OnlyOpen(w.progress, w.dom) && Step(root, w, e, w')
    ensures OnlyOpen(w'.progress, w'.dom)
  {
    match e
    case Attach(h, s, isOpen) => AttachOpen(root, w, h, s, isOpen, w');
    case Deliver(o) => DeliverOpen(root, w, o, w');
    case _ => assert w'.progress == w.progress && w'.dom.open == w.dom.open;
  }

  /** Along every run, only open shadow roots are observed and announced. */
  lemma {:induction false} OnlyOpenRoots(root: Id, ws: seq<World>, es: seq<Event>, i: nat)
    requires Run(root, ws, es) && i < |ws|
    ensures OnlyOpen(ws[i].progress, ws[i].dom)
  {
    if i == 0 {
      ScanOpen(NOTHING, ws[0].dom, root);
    } else {
      OnlyOpenRoots(root, ws, es, i - 1);
      var w, e := ws[i - 1], es[i - 1];
      assert Step(root, w, e, ws[(i - 1) + 1]);
      StepOpen(root, w, e, ws[i]);
    }
  }

  /**
   * Over every run: an open shadow root below the document that has not been seen lies below a node
   * added by an undelivered record; once nothing is undelivered every one of them has been seen;
   * each root seen was announced exactly once, and only open roots are.
   */
  lemma ShadowCoverage(root: Id, ws: seq<World>, es: seq<Event>, i: nat)
    requires Run(root, ws, es) && i < |ws|
    ensures
      var w := ws[i];
      && (forall s :: s in w.progress.announced <==> s in w.progress.seen) && Distinct(w.progress.announced)
      && (!w.disposed ==> forall s :: UnderRoot(w.dom, root, s) ==> s in w.progress.seen || Pending(w, s))
      && (!w.disposed && (forall o :: o in w.queues ==> w.queues[o] == []) ==>
            forall s :: UnderRoot(w.dom, root, s) ==> s in w.progress.seen)
      && w.progress.seen <= w.dom.open
  {
    RunInvariant(root, ws, es, i);
    OnlyOpenRoots(root, ws, es, i);
  }
}
