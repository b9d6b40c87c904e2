/**
 * Who is primary: while the composed-ancestor order of tracked hosts stays as it is, a tracked
 * popup is primary exactly when no other tracked host encloses it.
 */
module PopupRoles {
  import opened Prelude
  import opened ComposedTree
  import opened Popups
  import opened PopupRuns

  predicate SamePlace(a: Entry, b: Entry) {
    a.host == b.host && a.info.popupId == b.info.popupId && a.info.role == b.info.role && a.info.parent == b.info.parent
  }

  /** The recorded parent of a nested popup is tracked and encloses it; nothing tracked encloses a primary. */
  ghost predicate Placed(d: Document, tracked: seq<Entry>, e: Entry) {
    && (e.info.role == Primary ==> forall a :: a in tracked ==> !Contains(d, a.host, e.host))
    && (e.info.role == Nested ==>
          exists a :: a in tracked && e.info.parent == Some(a.info.popupId) && Contains(d, a.host, e.host))
  }

  ghost predicate AllPlaced(d: Document, tracked: seq<Entry>) {
    forall e :: e in tracked ==> Placed(d, tracked, e)
  }

  /** The order of the tracked hosts is the same in both documents. */
  ghost predicate SameOrder(d: Document, d': Document, tracked: seq<Entry>) {
    forall a, b :: a in tracked && b in tracked ==> (Contains(d, a.host, b.host) <==> Contains(d', a.host, b.host))
  }

  lemma PlacedElsewhere(d: Document, d': Document, tracked: seq<Entry>)
    requires AllPlaced(d, tracked) && SameOrder(d, d', tracked)
    ensures AllPlaced(d', tracked)
  {
    forall e | e in tracked ensures Placed(d', tracked, e) {
      assert Placed(d, tracked, e);
    }
  }

  lemma ContainsTransitive(d: Document, a: Id, b: Id, c: Id)
    requires Contains(d, a, b) && Contains(d, b, c)
    ensures Contains(d, a, c)
  {
    AboveTransitive(Up(d), a, b, c);
    AboveRank(Up(d), a, b);
    AboveRank(Up(d), b, c);
  }

  // ---------------------------------------------------------------- entries that only changed their timers

  /** The same popups in the same places, whatever their timers. */
  predicate SamePlaces(t: seq<Entry>, t': seq<Entry>) {
    |t| == |t'| && forall i :: 0 <= i < |t| ==> SamePlace(t[i], t'[i])
  }

  lemma PlacesKept(d: Document, t: seq<Entry>, t': seq<Entry>)
    requires AllPlaced(d, t) && SamePlaces(t, t')
    ensures AllPlaced(d, t')
  {
    forall e' | e' in t' ensures Placed(d, t', e') {
      var i :| 0 <= i < |t'| && t'[i] == e';
      var e := t[i];
      assert Placed(d, t, e) && SamePlace(e, e');
      if e.info.role == Primary {
        forall a' | a' in t' ensures !Contains(d, a'.host, e'.host) {
          var j :| 0 <= j < |t'| && t'[j] == a';
          assert t[j] in t && SamePlace(t[j], t'[j]);
        }
      } else {
        var a :| a in t && e.info.parent == Some(a.info.popupId) && Contains(d, a.host, e.host);
        var j :| 0 <= j < |t| && t[j] == a;
        assert t'[j] in t' && SamePlace(t[j], t'[j]);
      }
    }
  }

  lemma SchedulePlaces(tracked: seq<Entry>, host: Id)
    ensures SamePlaces(tracked, Schedule(tracked, host))
  {}

  lemma ReSnapshotPlaces(s: State, host: Id, snap: Snapshots)
    ensures SamePlaces(s.tracked, ReSnapshot(s, host, snap).tracked)
  {}

  // ---------------------------------------------------------------- registration

  lemma EntryAt(tracked: seq<Entry>, host: Id, e: Entry)
    requires Separate(tracked) && e in tracked && e.host == host
    ensures IndexOf(tracked, host).Some? && tracked[IndexOf(tracked, host).value] == e
  {
    var i :| 0 <= i < |tracked| && tracked[i] == e;
    assert Has(tracked, host);
  }

  /** What the search for a parent found. */
  lemma ParentEncloses(s: State, d: Document, host: Id)
    requires Separate(s.tracked) && !Has(s.tracked, host)
    ensures
      match ParentOf(s, d, host)
      case None => forall a :: a in s.tracked ==> !Contains(d, a.host, host)
      case Some(id) => exists a :: a in s.tracked && a.info.popupId == id && Contains(d, a.host, host)
  {
    EnclosingIsNearest(d, host, IsTracked(s.tracked));
    var p := Enclosing(d, host, IsTracked(s.tracked));
    if p.Some? {
      var i := IndexOf(s.tracked, p.value);
      var a := s.tracked[i.value];
      assert a in s.tracked && a.host == p.value;
    } else {
      forall a | a in s.tracked ensures !Contains(d, a.host, host) {
        assert Has(s.tracked, a.host);
      }
    }
  }

  /** A nested newcomer: whatever it encloses was nested already. */
  lemma NestedPlaced(d: Document, tracked: seq<Entry>, e: Entry)
    requires AllPlaced(d, tracked) && e.info.role == Nested && !Has(tracked, e.host)
    requires exists a :: a in tracked && e.info.parent == Some(a.info.popupId) && Contains(d, a.host, e.host)
    ensures AllPlaced(d, tracked + [e])
  {
    var p :| p in tracked && e.info.parent == Some(p.info.popupId) && Contains(d, p.host, e.host);
    forall x | x in tracked + [e] ensures Placed(d, tracked + [e], x) {
      if x in tracked {
        assert Placed(d, tracked, x);
        if x.info.role == Primary {
          if Contains(d, e.host, x.host) {
            ContainsTransitive(d, p.host, e.host, x.host);
          }
        } else {
          var a :| a in tracked && x.info.parent == Some(a.info.popupId) && Contains(d, a.host, x.host);
          assert a in tracked + [e];
        }
      } else {
        assert p in tracked + [e];
      }
    }
  }

  /** A primary newcomer takes over the primaries it encloses. */
  lemma PrimaryPlaced(d: Document, tracked: seq<Entry>, e: Entry)
    requires AllPlaced(d, tracked) && e.info.role == Primary && !Has(tracked, e.host)
    requires forall a :: a in tracked ==> !Contains(d, a.host, e.host)
    ensures AllPlaced(d, Reparented(tracked, d, e.host, e.info.popupId) + [e])
  {
    var r := Reparented(tracked, d, e.host, e.info.popupId);
    var all := r + [e];
    forall x' | x' in all ensures Placed(d, all, x') {
      if x' == e {
        forall a' | a' in all ensures !Contains(d, a'.host, e.host) {
          if a' != e {
            var j :| 0 <= j < |r| && r[j] == a';
            assert tracked[j] in tracked && tracked[j].host == a'.host;
          }
        }
      } else {
        var i :| 0 <= i < |r| && r[i] == x';
        ReparentedPlaced(d, tracked, e, i);
      }
    }
  }

  lemma ReparentedPlaced(d: Document, tracked: seq<Entry>, e: Entry, i: nat)
    requires AllPlaced(d, tracked) && i < |tracked| && !Has(tracked, e.host)
    ensures
      var r := Reparented(tracked, d, e.host, e.info.popupId);
      Placed(d, r + [e], r[i])
  {
    var r := Reparented(tracked, d, e.host, e.info.popupId);
    var all := r + [e];
    var x := tracked[i];
    assert x in tracked && Placed(d, tracked, x) && x.host != e.host;
    if Moves(d, e.host, x) {
      assert e in all;
    } else if x.info.role == Primary {
      forall a' | a' in all ensures !Contains(d, a'.host, x.host) {
        if a' != e {
          var j :| 0 <= j < |r| && r[j] == a';
          assert tracked[j] in tracked && tracked[j].host == a'.host;
        }
      }
    } else {
      var a :| a in tracked && x.info.parent == Some(a.info.popupId) && Contains(d, a.host, x.host);
      var j :| 0 <= j < |tracked| && tracked[j] == a;
      assert r[j] in all && r[j].host == a.host && r[j].info.popupId == a.info.popupId;
    }
  }

  lemma RegisterPlaces(s: State, d: Document, host: Id, detection: Detection, snap: Snapshots, id: Id)
    requires Separate(s.tracked) && AllPlaced(d, s.tracked)
    ensures AllPlaced(d, Register(s, d, host, detection, snap, id).tracked)
  {
    if !s.disposed && !Has(s.tracked, host) {
      ParentEncloses(s, d, host);
      var info := NewInfo(s, d, host, snap, id);
      if info.role == Primary {
        PrimaryPlaced(d, s.tracked, Entry(host, info.(observers := if detection == Shadow then 2 else 1)));
      } else {
        NestedPlaced(d, s.tracked, Entry(host, info));
        var tracked := s.tracked + [Entry(host, info)];
        var primary := Enclosing(d, host, IsPrimary(tracked));
        if primary.Some? {
          SchedulePlaces(tracked, primary.value);
          PlacesKept(d, tracked, Schedule(tracked, primary.value));
        }
      }
    }
  }

  /** Above every tracked host, or at it, stands a primary one. */
  lemma {:induction false} PrimaryAbove(d: Document, tracked: seq<Entry>, e: Entry) returns (p: Entry)
    requires AllPlaced(d, tracked) && e in tracked
    ensures p in tracked && p.info.role == Primary && (p == e || Contains(d, p.host, e.host))
    decreases Rank(Up(d), e.host)
  {
    assert Placed(d, tracked, e);
    if e.info.role == Primary {
      p := e;
    } else {
      var a :| a in tracked && e.info.parent == Some(a.info.popupId) && Contains(d, a.host, e.host);
      AboveRank(Up(d), a.host, e.host);
      p := PrimaryAbove(d, tracked, a);
      if p != a {
        ContainsTransitive(d, p.host, a.host, e.host);
      }
    }
  }

  lemma PrimaryIsFound(d: Document, tracked: seq<Entry>, host: Id, p: Entry)
    requires Separate(tracked) && p in tracked && p.info.role == Primary && Contains(d, p.host, host)
    ensures Enclosing(d, host, IsPrimary(tracked)).Some?
  {
    EntryAt(tracked, p.host, p);
    EnclosingIsNearest(d, host, IsPrimary(tracked));
    assert HasPrimary(tracked, p.host);
  }

  /** Whatever a tracked host encloses lies inside a primary one. */
  lemma EnclosedByPrimary(d: Document, tracked: seq<Entry>, a: Entry, host: Id) returns (p: Entry)
    requires AllPlaced(d, tracked) && a in tracked && Contains(d, a.host, host)
    ensures p in tracked && p.info.role == Primary && Contains(d, p.host, host)
  {
    p := PrimaryAbove(d, tracked, a);
    if p != a {
      ContainsTransitive(d, p.host, a.host, host);
    }
  }

  /** Arming the primary that was found. */
  lemma ArmedPrimary(d: Document, tracked: seq<Entry>, host: Id)
    requires Enclosing(d, host, IsPrimary(tracked)).Some?
    ensures
      var found := Enclosing(d, host, IsPrimary(tracked)).value;
      exists e :: e in Schedule(tracked, found) && e.info.role == Primary && e.info.timer && Contains(d, e.host, host)
  {
    EnclosingIsNearest(d, host, IsPrimary(tracked));
    var found := Enclosing(d, host, IsPrimary(tracked)).value;
    assert HasPrimary(tracked, found);
    var i := IndexOf(tracked, found).value;
    var e := Schedule(tracked, found)[i];
    assert e in Schedule(tracked, found) && e.host == found;
  }

  /** A nested newcomer always has an enclosing primary, and arms its timer: that
   * is how a modal that fills in piece by piece gets reported. */
  lemma NestedRefreshesPrimary(s: State, d: Document, host: Id, detection: Detection, snap: Snapshots, id: Id)
    requires Good(s) && AllPlaced(d, s.tracked) && !s.disposed && !Has(s.tracked, host) && Fresh(s.emitted, id)
    requires ParentOf(s, d, host).Some?
    ensures exists e :: e in Register(s, d, host, detection, snap, id).tracked
                        && e.info.role == Primary && e.info.timer && Contains(d, e.host, host)
  {
    var entry := Entry(host, NewInfo(s, d, host, snap, id));
    ParentEncloses(s, d, host);
    var a :| a in s.tracked && a.info.popupId == ParentOf(s, d, host).value && Contains(d, a.host, host);
    var p := EnclosedByPrimary(d, s.tracked, a, host);
    FreshIsUntracked(s, id);
    AppendEntry(s.tracked, entry);
    PrimaryIsFound(d, s.tracked + [entry], host, p);
    ArmedPrimary(d, s.tracked + [entry], host);
  }

  lemma {:induction false} RegisterAllPlaces(s: State, d: Document, overlays: seq<Overlay>, snap: Snapshots)
    requires Good(s) && FreshOverlays(s, overlays) && AllPlaced(d, s.tracked)
    ensures AllPlaced(d, RegisterAll(s, d, overlays, snap).tracked)
  {
    if overlays != [] {
      var front, last := overlays[..|overlays| - 1], overlays[|overlays| - 1];
      RegisterAllPlaces(s, d, front, snap);
      RegisterAllKeeps(s, d, front, snap);
      RegisterPlaces(RegisterAll(s, d, front, snap), d, last.host, Portal, snap, last.id);
    }
  }

  // ---------------------------------------------------------------- the sweep

  /** Whatever encloses a connected host is connected. */
  lemma EncloserConnected(d: Document, doc: Id, a: Id, b: Id)
    requires IsDocument(d, doc) && Contains(d, a, b) && Connected(d, doc, b)
    ensures Connected(d, doc, a)
  {
    AboveLinear(Up(d), a, doc, b);
    AboveStep(Up(d), a, doc);
  }

  lemma SweepPlaces(tracked: seq<Entry>, d: Document, doc: Id)
    requires Separate(tracked) && AllPlaced(d, tracked) && IsDocument(d, doc)
    ensures AllPlaced(d, Staying(tracked, d, doc))
  {
    StayingMembers(tracked, d, doc);
    var r := Staying(tracked, d, doc);
    forall e | e in r ensures Placed(d, r, e) {
      assert Placed(d, tracked, e);
      if e.info.role == Nested {
        var a :| a in tracked && e.info.parent == Some(a.info.popupId) && Contains(d, a.host, e.host);
        EncloserConnected(d, doc, a.host, e.host);
        assert a in r;
      }
    }
  }

  // ---------------------------------------------------------------- runs

  /** The document of the last step that had one. */
  function Current(start: Document, steps: seq<Step>): Document {
    if steps == [] then start
    else
      match steps[|steps| - 1]
      case AttachShadow(d, _, _, _) => d
      case Body(d, _, _, _) => d
      case _ => Current(start, steps[..|steps| - 1])
  }

  /** Whenever the document is looked at, the tracked hosts are in the order they were last seen in. */
  ghost predicate OrderKept(baseline: set<Id>, start: Document, steps: seq<Step>) {
    steps == []
    || var front := steps[..|steps| - 1];
       && OrderKept(baseline, start, front)
       && SameOrder(Current(start, front), Current(start, steps), Run(baseline, front).tracked)
  }

  lemma StepPlaces(baseline: set<Id>, s: State, d: Document, d': Document, step: Step)
    requires Good(s) && Possible(s, step) && AllPlaced(d, s.tracked) && SameOrder(d, d', s.tracked)
    requires (step.AttachShadow? || step.Body?) ==> step.d == d'
    ensures AllPlaced(d', After(baseline, s, step).tracked)
  {
    PlacedElsewhere(d, d', s.tracked);
    match step
    case AttachShadow(_, host, snap, id) =>
      RegisterPlaces(s, d', host, Shadow, snap, id);
    case Body(_, doc, overlays, snap) =>
      if !s.disposed {
        RegisterAllPlaces(s, d', overlays, snap);
        RegisterAllKeeps(s, d', overlays, snap);
        SweepPlaces(RegisterAll(s, d', overlays, snap).tracked, d', doc);
      }
    case Widget(host) =>
      SchedulePlaces(s.tracked, host);
      PlacesKept(d', s.tracked, Schedule(s.tracked, host));
    case Timer(host, snap) =>
      ReSnapshotPlaces(s, host, snap);
      PlacesKept(d', s.tracked, ReSnapshot(s, host, snap).tracked);
    case Dispose =>
  }

  lemma {:induction false} RunPlaces(baseline: set<Id>, start: Document, steps: seq<Step>)
    requires PossibleRun(baseline, steps) && OrderKept(baseline, start, steps)
    ensures AllPlaced(Current(start, steps), Run(baseline, steps).tracked)
  {
    if steps != [] {
      var front := steps[..|steps| - 1];
      RunPlaces(baseline, start, front);
      RunIsGood(baseline, front);
      StepPlaces(baseline, Run(baseline, front), Current(start, front), Current(start, steps), steps[|steps| - 1]);
    }
  }

  /** Primary if and only if no other tracked host encloses it. */
  lemma PrimaryIffOutermost(baseline: set<Id>, start: Document, steps: seq<Step>, e: Entry)
    requires PossibleRun(baseline, steps) && OrderKept(baseline, start, steps)
    requires e in Run(baseline, steps).tracked
    ensures e.info.role == Primary
       <==> !exists a :: a in Run(baseline, steps).tracked && a != e && Contains(Current(start, steps), a.host, e.host)
    ensures e.info.role == Nested
        ==> exists a :: a in Run(baseline, steps).tracked && e.info.parent == Some(a.info.popupId)
                        && Contains(Current(start, steps), a.host, e.host)
  {
    RunPlaces(baseline, start, steps);
    assert Placed(Current(start, steps), Run(baseline, steps).tracked, e);
  }
}
