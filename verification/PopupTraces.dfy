/**
 * What one step does to the popups a consumer sees: who is tracked afterwards, what its trace shows,
 * what was reported of a newcomer, and how many observers watch it.
 */
module PopupTraces {
  import opened Prelude
  import opened ComposedTree
  import opened Popups
  import opened PopupRuns

  /** The popup `x` is tracked at the host `h`. */
  predicate Tracks(tracked: seq<Entry>, h: Id, x: Id) {
    exists e :: e in tracked && e.host == h && e.info.popupId == x
  }

  /** The first overlay at an untracked host makes it a popup of that overlay's id. */
  ghost predicate Joins(tracked: seq<Entry>, overlays: seq<Overlay>, h: Id, x: Id) {
    !Has(tracked, h) && exists j: nat :: FirstAt(overlays, j, h) && overlays[j].id == x
  }

  ghost predicate FirstAt(overlays: seq<Overlay>, j: nat, h: Id) {
    j < |overlays| && overlays[j].host == h && forall i :: 0 <= i < j ==> overlays[i].host != h
  }

  predicate Listed(overlays: seq<Overlay>, h: Id) { exists j :: 0 <= j < |overlays| && overlays[j].host == h }

  lemma {:induction false} FirstExists(overlays: seq<Overlay>, h: Id)
    ensures Listed(overlays, h) <==> exists j: nat :: FirstAt(overlays, j, h)
  {
    if overlays != [] {
      var front := overlays[..|overlays| - 1];
      FirstExists(front, h);
      assert forall i :: 0 <= i < |front| ==> front[i] == overlays[i];
      if j: nat :| FirstAt(front, j, h) {
        assert FirstAt(overlays, j, h);
      } else if overlays[|front|].host == h {
        assert FirstAt(overlays, |front|, h);
      }
    }
  }

  lemma HasIsTracks(tracked: seq<Entry>, h: Id)
    ensures Has(tracked, h) <==> exists x :: Tracks(tracked, h, x)
  {
    if i :| 0 <= i < |tracked| && tracked[i].host == h {
      assert tracked[i] in tracked && Tracks(tracked, h, tracked[i].info.popupId);
    }
  }

  // ---------------------------------------------------------------- one registration

  /** The same popups at the same hosts, and the primaries among them watched as before. */
  ghost predicate Heirs(tracked: seq<Entry>, tracked': seq<Entry>) {
    && (forall h, x :: Tracks(tracked', h, x) <==> Tracks(tracked, h, x))
    && (forall e' :: e' in tracked' ==> exists e :: e in tracked && Heir(e, e'))
  }

  predicate Heir(e: Entry, e': Entry) {
    && e'.host == e.host && e'.info.popupId == e.info.popupId
    && (e'.info.role == Primary ==> e.info.role == Primary && e'.info.observers == e.info.observers)
  }

  /** Place by place. */
  lemma HeirsByPlace(tracked: seq<Entry>, tracked': seq<Entry>)
    requires |tracked'| == |tracked| && forall i :: 0 <= i < |tracked| ==> Heir(tracked[i], tracked'[i])
    ensures Heirs(tracked, tracked')
  {
    forall h, x ensures Tracks(tracked', h, x) <==> Tracks(tracked, h, x) {
      if e :| e in tracked && e.host == h && e.info.popupId == x {
        var i :| 0 <= i < |tracked| && tracked[i] == e;
        assert Heir(tracked[i], tracked'[i]) && tracked'[i] in tracked';
      }
      if e :| e in tracked' && e.host == h && e.info.popupId == x {
        var i :| 0 <= i < |tracked'| && tracked'[i] == e;
        assert Heir(tracked[i], tracked'[i]) && tracked[i] in tracked;
      }
    }
    forall e' | e' in tracked' ensures exists e :: e in tracked && Heir(e, e') {
      var i :| 0 <= i < |tracked'| && tracked'[i] == e';
      assert tracked[i] in tracked && Heir(tracked[i], tracked'[i]);
    }
  }

  lemma HeirsWith(old': seq<Entry>, tracked: seq<Entry>, e: Entry)
    requires Heirs(old', tracked)
    ensures forall h, x :: Tracks(tracked + [e], h, x) <==> Tracks(old', h, x) || (h == e.host && x == e.info.popupId)
  {
    forall h, x ensures Tracks(tracked + [e], h, x) <==> Tracks(tracked, h, x) || (h == e.host && x == e.info.popupId) {
      if a :| a in tracked && a.host == h && a.info.popupId == x {
        assert a in tracked + [e];
      }
      assert e in tracked + [e];
    }
  }

  /** A host that is not tracked becomes a live popup under its new id, and nothing else changes. */
  ghost predicate Registered(s: State, host: Id, id: Id, s': State) {
    && (forall h, x :: Tracks(s'.tracked, h, x)
          <==> Tracks(s.tracked, h, x) || (!Has(s.tracked, host) && h == host && x == id))
    && (forall x ::
          StageOf(s'.emitted, x) == if x == id && !Has(s.tracked, host) then Live else StageOf(s.emitted, x))
  }

  lemma RegisterEffect(s: State, d: Document, host: Id, detection: Detection, snap: Snapshots, id: Id)
    requires Good(s) && !s.disposed && Fresh(s.emitted, id)
    ensures !Register(s, d, host, detection, snap, id).disposed
    ensures Registered(s, host, id, Register(s, d, host, detection, snap, id))
  {
    if !Has(s.tracked, host) {
      var info := NewInfo(s, d, host, snap, id);
      var appeared := EventOf(info, Appeared, snap(host));
      if info.role == Primary {
        PrimaryStream(s, d, host, snap, id, appeared);
        var tracked := Reparented(s.tracked, d, host, id);
        HeirsByPlace(s.tracked, tracked);
        HeirsWith(s.tracked, tracked, Entry(host, info.(observers := if detection == Shadow then 2 else 1)));
      } else {
        NestedEffect(s, d, host, snap, id);
      }
    }
  }

  lemma NestedEffect(s: State, d: Document, host: Id, snap: Snapshots, id: Id)
    requires Good(s) && Fresh(s.emitted, id)
    ensures
      var info := NewInfo(s, d, host, snap, id);
      var tracked := s.tracked + [Entry(host, info)];
      && (forall h, x :: Tracks(tracked, h, x) <==> Tracks(s.tracked, h, x) || (h == host && x == id))
      && (forall x :: StageOf(s.emitted + [EventOf(info, Appeared, snap(host))], x)
                      == if x == id then Live else StageOf(s.emitted, x))
      && forall p :: Heirs(tracked, Schedule(tracked, p))
  {
    var info := NewInfo(s, d, host, snap, id);
    var tracked := s.tracked + [Entry(host, info)];
    FreshIsUnborn(s.emitted, id);
    Snoc(s.emitted, EventOf(info, Appeared, snap(host)));
    HeirsByPlace(s.tracked, s.tracked);
    HeirsWith(s.tracked, s.tracked, Entry(host, info));
    forall p ensures Heirs(tracked, Schedule(tracked, p)) {
      ScheduleEffect(tracked, p);
      HeirsByPlace(tracked, Schedule(tracked, p));
    }
  }

  // ---------------------------------------------------------------- a batch of overlays

  lemma JoinsLast(tracked: seq<Entry>, overlays: seq<Overlay>, h: Id, x: Id)
    requires overlays != []
    ensures
      var front, last := overlays[..|overlays| - 1], overlays[|overlays| - 1];
      Joins(tracked, overlays, h, x)
      <==> Joins(tracked, front, h, x)
           || (last == Overlay(h, x) && !Has(tracked, h) && !Listed(front, h))
  {
    var front, last := overlays[..|overlays| - 1], overlays[|overlays| - 1];
    assert forall i :: 0 <= i < |front| ==> front[i] == overlays[i];
    if j: nat :| FirstAt(overlays, j, h) && overlays[j].id == x {
      if j < |front| {
        assert FirstAt(front, j, h);
      }
    }
    if j: nat :| FirstAt(front, j, h) && front[j].id == x {
      assert FirstAt(overlays, j, h);
    }
    if last.host == h && !Listed(front, h) {
      forall i | 0 <= i < |front| ensures overlays[i].host != h {
        assert front[i].host != h;
      }
      assert FirstAt(overlays, |front|, h);
    }
  }

  /** What a batch of overlays comes to: the newcomers are tracked and live, and nothing else changes. */
  ghost predicate Joined(s: State, overlays: seq<Overlay>, s': State) {
    && (forall h, x :: Tracks(s'.tracked, h, x) <==> Tracks(s.tracked, h, x) || Joins(s.tracked, overlays, h, x))
    && (forall h, x :: Joins(s.tracked, overlays, h, x) ==> StageOf(s'.emitted, x) == Live)
    && (forall x :: NoneJoins(s.tracked, overlays, x) ==> StageOf(s'.emitted, x) == StageOf(s.emitted, x))
  }

  ghost predicate NoneJoins(tracked: seq<Entry>, overlays: seq<Overlay>, x: Id) {
    forall h :: !Joins(tracked, overlays, h, x)
  }

  lemma OneMoreJoins(s: State, overlays: seq<Overlay>, mid: State, s': State)
    requires overlays != []
    requires
      var front, last := overlays[..|overlays| - 1], overlays[|overlays| - 1];
      Joined(s, front, mid) && Registered(mid, last.host, last.id, s')
    ensures Joined(s, overlays, s')
  {
    var front, last := overlays[..|overlays| - 1], overlays[|overlays| - 1];
    StillUntracked(s.tracked, front, mid.tracked, last.host);
    forall h, x
      ensures Joins(s.tracked, overlays, h, x)
         <==> Joins(s.tracked, front, h, x) || (!Has(mid.tracked, last.host) && h == last.host && x == last.id)
    {
      JoinsLast(s.tracked, overlays, h, x);
    }
    forall x | NoneJoins(s.tracked, overlays, x)
      ensures NoneJoins(s.tracked, front, x) && (x == last.id ==> Has(mid.tracked, last.host))
    {
      assert !Joins(s.tracked, overlays, last.host, x);
      forall h ensures !Joins(s.tracked, front, h, x) {
        assert !Joins(s.tracked, overlays, h, x);
      }
    }
  }

  lemma {:induction false} RegisterAllEffect(s: State, d: Document, overlays: seq<Overlay>, snap: Snapshots)
    requires Good(s) && !s.disposed && FreshOverlays(s, overlays)
    ensures !RegisterAll(s, d, overlays, snap).disposed && Joined(s, overlays, RegisterAll(s, d, overlays, snap))
  {
    if overlays != [] {
      var front, last := overlays[..|overlays| - 1], overlays[|overlays| - 1];
      RegisterAllEffect(s, d, front, snap);
      RegisterAllKeeps(s, d, front, snap);
      var mid := RegisterAll(s, d, front, snap);
      assert Fresh(mid.emitted, last.id) by {
        assert forall i :: 0 <= i < |front| ==> front[i].id != last.id;
      }
      RegisterEffect(mid, d, last.host, Portal, snap, last.id);
      OneMoreJoins(s, overlays, mid, RegisterAll(s, d, overlays, snap));
    }
  }

  lemma StillUntracked(tracked: seq<Entry>, overlays: seq<Overlay>, tracked': seq<Entry>, h: Id)
    requires forall x :: Tracks(tracked', h, x) <==> Tracks(tracked, h, x) || Joins(tracked, overlays, h, x)
    ensures Has(tracked', h) <==> Has(tracked, h) || Listed(overlays, h)
  {
    HasIsTracks(tracked, h);
    HasIsTracks(tracked', h);
    FirstExists(overlays, h);
    if Listed(overlays, h) && !Has(tracked, h) {
      var j: nat :| FirstAt(overlays, j, h);
      assert Joins(tracked, overlays, h, overlays[j].id);
    }
  }

  // ---------------------------------------------------------------- the sweep

  lemma SweepEffect(s: State, d: Document, doc: Id)
    requires Good(s) && !s.disposed
    ensures
      var s' := Sweep(s, d, doc);
      && (forall h, x :: Tracks(s'.tracked, h, x) <==> Tracks(s.tracked, h, x) && Connected(d, doc, h))
      && (forall h, x :: Tracks(s.tracked, h, x) ==>
            StageOf(s'.emitted, x) == if Connected(d, doc, h) then Live else Gone)
      && (forall x :: (forall h :: !Tracks(s.tracked, h, x)) ==> StageOf(s'.emitted, x) == StageOf(s.emitted, x))
  {
    var s' := Sweep(s, d, doc);
    LeavingEffect(s.emitted, s.tracked, d, doc);
    StayingMembers(s.tracked, d, doc);
    forall h, x | Tracks(s.tracked, h, x)
      ensures StageOf(s'.emitted, x) == if Connected(d, doc, h) then Live else Gone
    {
      var e :| e in s.tracked && e.host == h && e.info.popupId == x;
      if Connected(d, doc, h) {
        StaysPut(s.tracked, d, doc, e);
        assert EntryOk(s.emitted, e.info);
      }
    }
    forall x | forall h :: !Tracks(s.tracked, h, x)
      ensures !LeftId(s.tracked, d, doc, x)
    {
      forall i | 0 <= i < |s.tracked| ensures s.tracked[i].info.popupId != x {
        assert s.tracked[i] in s.tracked;
        assert !Tracks(s.tracked, s.tracked[i].host, x);
      }
    }
  }

  // ---------------------------------------------------------------- a mutation batch, over runs

  /** How often a popup was reported to have gone. */
  function Departures(evs: seq<Event>, x: Id): nat {
    if evs == [] then 0
    else
      var e := evs[|evs| - 1];
      Departures(evs[..|evs| - 1], x) + if e.popupId == x && e.phase == Disappeared then 1 else 0
  }

  lemma {:induction false} DepartsOnce(evs: seq<Event>, x: Id)
    requires StageOf(evs, x) != Broken
    ensures Departures(evs, x) == if StageOf(evs, x) == Gone then 1 else 0
  {
    if evs != [] {
      DepartsOnce(evs[..|evs| - 1], x);
    }
  }

  /** Tracked before, or joining with this batch. */
  ghost predicate Concerned(tracked: seq<Entry>, overlays: seq<Overlay>, h: Id, x: Id) {
    Tracks(tracked, h, x) || Joins(tracked, overlays, h, x)
  }

  ghost predicate Bystander(tracked: seq<Entry>, overlays: seq<Overlay>, x: Id) {
    forall h :: !Concerned(tracked, overlays, h, x)
  }

  lemma BodyTracks(s: State, d: Document, doc: Id, overlays: seq<Overlay>, snap: Snapshots)
    requires Good(s) && !s.disposed && FreshOverlays(s, overlays)
    ensures
      var s' := BodyMutations(s, d, doc, overlays, snap);
      && Good(s')
      && (forall h, x :: Tracks(s'.tracked, h, x) <==> Connected(d, doc, h) && Concerned(s.tracked, overlays, h, x))
      && (forall h, x :: Concerned(s.tracked, overlays, h, x) ==>
            StageOf(s'.emitted, x) == if Connected(d, doc, h) then Live else Gone)
      && (forall x :: Bystander(s.tracked, overlays, x) ==> StageOf(s'.emitted, x) == StageOf(s.emitted, x))
  {
    var mid := RegisterAll(s, d, overlays, snap);
    RegisterAllKeeps(s, d, overlays, snap);
    RegisterAllEffect(s, d, overlays, snap);
    SweepKeeps(mid, d, doc);
    SweepEffect(mid, d, doc);
    forall h, x | Concerned(s.tracked, overlays, h, x) ensures Tracks(mid.tracked, h, x) {}
    forall x | Bystander(s.tracked, overlays, x)
      ensures NoneJoins(s.tracked, overlays, x) && forall h :: !Tracks(mid.tracked, h, x)
    {
      forall h ensures !Tracks(mid.tracked, h, x) && !Joins(s.tracked, overlays, h, x) {
        assert !Concerned(s.tracked, overlays, h, x);
      }
    }
  }

  lemma NotGoneYet(s: State, overlays: seq<Overlay>, h: Id, x: Id)
    requires Good(s) && FreshOverlays(s, overlays) && Concerned(s.tracked, overlays, h, x)
    ensures StageOf(s.emitted, x) != Gone && StageOf(s.emitted, x) != Broken
  {
    if Tracks(s.tracked, h, x) {
      var e :| e in s.tracked && e.host == h && e.info.popupId == x;
      assert EntryOk(s.emitted, e.info);
    } else {
      FreshIsUnborn(s.emitted, x);
    }
  }

  /**
   * A batch of body mutations during a run. Afterwards exactly the connected ones among the popups
   * tracked before and the newcomers are tracked. Whoever is not connected is gone, by one event that
   * says so; the others are live; and the trace of everybody else is as it was.
   */
  lemma BodySettles(baseline: set<Id>, steps: seq<Step>, d: Document, doc: Id, overlays: seq<Overlay>, snap: Snapshots)
    requires PossibleRun(baseline, steps) && !Run(baseline, steps).disposed
    requires Possible(Run(baseline, steps), Body(d, doc, overlays, snap))
    ensures
      var s := Run(baseline, steps);
      var s' := After(baseline, s, Body(d, doc, overlays, snap));
      && (forall x :: StageOf(s.emitted, x) == Live <==> exists h :: Tracks(s.tracked, h, x))
      && (forall h, x :: Tracks(s'.tracked, h, x) <==> Connected(d, doc, h) && Concerned(s.tracked, overlays, h, x))
      && (forall h, x :: Concerned(s.tracked, overlays, h, x) ==>
            && StageOf(s'.emitted, x) == (if Connected(d, doc, h) then Live else Gone)
            && Departures(s'.emitted, x) == Departures(s.emitted, x) + if Connected(d, doc, h) then 0 else 1)
      && (forall x :: Bystander(s.tracked, overlays, x) ==>
            StageOf(s'.emitted, x) == StageOf(s.emitted, x) && Departures(s'.emitted, x) == Departures(s.emitted, x))
  {
    RunIsGood(baseline, steps);
    var s := Run(baseline, steps);
    var s' := BodyMutations(s, d, doc, overlays, snap);
    BodyTracks(s, d, doc, overlays, snap);
    BodyCounts(s, s', d, doc, overlays);
    forall x ensures StageOf(s.emitted, x) == Live <==> exists h :: Tracks(s.tracked, h, x) {
      LiveIsTracked(s, x);
    }
  }

  lemma BodyCounts(s: State, s': State, d: Document, doc: Id, overlays: seq<Overlay>)
    requires Good(s) && Good(s') && FreshOverlays(s, overlays)
    requires forall h, x :: Concerned(s.tracked, overlays, h, x) ==>
               StageOf(s'.emitted, x) == if Connected(d, doc, h) then Live else Gone
    requires forall x :: Bystander(s.tracked, overlays, x) ==> StageOf(s'.emitted, x) == StageOf(s.emitted, x)
    ensures forall h, x :: Concerned(s.tracked, overlays, h, x) ==>
              Departures(s'.emitted, x) == Departures(s.emitted, x) + if Connected(d, doc, h) then 0 else 1
    ensures forall x :: Bystander(s.tracked, overlays, x) ==>
              Departures(s'.emitted, x) == Departures(s.emitted, x)
  {
    forall h, x | Concerned(s.tracked, overlays, h, x)
      ensures Departures(s'.emitted, x) == Departures(s.emitted, x) + if Connected(d, doc, h) then 0 else 1
    {
      NotGoneYet(s, overlays, h, x);
      DepartsOnce(s.emitted, x);
      DepartsOnce(s'.emitted, x);
    }
    forall x | Bystander(s.tracked, overlays, x)
      ensures Departures(s'.emitted, x) == Departures(s.emitted, x)
    {
      DepartsOnce(s.emitted, x);
      DepartsOnce(s'.emitted, x);
    }
  }

  lemma LiveIsTracked(s: State, x: Id)
    requires Good(s) && !s.disposed
    ensures StageOf(s.emitted, x) == Live <==> exists h :: Tracks(s.tracked, h, x)
  {
    if i :| 0 <= i < |s.tracked| && s.tracked[i].info.popupId == x {
      assert s.tracked[i] in s.tracked && Tracks(s.tracked, s.tracked[i].host, x);
      assert EntryOk(s.emitted, s.tracked[i].info);
    }
  }

  // ---------------------------------------------------------------- what a registration reports

  /** The popup `x` belongs to the nearest tracked host around `host`. */
  ghost predicate NearestAround(tracked: seq<Entry>, d: Document, host: Id, x: Id) {
    exists e :: e in tracked && e.info.popupId == x && Contains(d, e.host, host)
                && forall b :: b in tracked && Contains(d, b.host, host) ==>
                     b.host == e.host || Contains(d, b.host, e.host)
  }

  /** The tracked primaries inside a new popup, each told once, in order, that it is nested now. */
  ghost predicate Corrected(tracked: seq<Entry>, d: Document, host: Id, id: Id, snap: Snapshots, more: seq<Event>,
    at: seq<nat>)
  {
    && Places(at, |tracked|) && |more| == |at|
    && (forall i :: 0 <= i < |at| ==>
          more[i] == Event(tracked[at[i]].info.popupId, Updated, Nested, Some(id), snap(tracked[at[i]].host)))
    && (forall j :: 0 <= j < |tracked| ==> (j in at <==> InsidePrimary(d, host, tracked[j])))
  }

  ghost predicate InsidePrimary(d: Document, host: Id, e: Entry) {
    e.host != host && e.info.role == Primary && Contains(d, host, e.host)
  }

  lemma OneMoreCorrected(tracked: seq<Entry>, last: Entry, d: Document, host: Id, id: Id, snap: Snapshots,
    more: seq<Event>, at: seq<nat>)
    requires Corrected(tracked, d, host, id, snap, more, at)
    ensures !InsidePrimary(d, host, last) ==> Corrected(tracked + [last], d, host, id, snap, more, at)
    ensures InsidePrimary(d, host, last) ==>
              Corrected(tracked + [last], d, host, id, snap,
                        more + [Event(last.info.popupId, Updated, Nested, Some(id), snap(last.host))], at + [|tracked|])
  {
    assert |tracked| !in at;
  }

  lemma {:induction false} ReparentReports(tracked: seq<Entry>, d: Document, host: Id, id: Id, snap: Snapshots)
    returns (at: seq<nat>)
    ensures Corrected(tracked, d, host, id, snap, ReparentEvents(tracked, d, host, id, snap), at)
  {
    at := [];
    if tracked != [] {
      var front, last := tracked[..|tracked| - 1], tracked[|tracked| - 1];
      at := ReparentReports(front, d, host, id, snap);
      OneMoreCorrected(front, last, d, host, id, snap, ReparentEvents(front, d, host, id, snap), at);
      assert tracked == front + [last];
      if InsidePrimary(d, host, last) {
        at := at + [|front|];
      }
    }
  }

  lemma ParentIsNearest(s: State, d: Document, host: Id)
    requires Separate(s.tracked)
    ensures ParentOf(s, d, host).None? <==> forall e :: e in s.tracked ==> !Contains(d, e.host, host)
    ensures ParentOf(s, d, host).Some? ==> NearestAround(s.tracked, d, host, ParentOf(s, d, host).value)
  {
    EnclosingIsNearest(d, host, IsTracked(s.tracked));
    var p := Enclosing(d, host, IsTracked(s.tracked));
    forall b | b in s.tracked ensures Has(s.tracked, b.host) {
      var i :| 0 <= i < |s.tracked| && s.tracked[i] == b;
    }
    if p.Some? {
      var e := s.tracked[IndexOf(s.tracked, p.value).value];
      assert e in s.tracked && e.host == p.value;
    }
  }

  /**
   * A newcomer's appearance is the last event of its registration, with its content and its nearest
   * tracked enclosing popup for a parent. Without one it is primary, and just before it the tracked
   * primaries inside it were told that they are nested.
   */
  lemma NewcomerReports(s: State, d: Document, host: Id, detection: Detection, snap: Snapshots, id: Id)
    returns (more: seq<Event>, at: seq<nat>, parent: Option<Id>)
    requires Good(s) && !s.disposed && !Has(s.tracked, host)
    ensures Register(s, d, host, detection, snap, id).emitted
         == s.emitted + more + [Event(id, Appeared, if parent.Some? then Nested else Primary, parent, snap(host))]
    ensures parent.None? <==> forall e :: e in s.tracked ==> !Contains(d, e.host, host)
    ensures parent.Some? ==> NearestAround(s.tracked, d, host, parent.value) && more == []
    ensures parent.None? ==> Corrected(s.tracked, d, host, id, snap, more, at)
  {
    ParentIsNearest(s, d, host);
    parent := ParentOf(s, d, host);
    at := ReparentReports(s.tracked, d, host, id, snap);
    more := if parent.Some? then [] else ReparentEvents(s.tracked, d, host, id, snap);
    assert s.emitted + [] == s.emitted;
  }

  /** The disconnected ones, each told once, in order, with role and parent as last known and without content. */
  ghost predicate ToldGone(tracked: seq<Entry>, d: Document, doc: Id, more: seq<Event>, at: seq<nat>) {
    && Places(at, |tracked|) && |more| == |at|
    && (forall i :: 0 <= i < |at| ==>
          var info := tracked[at[i]].info;
          more[i] == Event(info.popupId, Disappeared, info.role, info.parent, None))
    && (forall j :: 0 <= j < |tracked| ==> (j in at <==> !Connected(d, doc, tracked[j].host)))
  }

  lemma OneMoreGone(tracked: seq<Entry>, last: Entry, d: Document, doc: Id, more: seq<Event>, at: seq<nat>)
    requires ToldGone(tracked, d, doc, more, at)
    ensures Connected(d, doc, last.host) ==> ToldGone(tracked + [last], d, doc, more, at)
    ensures !Connected(d, doc, last.host) ==>
              ToldGone(tracked + [last], d, doc, more + [EventOf(last.info, Disappeared, None)], at + [|tracked|])
  {
    assert |tracked| !in at;
  }

  /** What a sweep reports. */
  lemma {:induction false} SweepReports(tracked: seq<Entry>, d: Document, doc: Id) returns (at: seq<nat>)
    ensures ToldGone(tracked, d, doc, Leaving(tracked, d, doc), at)
  {
    at := [];
    if tracked != [] {
      var front, last := tracked[..|tracked| - 1], tracked[|tracked| - 1];
      at := SweepReports(front, d, doc);
      OneMoreGone(front, last, d, doc, Leaving(front, d, doc), at);
      assert tracked == front + [last];
      assert Leaving(front, d, doc) + [] == Leaving(front, d, doc);
      if !Connected(d, doc, last.host) {
        at := at + [|front|];
      }
    }
  }

  /** A batch of body mutations during a run: whatever the registrations emit comes first, the disappearances last. */
  lemma BodyReports(baseline: set<Id>, steps: seq<Step>, d: Document, doc: Id, overlays: seq<Overlay>, snap: Snapshots)
    returns (mid: State, more: seq<Event>, at: seq<nat>)
    requires PossibleRun(baseline, steps) && !Run(baseline, steps).disposed
    requires Possible(Run(baseline, steps), Body(d, doc, overlays, snap))
    ensures Joined(Run(baseline, steps), overlays, mid) && ToldGone(mid.tracked, d, doc, more, at)
    ensures After(baseline, Run(baseline, steps), Body(d, doc, overlays, snap)).emitted == mid.emitted + more
  {
    RunIsGood(baseline, steps);
    var s := Run(baseline, steps);
    RegisterAllEffect(s, d, overlays, snap);
    mid := RegisterAll(s, d, overlays, snap);
    more := Leaving(mid.tracked, d, doc);
    at := SweepReports(mid.tracked, d, doc);
  }

  // ---------------------------------------------------------------- timers

  /** The entries are the same but for the one at `i`, which differs in its timer and last signature alone. */
  predicate OnlyTimerAt(tracked: seq<Entry>, tracked': seq<Entry>, i: nat, armed: bool) {
    && |tracked'| == |tracked| && i < |tracked|
    && tracked'[i].info.timer == armed
    && tracked'[i].host == tracked[i].host
    && tracked'[i].info.(timer := tracked[i].info.timer, lastSig := tracked[i].info.lastSig) == tracked[i].info
    && forall j :: 0 <= j < |tracked| && j != i ==> tracked'[j] == tracked[j]
  }

  lemma ReSnapshotAt(s: State, host: Id, snap: Snapshots, i: nat)
    requires !s.disposed && IndexOf(s.tracked, host) == Some(i)
    ensures OnlyTimerAt(s.tracked, ReSnapshot(s, host, snap).tracked, i, false)
  {}

  /** A timer that fires is armed no longer, and the signature kept is the one last reported. */
  lemma TimerIsSpent(baseline: set<Id>, steps: seq<Step>, host: Id, snap: Snapshots, i: nat)
    requires PossibleRun(baseline, steps) && i < |Run(baseline, steps).tracked|
    requires Run(baseline, steps).tracked[i].host == host && Run(baseline, steps).tracked[i].info.timer
    ensures
      var s := Run(baseline, steps);
      var s' := After(baseline, s, Timer(host, snap));
      && OnlyTimerAt(s.tracked, s'.tracked, i, false)
      && s'.tracked[i].info.lastSig == LastSig(s'.emitted, s.tracked[i].info.popupId)
  {
    RunIsGood(baseline, steps);
    var s := Run(baseline, steps);
    SpentTimer(s, host, snap, i);
    assert After(baseline, s, Timer(host, snap)) == ReSnapshot(s, host, snap);
  }

  lemma SpentTimer(s: State, host: Id, snap: Snapshots, i: nat)
    requires Good(s) && i < |s.tracked| && s.tracked[i].host == host && s.tracked[i].info.timer
    ensures
      var s' := ReSnapshot(s, host, snap);
      && OnlyTimerAt(s.tracked, s'.tracked, i, false)
      && s'.tracked[i].info.lastSig == LastSig(s'.emitted, s.tracked[i].info.popupId)
  {
    TheEntryOf(s, host, i);
    TimerKeeps(s, host, snap);
    ReSnapshotAt(s, host, snap, i);
    var s' := ReSnapshot(s, host, snap);
    assert EntryOk(s.emitted, s.tracked[i].info);
    assert EntryOk(s'.emitted, s'.tracked[i].info);
  }

  /** A change seen by a widget observer arms the timer of its popup and does nothing else. */
  lemma WidgetArms(baseline: set<Id>, steps: seq<Step>, host: Id, i: nat)
    requires PossibleRun(baseline, steps) && i < |Run(baseline, steps).tracked|
    requires Run(baseline, steps).tracked[i].host == host && Run(baseline, steps).tracked[i].info.observers > 0
    ensures
      var s := Run(baseline, steps);
      var s' := After(baseline, s, Widget(host));
      && OnlyTimerAt(s.tracked, s'.tracked, i, true) && s'.emitted == s.emitted
      && s'.tracked[i].info.lastSig == s.tracked[i].info.lastSig
  {
    RunIsGood(baseline, steps);
    TheEntryOf(Run(baseline, steps), host, i);
  }

  // ---------------------------------------------------------------- observers

  /** The step that made the entry a popup: an attached shadow root is watched twice, an overlay once. */
  predicate ComesFrom(step: Step, e: Entry) {
    match step
    case AttachShadow(_, host, _, id) =>
      host == e.host && id == e.info.popupId && (e.info.role == Primary ==> e.info.observers == 2)
    case Body(_, _, overlays, _) =>
      Overlay(e.host, e.info.popupId) in overlays && (e.info.role == Primary ==> e.info.observers == 1)
    case _ => false
  }

  ghost predicate HeirOf(tracked: seq<Entry>, e': Entry) { exists e :: e in tracked && Heir(e, e') }

  lemma HeirOfHeir(a: seq<Entry>, b: seq<Entry>, e: Entry)
    requires (forall x :: x in b ==> HeirOf(a, x)) && HeirOf(b, e)
    ensures HeirOf(a, e)
  {
    var m :| m in b && Heir(m, e);
    var o :| o in a && Heir(o, m);
    assert Heir(o, e);
  }

  lemma PrimaryHeirs(tracked: seq<Entry>, d: Document, host: Id, id: Id, e: Entry)
    requires e in Reparented(tracked, d, host, id)
    ensures HeirOf(tracked, e)
  {
    HeirsByPlace(tracked, Reparented(tracked, d, host, id));
  }

  lemma NestedHeirs(tracked: seq<Entry>, last: Entry, p: Id, e: Entry)
    requires last.info.role == Nested && e in Schedule(tracked + [last], p)
    ensures HeirOf(tracked, e) || (e.host == last.host && e.info.popupId == last.info.popupId && e.info.role == Nested)
  {
    var all := tracked + [last];
    ScheduleEffect(all, p);
    var i :| 0 <= i < |all| && Schedule(all, p)[i] == e;
    if i < |tracked| {
      assert tracked[i] in tracked && Heir(tracked[i], e);
    }
  }

  lemma RegisterHeirs(s: State, d: Document, host: Id, detection: Detection, snap: Snapshots, id: Id, e: Entry)
    requires !s.disposed && e in Register(s, d, host, detection, snap, id).tracked
    ensures HeirOf(s.tracked, e)
         || (e.host == host && e.info.popupId == id
             && (e.info.role == Primary ==> e.info.observers == if detection == Shadow then 2 else 1))
  {
    if e in s.tracked {
      assert Heir(e, e);
    } else if !Has(s.tracked, host) {
      var info := NewInfo(s, d, host, snap, id);
      if info.role == Primary {
        if e in Reparented(s.tracked, d, host, id) {
          PrimaryHeirs(s.tracked, d, host, id, e);
        }
      } else {
        var tracked := s.tracked + [Entry(host, info)];
        var primary := Enclosing(d, host, IsPrimary(tracked));
        if primary.Some? {
          NestedHeirs(s.tracked, Entry(host, info), primary.value, e);
        }
      }
    }
  }

  /** An overlay that made the entry a popup. */
  predicate FromOverlay(overlays: seq<Overlay>, e: Entry) {
    Overlay(e.host, e.info.popupId) in overlays && (e.info.role == Primary ==> e.info.observers == 1)
  }

  lemma LongerChain(tracked: seq<Entry>, overlays: seq<Overlay>, m: Entry, e: Entry)
    requires Heir(m, e) && (HeirOf(tracked, m) || FromOverlay(overlays, m))
    ensures HeirOf(tracked, e) || FromOverlay(overlays, e)
  {
    if HeirOf(tracked, m) {
      var o :| o in tracked && Heir(o, m);
      assert Heir(o, e);
    }
  }

  lemma {:induction false} RegisterAllHeirs(s: State, d: Document, overlays: seq<Overlay>, snap: Snapshots, e: Entry)
    requires Good(s) && !s.disposed && FreshOverlays(s, overlays) && e in RegisterAll(s, d, overlays, snap).tracked
    ensures HeirOf(s.tracked, e) || FromOverlay(overlays, e)
  {
    if overlays == [] {
      assert Heir(e, e);
    } else {
      var front, last := overlays[..|overlays| - 1], overlays[|overlays| - 1];
      var mid := RegisterAll(s, d, front, snap);
      RegisterAllEffect(s, d, front, snap);
      RegisterHeirs(mid, d, last.host, Portal, snap, last.id, e);
      assert overlays == front + [last];
      if HeirOf(mid.tracked, e) {
        var m :| m in mid.tracked && Heir(m, e);
        RegisterAllHeirs(s, d, front, snap, m);
        LongerChain(s.tracked, front, m, e);
      }
    }
  }

  lemma BodyHeirs(s: State, d: Document, doc: Id, overlays: seq<Overlay>, snap: Snapshots, e: Entry)
    requires Good(s) && !s.disposed && FreshOverlays(s, overlays)
    requires e in BodyMutations(s, d, doc, overlays, snap).tracked
    ensures HeirOf(s.tracked, e)
         || FromOverlay(overlays, e)
  {
    RegisterAllKeeps(s, d, overlays, snap);
    RegisterAllEffect(s, d, overlays, snap);
    StayingMembers(RegisterAll(s, d, overlays, snap).tracked, d, doc);
    RegisterAllHeirs(s, d, overlays, snap, e);
  }

  lemma ScheduleHeirs(tracked: seq<Entry>, host: Id, e: Entry)
    requires e in Schedule(tracked, host)
    ensures HeirOf(tracked, e)
  {
    ScheduleEffect(tracked, host);
    HeirsByPlace(tracked, Schedule(tracked, host));
  }

  lemma TimerHeirs(s: State, host: Id, snap: Snapshots, e: Entry)
    requires e in ReSnapshot(s, host, snap).tracked
    ensures HeirOf(s.tracked, e)
  {
    HeirsByPlace(s.tracked, ReSnapshot(s, host, snap).tracked);
  }

  lemma StepHeirs(baseline: set<Id>, s: State, step: Step, e: Entry)
    requires Good(s) && Possible(s, step) && e in After(baseline, s, step).tracked
    ensures HeirOf(s.tracked, e) || ComesFrom(step, e)
  {
    if s.disposed || (step.AttachShadow? && step.host in baseline) {
      assert Heir(e, e);
    } else {
      match step
      case AttachShadow(d, host, snap, id) => RegisterHeirs(s, d, host, Shadow, snap, id, e);
      case Body(d, doc, overlays, snap) =>
        BodyHeirs(s, d, doc, overlays, snap, e);
      case Widget(host) => ScheduleHeirs(s.tracked, host, e);
      case Timer(host, snap) => TimerHeirs(s, host, snap, e);
      case Dispose =>
    }
  }

  /** Over every run: each tracked popup comes from a step that named its host
   * and id, and is watched as that step asks. */
  lemma {:induction false} WatchedSinceOrigin(baseline: set<Id>, steps: seq<Step>, e: Entry)
    requires PossibleRun(baseline, steps) && e in Run(baseline, steps).tracked
    ensures exists k :: 0 <= k < |steps| && ComesFrom(steps[k], e)
  {
    var front, last := steps[..|steps| - 1], steps[|steps| - 1];
    RunIsGood(baseline, front);
    StepHeirs(baseline, Run(baseline, front), last, e);
    if HeirOf(Run(baseline, front).tracked, e) {
      var m :| m in Run(baseline, front).tracked && Heir(m, e);
      WatchedSinceOrigin(baseline, front, m);
      var k :| 0 <= k < |front| && ComesFrom(front[k], m);
      assert ComesFrom(steps[k], e);
    }
  }
}
