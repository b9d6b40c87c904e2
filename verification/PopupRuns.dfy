/** What the popup producer keeps over every run: the parent forest, the shape of each popup's trace, and the roles. */
module PopupRuns {
  import opened Prelude
  import opened ComposedTree
  import opened Popups

  // ---------------------------------------------------------------- reading the event stream

  /** The parent links a consumer reconstructs: the last one reported for each popup ever seen. */
  function Links(evs: seq<Event>): map<Id, Id> {
    if evs == [] then map[]
    else
      var before, e := Links(evs[..|evs| - 1]), evs[|evs| - 1];
      if e.parent.Some? then before[e.popupId := e.parent.value] else before - {e.popupId}
  }

  datatype Stage = Unborn | Live | Gone | Broken

  function Advance(s: Stage, phase: Phase): Stage {
    match phase
    case Appeared => if s == Unborn then Live else Broken
    case Updated => if s == Live then Live else Broken
    case Disappeared => if s == Live then Gone else Broken
  }

  /** How far the trace of one popup has got; Broken when it is not appeared, updates, disappeared. */
  function StageOf(evs: seq<Event>, x: Id): Stage {
    if evs == [] then Unborn
    else
      var before, e := StageOf(evs[..|evs| - 1], x), evs[|evs| - 1];
      if e.popupId == x then Advance(before, e.phase) else before
  }

  /** The signature last reported for a popup. */
  function LastSig(evs: seq<Event>, x: Id): string {
    if evs == [] then ""
    else if evs[|evs| - 1].popupId == x then SignatureOf(evs[|evs| - 1].state)
    else LastSig(evs[..|evs| - 1], x)
  }

  /** The id source hands out an id no event has mentioned. */
  predicate Fresh(evs: seq<Event>, id: Id) {
    forall i :: 0 <= i < |evs| ==> evs[i].popupId != id && evs[i].parent != Some(id)
  }

  lemma Snoc(evs: seq<Event>, e: Event)
    ensures Links(evs + [e])
      == if e.parent.Some? then Links(evs)[e.popupId := e.parent.value] else Links(evs) - {e.popupId}
    ensures forall x ::
      StageOf(evs + [e], x) == if e.popupId == x then Advance(StageOf(evs, x), e.phase) else StageOf(evs, x)
    ensures forall x :: LastSig(evs + [e], x) == if e.popupId == x then SignatureOf(e.state) else LastSig(evs, x)
  {
    assert (evs + [e])[..|evs|] == evs;
  }

  lemma {:induction false} FreshIsUnborn(evs: seq<Event>, id: Id)
    requires Fresh(evs, id)
    ensures StageOf(evs, id) == Unborn
    ensures forall n :: n in Links(evs) ==> n != id && Links(evs)[n] != id
  {
    if evs != [] {
      var front := evs[..|evs| - 1];
      assert forall i :: 0 <= i < |front| ==> front[i] == evs[i];
      FreshIsUnborn(front, id);
    }
  }

  // ---------------------------------------------------------------- the invariant

  ghost predicate EntryOk(evs: seq<Event>, info: Info) {
    && (info.role == Primary <==> info.parent.None?)
    && (info.role == Nested ==> info.observers == 0 && !info.timer)
    && StageOf(evs, info.popupId) == Live
    && (info.parent.None? ==> info.popupId !in Links(evs))
    && (info.parent.Some? ==> info.popupId in Links(evs) && Links(evs)[info.popupId] == info.parent.value)
    && (info.role == Primary ==> info.lastSig == LastSig(evs, info.popupId))
  }

  predicate TrackedId(tracked: seq<Entry>, x: Id) { exists i :: 0 <= i < |tracked| && tracked[i].info.popupId == x }

  /** Distinct hosts, distinct popups. */
  predicate Separate(tracked: seq<Entry>) {
    forall i, j :: 0 <= i < j < |tracked| ==>
      tracked[i].host != tracked[j].host && tracked[i].info.popupId != tracked[j].info.popupId
  }

  ghost predicate Good(s: State) {
    && Separate(s.tracked)
    && (s.disposed ==> s.tracked == [])
    && (forall i :: 0 <= i < |s.tracked| ==> EntryOk(s.emitted, s.tracked[i].info))
    && (forall x :: StageOf(s.emitted, x) != Broken)
    && (!s.disposed ==> forall x :: StageOf(s.emitted, x) == Live ==> TrackedId(s.tracked, x))
    && Acyclic(Links(s.emitted))
  }

  /** Links are only ever added: a nested popup keeps its parent for good. */
  predicate LinksKept(s: State, s': State) {
    forall n :: n in Links(s.emitted) ==> n in Links(s'.emitted) && Links(s'.emitted)[n] == Links(s.emitted)[n]
  }

  /** Links added to a node without a link keep the forest a forest. */
  lemma AddRootAbove(l: map<Id, Id>, l': map<Id, Id>, id: Id)
    requires Acyclic(l) && id !in l'
    requires forall n :: n in l' ==> (n in l && l'[n] == l[n]) || l'[n] == id
    ensures Acyclic(l')
  {
    var r := RankingOf(l);
    var rank := (n: Id) => if n == id then 0 else r.rank(n) + 1;
    forall n | n in l' ensures rank(l'[n]) < rank(n) {
      if l'[n] != id {
        assert r.rank(l[n]) < r.rank(n);
      }
    }
    assert Ranks(l', rank, r.bound + 1);
  }

  lemma AddLeafBelow(l: map<Id, Id>, id: Id, p: Id)
    requires Acyclic(l) && id != p && id !in l && forall n :: n in l ==> l[n] != id
    ensures Acyclic(l[id := p])
  {
    var r := RankingOf(l);
    var l' := l[id := p];
    var rank := (n: Id) => if n == id then r.rank(p) + 1 else r.rank(n);
    forall n | n in l' ensures rank(l'[n]) < rank(n) {
      if n != id {
        assert r.rank(l[n]) < r.rank(n);
      }
    }
    assert Ranks(l', rank, r.bound + 1);
  }

  // ---------------------------------------------------------------- several events at once

  /** Corrective updates of live popups, all reporting the parent `id`. */
  ghost predicate Corrections(evs: seq<Event>, more: seq<Event>, id: Id) {
    forall i :: 0 <= i < |more| ==>
      more[i].phase == Updated && more[i].parent == Some(id) && StageOf(evs, more[i].popupId) == Live
  }

  predicate Mentions(more: seq<Event>, x: Id) { exists i :: 0 <= i < |more| && more[i].popupId == x }

  lemma {:induction false} CorrectionsEffect(evs: seq<Event>, more: seq<Event>, id: Id)
    requires Corrections(evs, more, id)
    ensures forall x :: StageOf(evs + more, x) == StageOf(evs, x)
    ensures forall x :: x in Links(evs + more) <==> x in Links(evs) || Mentions(more, x)
    ensures forall x ::
      x in Links(evs + more) ==> Links(evs + more)[x] == if Mentions(more, x) then id else Links(evs)[x]
    ensures forall x :: !Mentions(more, x) ==> LastSig(evs + more, x) == LastSig(evs, x)
  {
    if more == [] {
      assert evs + more == evs;
    } else {
      var front, e := more[..|more| - 1], more[|more| - 1];
      CorrectionsEffect(evs, front, id);
      assert evs + more == (evs + front) + [e];
      Snoc(evs + front, e);
      forall x ensures Mentions(more, x) <==> Mentions(front, x) || e.popupId == x {
        if Mentions(more, x) {
          var i :| 0 <= i < |more| && more[i].popupId == x;
          assert i < |front| ==> front[i].popupId == x;
        }
        if Mentions(front, x) {
          var i :| 0 <= i < |front| && front[i].popupId == x;
          assert more[i].popupId == x;
        }
        if e.popupId == x {
          assert more[|more| - 1].popupId == x;
        }
      }
    }
  }

  lemma {:induction false} ReparentMentions(tracked: seq<Entry>, d: Document, host: Id, id: Id, snap: Snapshots, x: Id)
    ensures Mentions(ReparentEvents(tracked, d, host, id, snap), x)
       <==> exists i :: 0 <= i < |tracked| && Moves(d, host, tracked[i]) && tracked[i].info.popupId == x
  {
    if tracked != [] {
      var front, last := tracked[..|tracked| - 1], tracked[|tracked| - 1];
      ReparentMentions(front, d, host, id, snap, x);
      var a: seq<Event> := ReparentEvents(front, d, host, id, snap);
      var b: seq<Event> := ReparentEvent(last, d, host, id, snap);
      if Mentions(a + b, x) {
        var i: nat :| i < |a + b| && (a + b)[i].popupId == x;
        if i < |a| {
          assert Mentions(a, x);
        }
      }
      if Mentions(a, x) {
        var i :| 0 <= i < |a| && a[i].popupId == x;
        assert (a + b)[i].popupId == x;
      }
      if b != [] && b[0].popupId == x {
        assert (a + b)[|a|].popupId == x;
      }
      if i :| 0 <= i < |tracked| && Moves(d, host, tracked[i]) && tracked[i].info.popupId == x {
        assert i < |front| ==> front[i] == tracked[i];
      }
    }
  }

  lemma {:induction false} ReparentIsCorrections(evs: seq<Event>, tracked: seq<Entry>, d: Document, host: Id, id: Id,
    snap: Snapshots)
    requires forall i :: 0 <= i < |tracked| ==> StageOf(evs, tracked[i].info.popupId) == Live
    ensures Corrections(evs, ReparentEvents(tracked, d, host, id, snap), id)
  {
    if tracked != [] {
      ReparentIsCorrections(evs, tracked[..|tracked| - 1], d, host, id, snap);
    }
  }

  // ---------------------------------------------------------------- registration

  /** Away from the new popup `id`, the events `more` only moved the popups they mention under it. */
  ghost predicate MovedUnder(evs: seq<Event>, evs': seq<Event>, more: seq<Event>, id: Id) {
    forall x {:trigger StageOf(evs', x)} {:trigger x in Links(evs')} {:trigger LastSig(evs', x)} :: x != id ==>
      && StageOf(evs', x) == StageOf(evs, x)
      && (x in Links(evs') <==> x in Links(evs) || Mentions(more, x))
      && (x in Links(evs') ==> Links(evs')[x] == if Mentions(more, x) then id else Links(evs)[x])
      && (!Mentions(more, x) ==> LastSig(evs', x) == LastSig(evs, x))
  }

  /** The event stream of a primary registration. */
  lemma PrimaryEvents(evs: seq<Event>, more: seq<Event>, e: Event, id: Id)
    requires Fresh(evs, id) && Corrections(evs, more, id) && e.popupId == id && e.phase == Appeared && e.parent.None?
    requires Acyclic(Links(evs)) && forall x :: StageOf(evs, x) != Broken
    ensures
      var evs' := evs + more + [e];
      && MovedUnder(evs, evs', more, id) && Acyclic(Links(evs'))
      && StageOf(evs', id) == Live && id !in Links(evs') && LastSig(evs', id) == SignatureOf(e.state)
  {
    FreshIsUnborn(evs, id);
    CorrectionsEffect(evs, more, id);
    assert !Mentions(more, id);
    Snoc(evs + more, e);
    AddRootAbove(Links(evs), Links(evs + more + [e]), id);
  }

  /** The popups mentioned are exactly the primaries found inside. */
  ghost predicate MentionsMoved(more: seq<Event>, tracked: seq<Entry>, d: Document, host: Id) {
    forall x ::
      Mentions(more, x) <==>
        exists i :: 0 <= i < |tracked| && Moves(d, host, tracked[i]) && tracked[i].info.popupId == x
  }

  lemma PrimaryEntry(evs: seq<Event>, evs': seq<Event>, tracked: seq<Entry>, d: Document, host: Id, id: Id,
    more: seq<Event>, i: nat)
    requires Separate(tracked) && i < |tracked| && EntryOk(evs, tracked[i].info) && tracked[i].info.popupId != id
    requires MentionsMoved(more, tracked, d, host) && MovedUnder(evs, evs', more, id)
    ensures EntryOk(evs', Reparented(tracked, d, host, id)[i].info)
  {
    var x := tracked[i].info.popupId;
    if Moves(d, host, tracked[i]) {
      assert Mentions(more, x);
    } else {
      assert !Mentions(more, x);
    }
  }

  lemma AppendEntry(tracked: seq<Entry>, e: Entry)
    requires Separate(tracked) && !Has(tracked, e.host) && !TrackedId(tracked, e.info.popupId)
    ensures Separate(tracked + [e])
    ensures forall x :: TrackedId(tracked + [e], x) <==> TrackedId(tracked, x) || x == e.info.popupId
  {
    var all := tracked + [e];
    forall i, j | 0 <= i < j < |all|
      ensures all[i].host != all[j].host && all[i].info.popupId != all[j].info.popupId
    {
      assert all[i] == tracked[i];
    }
    forall x ensures TrackedId(all, x) <==> TrackedId(tracked, x) || x == e.info.popupId {
      if TrackedId(tracked, x) {
        var i :| 0 <= i < |tracked| && tracked[i].info.popupId == x;
        assert all[i] == tracked[i];
      }
      assert all[|tracked|] == e;
    }
  }

  lemma ReparentedIds(tracked: seq<Entry>, d: Document, host: Id, id: Id)
    requires Separate(tracked)
    ensures Separate(Reparented(tracked, d, host, id))
    ensures forall x :: TrackedId(Reparented(tracked, d, host, id), x) <==> TrackedId(tracked, x)
    ensures forall h :: Has(Reparented(tracked, d, host, id), h) <==> Has(tracked, h)
  {
    var r := Reparented(tracked, d, host, id);
    forall x ensures TrackedId(r, x) <==> TrackedId(tracked, x) {
      if TrackedId(tracked, x) {
        var i :| 0 <= i < |tracked| && tracked[i].info.popupId == x;
        assert r[i].info.popupId == x;
      }
    }
    forall h ensures Has(r, h) <==> Has(tracked, h) {
      if Has(tracked, h) {
        var i :| 0 <= i < |tracked| && tracked[i].host == h;
        assert r[i].host == h;
      }
    }
  }

  /** The invariant after a primary registration, piece by piece. */
  lemma PrimaryGood(s: State, tracked: seq<Entry>, e: Entry, evs: seq<Event>, more: seq<Event>)
    requires Good(s) && !s.disposed
    requires Separate(tracked) && !Has(tracked, e.host) && !TrackedId(tracked, e.info.popupId)
    requires forall x :: TrackedId(tracked, x) <==> TrackedId(s.tracked, x)
    requires forall i :: 0 <= i < |tracked| ==> EntryOk(evs, tracked[i].info)
    requires EntryOk(evs, e.info) && MovedUnder(s.emitted, evs, more, e.info.popupId) && Acyclic(Links(evs))
    ensures Good(State(tracked + [e], evs, false))
  {
    AppendEntry(tracked, e);
    forall x
      ensures StageOf(evs, x) != Broken && (StageOf(evs, x) == Live ==> TrackedId(tracked + [e], x))
    {
      if x != e.info.popupId {
        assert StageOf(evs, x) == StageOf(s.emitted, x);
      }
    }
  }

  /** Only popups without a link were moved. */
  lemma PrimaryKeepsLinks(s: State, more: seq<Event>, evs': seq<Event>, d: Document, host: Id, id: Id)
    requires Good(s) && id !in Links(s.emitted)
    requires MentionsMoved(more, s.tracked, d, host) && MovedUnder(s.emitted, evs', more, id)
    ensures forall n :: n in Links(s.emitted) ==> n in Links(evs') && Links(evs')[n] == Links(s.emitted)[n]
  {
    forall n | n in Links(s.emitted)
      ensures n in Links(evs') && Links(evs')[n] == Links(s.emitted)[n]
    {
      assert !Mentions(more, n);
    }
  }

  /** What a primary registration does to the event stream. */
  lemma PrimaryStream(s: State, d: Document, host: Id, snap: Snapshots, id: Id, appeared: Event)
    requires Good(s) && Fresh(s.emitted, id)
    requires appeared.popupId == id && appeared.phase == Appeared && appeared.parent.None?
    ensures
      var more := ReparentEvents(s.tracked, d, host, id, snap);
      var evs := s.emitted + more + [appeared];
      && MentionsMoved(more, s.tracked, d, host) && MovedUnder(s.emitted, evs, more, id) && Acyclic(Links(evs))
      && StageOf(evs, id) == Live && id !in Links(evs) && LastSig(evs, id) == SignatureOf(appeared.state)
  {
    var more := ReparentEvents(s.tracked, d, host, id, snap);
    ReparentIsCorrections(s.emitted, s.tracked, d, host, id, snap);
    PrimaryEvents(s.emitted, more, appeared, id);
    forall x ensures Mentions(more, x)
      <==> exists i :: 0 <= i < |s.tracked| && Moves(d, host, s.tracked[i]) && s.tracked[i].info.popupId == x {
      ReparentMentions(s.tracked, d, host, id, snap, x);
    }
  }

  lemma FreshIsUntracked(s: State, id: Id)
    requires Good(s) && Fresh(s.emitted, id)
    ensures !TrackedId(s.tracked, id) && id !in Links(s.emitted)
  {
    FreshIsUnborn(s.emitted, id);
  }

  /** A new primary popup, with the primaries found inside it moved under it. */
  lemma RegisterPrimaryKeeps(s: State, d: Document, host: Id, detection: Detection, snap: Snapshots, id: Id)
    requires Good(s) && !s.disposed && !Has(s.tracked, host) && Fresh(s.emitted, id)
    requires ParentOf(s, d, host).None?
    ensures Good(Register(s, d, host, detection, snap, id)) && LinksKept(s, Register(s, d, host, detection, snap, id))
  {
    var info := NewInfo(s, d, host, snap, id);
    var entry := Entry(host, info.(observers := if detection == Shadow then 2 else 1));
    var more := ReparentEvents(s.tracked, d, host, id, snap);
    var appeared := EventOf(info, Appeared, snap(host));
    var evs := s.emitted + more + [appeared];
    var tracked := Reparented(s.tracked, d, host, id);
    FreshIsUntracked(s, id);
    PrimaryStream(s, d, host, snap, id, appeared);
    forall i | 0 <= i < |tracked|
      ensures EntryOk(evs, tracked[i].info)
    {
      PrimaryEntry(s.emitted, evs, s.tracked, d, host, id, more, i);
    }
    ReparentedIds(s.tracked, d, host, id);
    PrimaryKeepsLinks(s, more, evs, d, host, id);
    PrimaryGood(s, tracked, entry, evs, more);
    assert Register(s, d, host, detection, snap, id) == State(tracked + [entry], evs, false);
  }

  lemma ScheduleEffect(tracked: seq<Entry>, host: Id)
    ensures |Schedule(tracked, host)| == |tracked|
    ensures forall i :: 0 <= i < |tracked| ==>
      && Schedule(tracked, host)[i].host == tracked[i].host
      && Schedule(tracked, host)[i].info.(timer := false) == tracked[i].info.(timer := false)
      && (Schedule(tracked, host)[i].info.timer != tracked[i].info.timer ==> IndexOf(tracked, host) == Some(i))
  {}

  /** Arming the timer of a primary changes nothing else. */
  lemma ScheduleKeeps(s: State, host: Id)
    requires Good(s) && HasPrimary(s.tracked, host)
    ensures Good(s.(tracked := Schedule(s.tracked, host)))
  {
    var s' := s.(tracked := Schedule(s.tracked, host));
    ScheduleEffect(s.tracked, host);
    forall x | TrackedId(s.tracked, x)
      ensures TrackedId(s'.tracked, x)
    {
      var i :| 0 <= i < |s.tracked| && s.tracked[i].info.popupId == x;
      assert s'.tracked[i].info.popupId == x;
    }
  }

  /** A new popup under a tracked one, before any timer is armed. */
  lemma AppendNestedKeeps(s: State, host: Id, info: Info, state: Option<Snapshot>)
    requires Good(s) && !s.disposed && !Has(s.tracked, host) && Fresh(s.emitted, info.popupId)
    requires info.role == Nested && info.observers == 0 && !info.timer
    requires info.parent.Some? && TrackedId(s.tracked, info.parent.value)
    ensures
      var s1 := s.(tracked := s.tracked + [Entry(host, info)], emitted := s.emitted + [EventOf(info, Appeared, state)]);
      Good(s1) && LinksKept(s, s1)
  {
    var id := info.popupId;
    var e := EventOf(info, Appeared, state);
    FreshIsUnborn(s.emitted, id);
    Snoc(s.emitted, e);
    assert !TrackedId(s.tracked, id);
    AddLeafBelow(Links(s.emitted), id, info.parent.value);
    AppendEntry(s.tracked, Entry(host, info));
  }

  /** A new popup inside a tracked one. */
  lemma RegisterNestedKeeps(s: State, d: Document, host: Id, detection: Detection, snap: Snapshots, id: Id)
    requires Good(s) && !s.disposed && !Has(s.tracked, host) && Fresh(s.emitted, id)
    requires ParentOf(s, d, host).Some?
    ensures Good(Register(s, d, host, detection, snap, id)) && LinksKept(s, Register(s, d, host, detection, snap, id))
  {
    var info := NewInfo(s, d, host, snap, id);
    var tracked := s.tracked + [Entry(host, info)];
    AppendNestedKeeps(s, host, info, snap(host));
    EnclosingIsNearest(d, host, IsPrimary(tracked));
    var primary := Enclosing(d, host, IsPrimary(tracked));
    if primary.Some? {
      ScheduleKeeps(s.(tracked := tracked, emitted := s.emitted + [EventOf(info, Appeared, snap(host))]),
        primary.value);
    }
  }

  lemma RegisterKeeps(s: State, d: Document, host: Id, detection: Detection, snap: Snapshots, id: Id)
    requires Good(s) && Fresh(s.emitted, id)
    ensures Good(Register(s, d, host, detection, snap, id)) && LinksKept(s, Register(s, d, host, detection, snap, id))
  {
    if !s.disposed && !Has(s.tracked, host) {
      if ParentOf(s, d, host).None? {
        RegisterPrimaryKeeps(s, d, host, detection, snap, id);
      } else {
        RegisterNestedKeeps(s, d, host, detection, snap, id);
      }
    }
  }

  // ---------------------------------------------------------------- the sweep

  /** A popup whose host is no longer connected. */
  ghost predicate LeftId(tracked: seq<Entry>, d: Document, doc: Id, x: Id) {
    exists i :: 0 <= i < |tracked| && tracked[i].info.popupId == x && !Connected(d, doc, tracked[i].host)
  }

  lemma LeftLast(tracked: seq<Entry>, d: Document, doc: Id, x: Id)
    requires tracked != []
    ensures LeftId(tracked, d, doc, x)
       <==> LeftId(tracked[..|tracked| - 1], d, doc, x)
            || (tracked[|tracked| - 1].info.popupId == x && !Connected(d, doc, tracked[|tracked| - 1].host))
  {
    var front := tracked[..|tracked| - 1];
    if i :| 0 <= i < |tracked| && tracked[i].info.popupId == x && !Connected(d, doc, tracked[i].host) {
      assert i < |front| ==> front[i] == tracked[i];
    }
    if i :| 0 <= i < |front| && front[i].info.popupId == x && !Connected(d, doc, front[i].host) {
      assert front[i] == tracked[i];
    }
  }

  /** The popups that left are gone; nothing else about the event stream changed. */
  ghost predicate OnlyLeft(evs: seq<Event>, evs': seq<Event>, tracked: seq<Entry>, d: Document, doc: Id) {
    && Links(evs') == Links(evs)
    && forall x {:trigger StageOf(evs', x)} {:trigger LastSig(evs', x)} ::
         && StageOf(evs', x) == (if LeftId(tracked, d, doc, x) then Gone else StageOf(evs, x))
         && (!LeftId(tracked, d, doc, x) ==> LastSig(evs', x) == LastSig(evs, x))
  }

  /** The departures so far do not concern the last entry. */
  lemma LastStillOk(evs: seq<Event>, mid: seq<Event>, tracked: seq<Entry>, d: Document, doc: Id)
    requires Separate(tracked) && tracked != [] && EntryOk(evs, tracked[|tracked| - 1].info)
    requires OnlyLeft(evs, mid, tracked[..|tracked| - 1], d, doc)
    ensures EntryOk(mid, tracked[|tracked| - 1].info)
  {
    assert !LeftId(tracked[..|tracked| - 1], d, doc, tracked[|tracked| - 1].info.popupId);
  }

  /** Reporting a link again that is known already. */
  lemma SameLinkAgain(evs: seq<Event>, info: Info, state: Option<Snapshot>)
    requires EntryOk(evs, info)
    ensures Links(evs + [EventOf(info, Disappeared, state)]) == Links(evs)
  {
    Snoc(evs, EventOf(info, Disappeared, state));
  }

  lemma LeaveOne(evs: seq<Event>, mid: seq<Event>, tracked: seq<Entry>, d: Document, doc: Id)
    requires Separate(tracked) && tracked != []
    requires
      var last := tracked[|tracked| - 1];
      EntryOk(mid, last.info) && !Connected(d, doc, last.host)
    requires OnlyLeft(evs, mid, tracked[..|tracked| - 1], d, doc)
    ensures OnlyLeft(evs, mid + [EventOf(tracked[|tracked| - 1].info, Disappeared, None)], tracked, d, doc)
  {
    var front, last := tracked[..|tracked| - 1], tracked[|tracked| - 1];
    var e := EventOf(last.info, Disappeared, None);
    SameLinkAgain(mid, last.info, None);
    Snoc(mid, e);
    forall x
      ensures StageOf(mid + [e], x) == if LeftId(tracked, d, doc, x) then Gone else StageOf(evs, x)
      ensures !LeftId(tracked, d, doc, x) ==> LastSig(mid + [e], x) == LastSig(evs, x)
    {
      LeftLast(tracked, d, doc, x);
      assert StageOf(mid, x) == if LeftId(front, d, doc, x) then Gone else StageOf(evs, x);
    }
  }

  lemma StayOne(evs: seq<Event>, mid: seq<Event>, tracked: seq<Entry>, d: Document, doc: Id)
    requires tracked != [] && Connected(d, doc, tracked[|tracked| - 1].host)
    requires OnlyLeft(evs, mid, tracked[..|tracked| - 1], d, doc)
    ensures OnlyLeft(evs, mid, tracked, d, doc)
  {
    forall x
      ensures LeftId(tracked, d, doc, x) <==> LeftId(tracked[..|tracked| - 1], d, doc, x)
    {
      LeftLast(tracked, d, doc, x);
    }
  }

  lemma {:induction false} LeavingEffect(evs: seq<Event>, tracked: seq<Entry>, d: Document, doc: Id)
    requires Separate(tracked) && forall i :: 0 <= i < |tracked| ==> EntryOk(evs, tracked[i].info)
    ensures OnlyLeft(evs, evs + Leaving(tracked, d, doc), tracked, d, doc)
  {
    if tracked == [] {
      assert evs + Leaving(tracked, d, doc) == evs;
    } else {
      var front, last := tracked[..|tracked| - 1], tracked[|tracked| - 1];
      forall i | 0 <= i < |front| ensures EntryOk(evs, front[i].info) {
        assert front[i] == tracked[i];
      }
      LeavingEffect(evs, front, d, doc);
      var mid := evs + Leaving(front, d, doc);
      if Connected(d, doc, last.host) {
        StayOne(evs, mid, tracked, d, doc);
        assert evs + Leaving(tracked, d, doc) == mid;
      } else {
        LastStillOk(evs, mid, tracked, d, doc);
        LeaveOne(evs, mid, tracked, d, doc);
        assert evs + Leaving(tracked, d, doc) == mid + [EventOf(last.info, Disappeared, None)];
      }
    }
  }

  lemma {:induction false} StayingMembers(tracked: seq<Entry>, d: Document, doc: Id)
    requires Separate(tracked)
    ensures Separate(Staying(tracked, d, doc))
    ensures forall e :: e in Staying(tracked, d, doc) <==> e in tracked && Connected(d, doc, e.host)
  {
    if tracked != [] {
      var front, last := tracked[..|tracked| - 1], tracked[|tracked| - 1];
      assert tracked == front + [last];
      StayingMembers(front, d, doc);
      var r := Staying(front, d, doc);
      forall e | e in r ensures e.host != last.host && e.info.popupId != last.info.popupId {
        var i :| 0 <= i < |front| && front[i] == e;
        assert tracked[i] == e;
      }
      if Connected(d, doc, last.host) {
        forall i, j | 0 <= i < j < |r + [last]|
          ensures (r + [last])[i].host != (r + [last])[j].host
            && (r + [last])[i].info.popupId != (r + [last])[j].info.popupId
        {
          assert r[i] in r;
        }
      }
    }
  }

  lemma SweepKeeps(s: State, d: Document, doc: Id)
    requires Good(s)
    ensures Good(Sweep(s, d, doc)) && LinksKept(s, Sweep(s, d, doc))
  {
    if !s.disposed {
      var s' := Sweep(s, d, doc);
      LeavingEffect(s.emitted, s.tracked, d, doc);
      StayingMembers(s.tracked, d, doc);
      forall i | 0 <= i < |s'.tracked|
        ensures EntryOk(s'.emitted, s'.tracked[i].info)
      {
        assert s'.tracked[i] in s'.tracked;
        StaysPut(s.tracked, d, doc, s'.tracked[i]);
      }
      forall x | StageOf(s'.emitted, x) == Live
        ensures TrackedId(s'.tracked, x)
      {
        var i :| 0 <= i < |s.tracked| && s.tracked[i].info.popupId == x;
        assert Connected(d, doc, s.tracked[i].host);
        assert s.tracked[i] in s'.tracked;
      }
    }
  }

  lemma StaysPut(tracked: seq<Entry>, d: Document, doc: Id, e: Entry)
    requires Separate(tracked) && e in tracked && Connected(d, doc, e.host)
    ensures !LeftId(tracked, d, doc, e.info.popupId)
  {}

  // ---------------------------------------------------------------- the timer

  lemma ReplaceEntry(tracked: seq<Entry>, i: nat, e: Entry)
    requires Separate(tracked) && i < |tracked| && e.host == tracked[i].host
      && e.info.popupId == tracked[i].info.popupId
    ensures Separate(tracked[i := e])
    ensures forall x :: TrackedId(tracked[i := e], x) <==> TrackedId(tracked, x)
  {
    var all := tracked[i := e];
    forall x ensures TrackedId(all, x) <==> TrackedId(tracked, x) {
      if TrackedId(tracked, x) {
        var k :| 0 <= k < |tracked| && tracked[k].info.popupId == x;
        assert all[k].info.popupId == x;
      }
    }
  }

  lemma TimerKeeps(s: State, host: Id, snap: Snapshots)
    requires Good(s) && HasPrimary(s.tracked, host)
    ensures Good(ReSnapshot(s, host, snap)) && LinksKept(s, ReSnapshot(s, host, snap))
  {
    if !s.disposed {
      var s' := ReSnapshot(s, host, snap);
      var i := IndexOf(s.tracked, host).value;
      var info := s.tracked[i].info;
      ReplaceEntry(s.tracked, i, s'.tracked[i]);
      assert EntryOk(s.emitted, info);
      if s'.emitted != s.emitted {
        var e := EventOf(s'.tracked[i].info, Updated, snap(host));
        Snoc(s.emitted, e);
        assert Links(s'.emitted) == Links(s.emitted);
        assert s'.emitted == s.emitted + [e];
      }
    }
  }

  // ---------------------------------------------------------------- disposal and registration in bulk

  lemma DisposeKeeps(s: State)
    requires Good(s)
    ensures Good(Disposed(s)) && LinksKept(s, Disposed(s))
  {}

  lemma FreshSnoc(evs: seq<Event>, e: Event, x: Id)
    requires Fresh(evs, x) && e.popupId != x && e.parent != Some(x)
    ensures Fresh(evs + [e], x)
  {}

  lemma FreshAppend(evs: seq<Event>, more: seq<Event>, x: Id)
    requires Fresh(evs, x) && Fresh(more, x)
    ensures Fresh(evs + more, x)
  {}

  lemma ParentIsTracked(s: State, d: Document, host: Id)
    ensures ParentOf(s, d, host).Some? ==> TrackedId(s.tracked, ParentOf(s, d, host).value)
  {}

  lemma ReparentFresh(s: State, d: Document, host: Id, snap: Snapshots, id: Id, x: Id)
    requires Good(s) && Fresh(s.emitted, x) && x != id
    ensures Fresh(ReparentEvents(s.tracked, d, host, id, snap), x)
  {
    FreshIsUnborn(s.emitted, x);
    ReparentIsCorrections(s.emitted, s.tracked, d, host, id, snap);
  }

  /** Registering a popup mentions no id but its own and those of tracked popups. */
  lemma RegisterFresh(s: State, d: Document, host: Id, detection: Detection, snap: Snapshots, id: Id, x: Id)
    requires Good(s) && Fresh(s.emitted, x) && x != id
    ensures Fresh(Register(s, d, host, detection, snap, id).emitted, x)
  {
    if !s.disposed && !Has(s.tracked, host) {
      var more := ReparentEvents(s.tracked, d, host, id, snap);
      var e := EventOf(NewInfo(s, d, host, snap, id), Appeared, snap(host));
      ParentIsTracked(s, d, host);
      FreshIsUntracked(s, x);
      ReparentFresh(s, d, host, snap, id, x);
      FreshAppend(s.emitted, more, x);
      FreshSnoc(if e.role == Primary then s.emitted + more else s.emitted, e, x);
    }
  }

  /** The id source gives every overlay an id of its own. */
  ghost predicate FreshOverlays(s: State, overlays: seq<Overlay>) {
    && (forall i :: 0 <= i < |overlays| ==> Fresh(s.emitted, overlays[i].id))
    && (forall i, j :: 0 <= i < j < |overlays| ==> overlays[i].id != overlays[j].id)
  }

  lemma {:induction false} RegisterAllKeeps(s: State, d: Document, overlays: seq<Overlay>, snap: Snapshots)
    requires Good(s) && FreshOverlays(s, overlays)
    ensures Good(RegisterAll(s, d, overlays, snap)) && LinksKept(s, RegisterAll(s, d, overlays, snap))
    ensures forall x :: Fresh(s.emitted, x) && (forall i :: 0 <= i < |overlays| ==> overlays[i].id != x)
                        ==> Fresh(RegisterAll(s, d, overlays, snap).emitted, x)
  {
    if overlays != [] {
      var front, last := overlays[..|overlays| - 1], overlays[|overlays| - 1];
      RegisterAllKeeps(s, d, front, snap);
      var before := RegisterAll(s, d, front, snap);
      RegisterKeeps(before, d, last.host, Portal, snap, last.id);
      forall x | Fresh(s.emitted, x) && (forall i :: 0 <= i < |overlays| ==> overlays[i].id != x)
        ensures Fresh(RegisterAll(s, d, overlays, snap).emitted, x)
      {
        forall i | 0 <= i < |front| ensures front[i].id != x {
          assert front[i] == overlays[i];
        }
        RegisterFresh(before, d, last.host, Portal, snap, last.id, x);
      }
    }
  }

  // ---------------------------------------------------------------- runs

  /** What can happen to an installed producer. Each step of the page comes with its document at that moment. */
  datatype Step =
    | AttachShadow(d: Document, host: Id, snap: Snapshots, id: Id)
    | Body(d: Document, doc: Id, overlays: seq<Overlay>, snap: Snapshots)
    | Widget(host: Id)
    | Timer(host: Id, snap: Snapshots)
    | Dispose

  /** The document node is not an element and has no parent. */
  ghost predicate IsDocument(d: Document, doc: Id) { doc !in Up(d) && doc !in d.elements }

  /** A disconnected observer delivers nothing, a cleared timer never fires, and ids are never reused. */
  ghost predicate Possible(s: State, step: Step) {
    match step
    case AttachShadow(d, host, snap, id) => Fresh(s.emitted, id)
    case Body(d, doc, overlays, snap) => IsDocument(d, doc) && FreshOverlays(s, overlays)
    case Widget(host) =>
      exists i :: 0 <= i < |s.tracked| && s.tracked[i].host == host && s.tracked[i].info.observers > 0
    case Timer(host, snap) => exists i :: 0 <= i < |s.tracked| && s.tracked[i].host == host && s.tracked[i].info.timer
    case Dispose => true
  }

  ghost function After(baseline: set<Id>, s: State, step: Step): State {
    match step
    case AttachShadow(d, host, snap, id) => if host in baseline then s else Register(s, d, host, Shadow, snap, id)
    case Body(d, doc, overlays, snap) => BodyMutations(s, d, doc, overlays, snap)
    case Widget(host) => if s.disposed then s else s.(tracked := Schedule(s.tracked, host))
    case Timer(host, snap) => ReSnapshot(s, host, snap)
    case Dispose => Disposed(s)
  }

  ghost function Run(baseline: set<Id>, steps: seq<Step>): State {
    if steps == [] then State([], [], false)
    else After(baseline, Run(baseline, steps[..|steps| - 1]), steps[|steps| - 1])
  }

  ghost predicate PossibleRun(baseline: set<Id>, steps: seq<Step>) {
    steps == []
    || (PossibleRun(baseline, steps[..|steps| - 1])
      && Possible(Run(baseline, steps[..|steps| - 1]), steps[|steps| - 1]))
  }

  lemma TheEntryOf(s: State, host: Id, i: nat)
    requires Good(s) && i < |s.tracked| && s.tracked[i].host == host
    requires s.tracked[i].info.observers > 0 || s.tracked[i].info.timer
    ensures HasPrimary(s.tracked, host) && IndexOf(s.tracked, host) == Some(i)
  {
    assert Has(s.tracked, host);
    assert EntryOk(s.emitted, s.tracked[i].info);
  }

  lemma StepKeeps(baseline: set<Id>, s: State, step: Step)
    requires Good(s) && Possible(s, step)
    ensures Good(After(baseline, s, step)) && LinksKept(s, After(baseline, s, step))
    ensures s.disposed ==> After(baseline, s, step) == s
  {
    match step
    case AttachShadow(d, host, snap, id) =>
      RegisterKeeps(s, d, host, Shadow, snap, id);
    case Body(d, doc, overlays, snap) =>
      if !s.disposed {
        RegisterAllKeeps(s, d, overlays, snap);
        SweepKeeps(RegisterAll(s, d, overlays, snap), d, doc);
      }
    case Widget(host) =>
      var i :| 0 <= i < |s.tracked| && s.tracked[i].host == host && s.tracked[i].info.observers > 0;
      TheEntryOf(s, host, i);
      ScheduleKeeps(s, host);
    case Timer(host, snap) =>
      var i :| 0 <= i < |s.tracked| && s.tracked[i].host == host && s.tracked[i].info.timer;
      TheEntryOf(s, host, i);
      TimerKeeps(s, host, snap);
    case Dispose =>
      DisposeKeeps(s);
  }

  /**
   * Every run: the links ever reported form a forest, a popup is primary exactly when it has no
   * parent, nested popups hold neither observers nor a timer, and each popup's trace is one
   * appearance, then updates, then at most one disappearance.
   */
  lemma {:induction false} RunIsGood(baseline: set<Id>, steps: seq<Step>)
    requires PossibleRun(baseline, steps)
    ensures Good(Run(baseline, steps))
  {
    if steps == [] {
      assert Ranks(map[], (n: Id) => 0, 0);
    } else {
      RunIsGood(baseline, steps[..|steps| - 1]);
      StepKeeps(baseline, Run(baseline, steps[..|steps| - 1]), steps[|steps| - 1]);
    }
  }

  /** A link once reported stays, so a nested popup never turns primary again; nothing follows disposal. */
  lemma {:induction false} RunGrows(baseline: set<Id>, steps: seq<Step>, k: nat)
    requires PossibleRun(baseline, steps) && k <= |steps|
    ensures LinksKept(Run(baseline, steps[..k]), Run(baseline, steps))
    ensures Run(baseline, steps[..k]).disposed ==> Run(baseline, steps) == Run(baseline, steps[..k])
    decreases |steps|
  {
    if k == |steps| {
      assert steps[..k] == steps;
    } else {
      var front := steps[..|steps| - 1];
      assert front[..k] == steps[..k];
      RunGrows(baseline, front, k);
      RunIsGood(baseline, front);
      StepKeeps(baseline, Run(baseline, front), steps[|steps| - 1]);
    }
  }

  /**
   * A timer firing during a run reports the fresh content of its popup, a primary, exactly when
   * there is content and its signature differs from the one last reported.
   */
  lemma TimerReportsNews(baseline: set<Id>, steps: seq<Step>, host: Id, snap: Snapshots, i: nat)
    requires PossibleRun(baseline, steps) && i < |Run(baseline, steps).tracked|
    requires Run(baseline, steps).tracked[i].host == host && Run(baseline, steps).tracked[i].info.timer
    ensures
      var s := Run(baseline, steps);
      var x := s.tracked[i].info.popupId;
      After(baseline, s, Timer(host, snap)).emitted ==
        if snap(host).Some? && snap(host).value.signature != LastSig(s.emitted, x)
        then s.emitted + [Event(x, Updated, Primary, None, snap(host))] else s.emitted
  {
    RunIsGood(baseline, steps);
    var s := Run(baseline, steps);
    TimerNews(s, host, snap, i);
    assert After(baseline, s, Timer(host, snap)) == ReSnapshot(s, host, snap);
  }

  lemma TimerNews(s: State, host: Id, snap: Snapshots, i: nat)
    requires Good(s) && i < |s.tracked| && s.tracked[i].host == host && s.tracked[i].info.timer
    ensures
      var x := s.tracked[i].info.popupId;
      ReSnapshot(s, host, snap).emitted ==
        if snap(host).Some? && snap(host).value.signature != LastSig(s.emitted, x)
        then s.emitted + [Event(x, Updated, Primary, None, snap(host))] else s.emitted
  {
    TheEntryOf(s, host, i);
    assert EntryOk(s.emitted, s.tracked[i].info);
  }
}
