/**
 * The library-popup producer (`installPopupCapture` in captures/capture_popup.ts).
 *
 * The page is the environment: at every step there is some document, some content to snapshot for
 * each host, and some set of connected nodes. Snapshots are opaque apart from their signature.
 */
module Popups {
  import opened Prelude
  import opened ComposedTree

  datatype Role = Primary | Nested
  datatype Detection = Shadow | Portal
  datatype Phase = Appeared | Updated | Disappeared

  datatype Snapshot = Snapshot(signature: string, content: string)

  /** Snapshotting a host; None when building the content throws. */
  type Snapshots = Id -> Option<Snapshot>

  datatype Event = Event(popupId: Id, phase: Phase, role: Role, parent: Option<Id>, state: Option<Snapshot>)

  /** A tracked popup; `observers` counts the widget observers it holds. */
  datatype Info = Info(popupId: Id, role: Role, parent: Option<Id>, lastSig: string, observers: nat, timer: bool)

  datatype Entry = Entry(host: Id, info: Info)

  datatype State = State(tracked: seq<Entry>, emitted: seq<Event>, disposed: bool)

  function SignatureOf(s: Option<Snapshot>): string { if s.Some? then s.value.signature else "" }

  function EventOf(info: Info, phase: Phase, state: Option<Snapshot>): Event {
    Event(info.popupId, phase, info.role, info.parent, state)
  }

  // ---------------------------------------------------------------- the tracked map

  predicate Has(tracked: seq<Entry>, host: Id) { exists i :: 0 <= i < |tracked| && tracked[i].host == host }

  /** The place of a host in insertion order. */
  function IndexOf(tracked: seq<Entry>, host: Id): (r: Option<nat>)
    ensures r.Some? ==> r.value < |tracked| && tracked[r.value].host == host
    ensures r.None? <==> !Has(tracked, host)
  {
    if tracked == [] then None
    else if tracked[|tracked| - 1].host == host then Some(|tracked| - 1)
    else IndexOf(tracked[..|tracked| - 1], host)
  }

  predicate HasPrimary(tracked: seq<Entry>, host: Id) {
    var i := IndexOf(tracked, host);
    i.Some? && tracked[i.value].info.role == Primary
  }

  function IsTracked(tracked: seq<Entry>): Id -> bool { (host: Id) => Has(tracked, host) }

  function IsPrimary(tracked: seq<Entry>): Id -> bool { (host: Id) => HasPrimary(tracked, host) }

  // ---------------------------------------------------------------- the operations

  /** `scheduleReSnapshot` */
  function Schedule(tracked: seq<Entry>, host: Id): seq<Entry> {
    var i := IndexOf(tracked, host);
    if i.None? then tracked
    else tracked[i.value := Entry(host, tracked[i.value].info.(timer := true))]
  }

  function Teardown(info: Info): Info { info.(observers := 0, timer := false) }

  /** A primary popup that turns out to live inside the newly registered one. */
  ghost predicate Moves(d: Document, newHost: Id, e: Entry) {
    e.host != newHost && e.info.role == Primary && Contains(d, newHost, e.host)
  }

  function MovedInto(e: Entry, newId: Id): Entry {
    Entry(e.host, Teardown(e.info).(role := Nested, parent := Some(newId)))
  }

  /** `reparentInto`: the tracked entries afterwards, ... */
  ghost function Reparented(tracked: seq<Entry>, d: Document, newHost: Id, newId: Id): (r: seq<Entry>)
    ensures |r| == |tracked|
    ensures forall i :: 0 <= i < |tracked| ==>
              r[i] == if Moves(d, newHost, tracked[i]) then MovedInto(tracked[i], newId) else tracked[i]
  {
    seq(|tracked|, i requires 0 <= i < |tracked| =>
      if Moves(d, newHost, tracked[i]) then MovedInto(tracked[i], newId) else tracked[i])
  }

  /** ... and the corrective updates it emits. */
  ghost function ReparentEvents(tracked: seq<Entry>, d: Document, newHost: Id, newId: Id, snap: Snapshots): seq<Event> {
    if tracked == [] then []
    else
      ReparentEvents(tracked[..|tracked| - 1], d, newHost, newId, snap)
      + ReparentEvent(tracked[|tracked| - 1], d, newHost, newId, snap)
  }

  ghost function ReparentEvent(e: Entry, d: Document, newHost: Id, newId: Id, snap: Snapshots): seq<Event> {
    if Moves(d, newHost, e) then [EventOf(MovedInto(e, newId).info, Updated, snap(e.host))] else []
  }

  /** The first `i` entries looked at. */
  ghost predicate PartlyReparented(tracked: seq<Entry>, before: seq<Entry>, d: Document, newHost: Id, newId: Id, i: nat)
  {
    && |tracked| == |before|
    && forall k :: 0 <= k < |before| ==>
         tracked[k] == if k < i && Moves(d, newHost, before[k]) then MovedInto(before[k], newId) else before[k]
  }

  lemma PartlyReparentedStep(tracked: seq<Entry>, before: seq<Entry>, d: Document, newHost: Id, newId: Id, i: nat)
    requires PartlyReparented(tracked, before, d, newHost, newId, i) && i < |before|
    ensures tracked[i] == before[i]
    ensures Moves(d, newHost, before[i]) ==>
      PartlyReparented(tracked[i := MovedInto(before[i], newId)], before, d, newHost, newId, i + 1)
    ensures !Moves(d, newHost, before[i]) ==> PartlyReparented(tracked, before, d, newHost, newId, i + 1)
  {}

  lemma FullyReparented(tracked: seq<Entry>, before: seq<Entry>, d: Document, newHost: Id, newId: Id)
    requires PartlyReparented(tracked, before, d, newHost, newId, |before|)
    ensures tracked == Reparented(before, d, newHost, newId)
  {}

  /** What has been emitted by then. */
  ghost predicate PartlyReported(emitted: seq<Event>, start: seq<Event>, before: seq<Entry>, d: Document, newHost: Id,
    newId: Id, snap: Snapshots, i: nat)
  {
    i <= |before| && emitted == start + ReparentEvents(before[..i], d, newHost, newId, snap)
  }

  lemma PartlyReportedStep(emitted: seq<Event>, start: seq<Event>, before: seq<Entry>, d: Document, newHost: Id,
    newId: Id, snap: Snapshots, i: nat)
    requires PartlyReported(emitted, start, before, d, newHost, newId, snap, i) && i < |before|
    ensures
      var corrected := EventOf(MovedInto(before[i], newId).info, Updated, snap(before[i].host));
      PartlyReported(if Moves(d, newHost, before[i]) then emitted + [corrected] else emitted,
                     start, before, d, newHost, newId, snap, i + 1)
  {
    assert before[..i + 1][..i] == before[..i];
  }

  lemma FullyReported(emitted: seq<Event>, start: seq<Event>, before: seq<Entry>, d: Document, newHost: Id,
    newId: Id, snap: Snapshots)
    ensures PartlyReported(start, start, before, d, newHost, newId, snap, 0)
    ensures PartlyReported(emitted, start, before, d, newHost, newId, snap, |before|) ==>
      emitted == start + ReparentEvents(before, d, newHost, newId, snap)
  {
    assert before[..|before|] == before;
  }

  /** Whose popup a host lives in: the nearest tracked host above it. */
  ghost function ParentOf(s: State, d: Document, host: Id): Option<Id> {
    var p := Enclosing(d, host, IsTracked(s.tracked));
    if p.None? then None
    else
      var i := IndexOf(s.tracked, p.value);
      if i.None? then None else Some(s.tracked[i.value].info.popupId)
  }

  ghost function NewInfo(s: State, d: Document, host: Id, snap: Snapshots, id: Id): Info {
    var parent := ParentOf(s, d, host);
    Info(id, if parent.Some? then Nested else Primary, parent, SignatureOf(snap(host)), 0, false)
  }

  /** `registerPopup` */
  ghost function Register(s: State, d: Document, host: Id, detection: Detection, snap: Snapshots, id: Id): State {
    if s.disposed || Has(s.tracked, host) then s
    else
      var info := NewInfo(s, d, host, snap, id);
      var appeared := EventOf(info, Appeared, snap(host));
      if info.role == Primary then
        s.(tracked := Reparented(s.tracked, d, host, id)
                      + [Entry(host, info.(observers := if detection == Shadow then 2 else 1))],
           emitted := s.emitted + ReparentEvents(s.tracked, d, host, id, snap) + [appeared])
      else
        var tracked := s.tracked + [Entry(host, info)];
        var primary := Enclosing(d, host, IsPrimary(tracked));
        s.(tracked := if primary.Some? then Schedule(tracked, primary.value) else tracked,
           emitted := s.emitted + [appeared])
  }

  ghost predicate Connected(d: Document, doc: Id, host: Id) { Above(Up(d), doc, host) }

  /** What the page says of `isConnected`. */
  ghost predicate SaysConnected(connected: Id -> bool, d: Document, doc: Id) {
    forall h :: connected(h) <==> Connected(d, doc, h)
  }

  /** `sweepRemovals`: what stays tracked, ... */
  ghost function Staying(tracked: seq<Entry>, d: Document, doc: Id): seq<Entry> {
    if tracked == [] then []
    else
      var front, last := tracked[..|tracked| - 1], tracked[|tracked| - 1];
      Staying(front, d, doc) + (if Connected(d, doc, last.host) then [last] else [])
  }

  /** ... and the disappearances. */
  ghost function Leaving(tracked: seq<Entry>, d: Document, doc: Id): seq<Event> {
    if tracked == [] then []
    else
      var front, last := tracked[..|tracked| - 1], tracked[|tracked| - 1];
      Leaving(front, d, doc) + (if Connected(d, doc, last.host) then [] else [EventOf(last.info, Disappeared, None)])
  }

  ghost function Sweep(s: State, d: Document, doc: Id): State {
    if s.disposed then s
    else s.(tracked := Staying(s.tracked, d, doc), emitted := s.emitted + Leaving(s.tracked, d, doc))
  }

  /** `reSnapshot`, when the debounce timer of a host fires. */
  function ReSnapshot(s: State, host: Id, snap: Snapshots): State {
    var i := IndexOf(s.tracked, host);
    if s.disposed || i.None? then s
    else
      var info := s.tracked[i.value].info.(timer := false);
      var state := snap(host);
      if state.None? || state.value.signature == info.lastSig then
        s.(tracked := s.tracked[i.value := Entry(host, info)])
      else
        var renewed := info.(lastSig := state.value.signature);
        s.(tracked := s.tracked[i.value := Entry(host, renewed)],
           emitted := s.emitted + [EventOf(renewed, Updated, state)])
  }

  /** An overlay added under the body, with the id it would get. */
  datatype Overlay = Overlay(host: Id, id: Id)

  ghost function RegisterAll(s: State, d: Document, overlays: seq<Overlay>, snap: Snapshots): State {
    if overlays == [] then s
    else
      var before := RegisterAll(s, d, overlays[..|overlays| - 1], snap);
      var last := overlays[|overlays| - 1];
      Register(before, d, last.host, Portal, snap, last.id)
  }

  /** `onBodyMutations`: the overlays among the added nodes, then the sweep. */
  ghost function BodyMutations(s: State, d: Document, doc: Id, overlays: seq<Overlay>, snap: Snapshots): State {
    if s.disposed then s else Sweep(RegisterAll(s, d, overlays, snap), d, doc)
  }

  function Disposed(s: State): State { if s.disposed then s else State([], s.emitted, true) }

  lemma DiscoveredHosts(d: Document, doc: Id)
    ensures forall s :: s in Discover(d, doc) ==> s in d.host && d.host[s] in d.shadow && d.shadow[d.host[s]] == s
  {
    forall s | s in Discover(d, doc) ensures s in d.host && d.host[s] in d.shadow && d.shadow[d.host[s]] == s {
      DiscoverIff(d, doc, s);
    }
  }

  class PopupCapture {
    const baseline: set<Id>
    var tracked: seq<Entry>
    var emitted: seq<Event>
    var disposed: bool

    ghost function S(): State
      reads this
    {
      State(tracked, emitted, disposed)
    }

    /** Hosts of shadow roots present at installation are page structure, not popups. */
    constructor (d: Document, doc: Id)
      ensures S() == State([], [], false)
      ensures forall s :: s in Discover(d, doc) ==> s in d.host && d.host[s] in baseline
      ensures forall h :: h in baseline ==> h in d.shadow && d.shadow[h] in Discover(d, doc)
    {
      var roots := DiscoverShadowRoots(d, doc);
      DiscoveredHosts(d, doc);
      baseline := set s | s in roots :: d.host[s];
      tracked, emitted, disposed := [], [], false;
    }

    method ScheduleReSnapshot(host: Id)
      modifies this
      ensures S() == old(S()).(tracked := Schedule(old(tracked), host))
    {
      var i := IndexOf(tracked, host);
      if i.None? || tracked[i.value].info.timer {
        return;
      }
      tracked := tracked[i.value := Entry(host, tracked[i.value].info.(timer := true))];
    }

    method ReparentInto(d: Document, newHost: Id, newId: Id, snap: Snapshots)
      modifies this
      ensures S() == old(S()).(tracked := Reparented(old(tracked), d, newHost, newId),
                               emitted := old(emitted) + ReparentEvents(old(tracked), d, newHost, newId, snap))
    {
      ghost var before := tracked;
      FullyReported(emitted, emitted, before, d, newHost, newId, snap);
      for i := 0 to |tracked|
        invariant |tracked| == |before| && disposed == old(disposed)
        invariant PartlyReparented(tracked, before, d, newHost, newId, i)
        invariant PartlyReported(emitted, old(emitted), before, d, newHost, newId, snap, i)
      {
        var e := tracked[i];
        PartlyReparentedStep(tracked, before, d, newHost, newId, i);
        PartlyReportedStep(emitted, old(emitted), before, d, newHost, newId, snap, i);
        if e.host == newHost || e.info.role != Primary {
          continue;
        }
        var inside := ComposedContains(d, newHost, e.host);
        if inside {
          var info := Teardown(e.info).(role := Nested, parent := Some(newId));
          tracked := tracked[i := Entry(e.host, info)];
          emitted := emitted + [EventOf(info, Updated, snap(e.host))];
        }
      }
      FullyReparented(tracked, before, d, newHost, newId);
      FullyReported(emitted, old(emitted), before, d, newHost, newId, snap);
    }

    method RegisterPopup(d: Document, host: Id, detection: Detection, snap: Snapshots, id: Id)
      modifies this
      ensures S() == Register(old(S()), d, host, detection, snap, id)
    {
      if disposed || Has(tracked, host) {
        return;
      }
      EnclosingSame(d, host, IsTracked(tracked), Accepted(IsTracked(tracked), Never()));
      var parentHost := FindEnclosingHost(d, host, IsTracked(tracked), Never());
      var parent: Option<Id> := None;
      if parentHost.Some? {
        var i := IndexOf(tracked, parentHost.value);
        if i.Some? {
          parent := Some(tracked[i.value].info.popupId);
        }
      }
      var role := if parent.Some? then Nested else Primary;
      var state := snap(host);
      var info := Info(id, role, parent, SignatureOf(state), 0, false);
      if role == Primary {
        ReparentInto(d, host, id, snap);
        emitted := emitted + [EventOf(info, Appeared, state)];
        tracked := tracked + [Entry(host, info.(observers := if detection == Shadow then 2 else 1))];
      } else {
        tracked := tracked + [Entry(host, info)];
        emitted := emitted + [EventOf(info, Appeared, state)];
        EnclosingSame(d, host, IsPrimary(tracked), Accepted(IsPrimary(tracked), Never()));
        var primaryHost := FindEnclosingHost(d, host, IsPrimary(tracked), Never());
        if primaryHost.Some? {
          ScheduleReSnapshot(primaryHost.value);
        }
      }
    }

    /** The listener of the patched `attachShadow`. */
    method OnAttachShadow(d: Document, host: Id, snap: Snapshots, id: Id)
      modifies this
      ensures S() == if host in baseline then old(S()) else Register(old(S()), d, host, Shadow, snap, id)
    {
      if disposed {
        return;
      }
      if host !in baseline {
        RegisterPopup(d, host, Shadow, snap, id);
      }
    }

    method SweepRemovals(d: Document, doc: Id, connected: Id -> bool)
      requires SaysConnected(connected, d, doc)
      modifies this
      ensures S() == Sweep(old(S()), d, doc)
    {
      if disposed || |tracked| == 0 {
        return;
      }
      var before := tracked;
      var staying: seq<Entry> := [];
      assert before[..0] == [];
      for i := 0 to |before|
        invariant !disposed && tracked == before
        invariant staying == Staying(before[..i], d, doc)
        invariant emitted == old(emitted) + Leaving(before[..i], d, doc)
      {
        assert before[..i + 1][..i] == before[..i];
        if connected(before[i].host) {
          staying := staying + [before[i]];
        } else {
          emitted := emitted + [EventOf(before[i].info, Disappeared, None)];
        }
      }
      assert before[..|before|] == before;
      tracked := staying;
    }

    method OnBodyMutations(d: Document, doc: Id, overlays: seq<Overlay>, snap: Snapshots, connected: Id -> bool)
      requires SaysConnected(connected, d, doc)
      modifies this
      ensures S() == BodyMutations(old(S()), d, doc, overlays, snap)
    {
      if disposed {
        return;
      }
      assert overlays[..0] == [];
      for i := 0 to |overlays|
        invariant S() == RegisterAll(old(S()), d, overlays[..i], snap)
      {
        assert overlays[..i + 1][..i] == overlays[..i];
        RegisterPopup(d, overlays[i].host, Portal, snap, overlays[i].id);
      }
      assert overlays[..|overlays|] == overlays;
      SweepRemovals(d, doc, connected);
    }

    method OnTimer(host: Id, snap: Snapshots)
      modifies this
      ensures S() == ReSnapshot(old(S()), host, snap)
    {
      if disposed {
        return;
      }
      var i := IndexOf(tracked, host);
      if i.None? {
        return;
      }
      var info := tracked[i.value].info.(timer := false);
      tracked := tracked[i.value := Entry(host, info)];
      var state := snap(host);
      if state.None? {
        return;
      }
      if state.value.signature == info.lastSig {
        return;
      }
      info := info.(lastSig := state.value.signature);
      tracked := tracked[i.value := Entry(host, info)];
      emitted := emitted + [EventOf(info, Updated, state)];
    }

    method Dispose()
      modifies this
      ensures S() == Disposed(old(S()))
    {
      if disposed {
        return;
      }
      disposed := true;
      tracked := [];
    }
  }
}
