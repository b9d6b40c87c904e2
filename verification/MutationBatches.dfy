/**
 * Coalescing of DOM mutations (`onRecords`, `flush`, `scheduleFlush` in captures/capture_dom_mutation.ts).
 * What a record says of the page is a given value: a patch, or nothing.
 */
module MutationBatches {
  import opened Prelude

  datatype Entry<T> = Patch(p: T) | Overflow(dropped: nat)

  datatype State<T> = State(pending: seq<T>, dropped: nat, armed: bool, disposed: bool, events: seq<seq<Entry<T>>>)

  function Entries<T>(ps: seq<T>): (es: seq<Entry<T>>)
    ensures |es| == |ps| && forall i :: 0 <= i < |ps| ==> es[i] == Patch(ps[i])
  {
    seq(|ps|, i requires 0 <= i < |ps| => Patch(ps[i]))
  }

  /** What the next event would carry. */
  function Unsent<T>(s: State<T>): seq<Entry<T>> {
    Entries(s.pending) + if s.dropped > 0 then [Overflow(s.dropped)] else []
  }

  function Flushed<T>(s: State<T>): State<T> {
    if Unsent(s) == [] then s.(armed := false)
    else s.(pending := [], dropped := 0, armed := false, events := s.events + [Unsent(s)])
  }

  function Absorbed<T>(s: State<T>, p: T, max: int): State<T> {
    if |s.pending| >= max then s.(dropped := s.dropped + 1) else s.(pending := s.pending + [p])
  }

  function AllAbsorbed<T>(s: State<T>, ps: seq<T>, max: int): State<T> {
    if ps == [] then s else Absorbed(AllAbsorbed(s, ps[..|ps| - 1], max), ps[|ps| - 1], max)
  }

  /** The patches of a delivery. */
  function Patches<T>(records: seq<Option<T>>): seq<T> {
    if records == [] then []
    else
      var last := records[|records| - 1];
      Patches(records[..|records| - 1]) + if last.Some? then [last.value] else []
  }

  /** The end of a delivery: flush when something was dropped or the event is full, otherwise wait. */
  function Settled<T>(s: State<T>, max: int): State<T> {
    if s.pending == [] && s.dropped == 0 then s
    else if s.dropped > 0 || |s.pending| >= max then Flushed(s)
    else s.(armed := true)
  }

  function Delivered<T>(s: State<T>, records: seq<Option<T>>, max: int): State<T> {
    if s.disposed then s else Settled(AllAbsorbed(s, Patches(records), max), max)
  }

  function Disposed<T>(s: State<T>): State<T> { if s.disposed then s else State([], 0, false, true, s.events) }

  class MutationCapture<T> {
    const max: int
    var pending: seq<T>
    var dropped: nat
    var armed: bool
    var disposed: bool
    var events: seq<seq<Entry<T>>>

    function S(): State<T>
      reads this
    {
      State(pending, dropped, armed, disposed, events)
    }

    constructor (max: int)
      ensures this.max == max && S() == State([], 0, false, false, [])
    {
      this.max := max;
      pending, dropped, armed, disposed, events := [], 0, false, false, [];
    }

    method Flush()
      modifies this
      ensures S() == Flushed(old(S()))
    {
      if armed {
        armed := false;
      }
      if |pending| == 0 && dropped == 0 {
        return;
      }
      var patches := if dropped > 0 then Entries(pending) + [Overflow(dropped)] else Entries(pending);
      assert patches == Unsent(S());
      pending := [];
      dropped := 0;
      events := events + [patches];
    }

    method ScheduleFlush()
      modifies this
      ensures S() == old(S()).(armed := true)
    {
      if armed {
        return;
      }
      armed := true;
    }

    method OnRecords(records: seq<Option<T>>)
      modifies this
      ensures S() == Delivered(old(S()), records, max)
    {
      if disposed {
        return;
      }
      assert records[..0] == [];
      for i := 0 to |records|
        invariant S() == AllAbsorbed(old(S()), Patches(records[..i]), max)
      {
        assert records[..i + 1][..i] == records[..i];
        ghost var before := Patches(records[..i]);
        var patch := records[i];
        if patch.None? {
          assert Patches(records[..i + 1]) == before;
          continue;
        }
        assert (before + [patch.value])[..|before|] == before;
        if |pending| >= max {
          dropped := dropped + 1;
          continue;
        }
        pending := pending + [patch.value];
      }
      assert records[..|records|] == records;
      if |pending| == 0 && dropped == 0 {
        return;
      }
      if dropped > 0 || |pending| >= max {
        Flush();
        return;
      }
      ScheduleFlush();
    }

    method OnTimer()
      requires armed
      modifies this
      ensures S() == Flushed(old(S()))
    {
      Flush();
    }

    method Dispose()
      modifies this
      ensures S() == Disposed(old(S()))
    {
      if disposed {
        return;
      }
      disposed := true;
      armed := false;
      pending := [];
      dropped := 0;
    }
  }

  // ---------------------------------------------------------------- conservation

  /** The entries account for the history, in order: a patch for itself, an overflow for as many as it counts. */
  ghost predicate Accounts<T(!new)>(es: seq<Entry<T>>, h: seq<T>)
    decreases |es|
  {
    if es == [] then h == []
    else
      var front := es[..|es| - 1];
      match es[|es| - 1]
      case Patch(p) => h != [] && h[|h| - 1] == p && Accounts(front, h[..|h| - 1])
      case Overflow(n) => n <= |h| && Accounts(front, h[..|h| - n])
  }

  /** Everything emitted and everything that would be emitted next. */
  ghost function Content<T>(s: State<T>): seq<Entry<T>> { Flatten(s.events) + Unsent(s) }

  lemma AccountsPatch<T(!new)>(es: seq<Entry<T>>, h: seq<T>, p: T)
    requires Accounts(es, h)
    ensures Accounts(es + [Patch(p)], h + [p])
  {
    assert (es + [Patch(p)])[..|es|] == es;
    assert (h + [p])[..|h|] == h;
  }

  lemma AccountsDrop<T(!new)>(es: seq<Entry<T>>, h: seq<T>, n: nat, p: T)
    requires if n == 0 then Accounts(es, h) else Accounts(es + [Overflow(n)], h)
    ensures Accounts(es + [Overflow(n + 1)], h + [p])
  {
    assert forall k: nat :: (es + [Overflow(k)])[..|es|] == es;
    assert (h + [p])[..|h| - n] == h[..|h| - n];
    assert h[..|h|] == h;
  }

  /** Reading off how many patches the entries stand for. */
  function Weight<T>(es: seq<Entry<T>>): nat {
    if es == [] then 0
    else Weight(es[..|es| - 1]) + match es[|es| - 1] case Patch(_) => 1 case Overflow(n) => n
  }

  lemma {:induction false} AccountsWeight<T(!new)>(es: seq<Entry<T>>, h: seq<T>)
    requires Accounts(es, h)
    ensures Weight(es) == |h|
    decreases |es|
  {
    if es != [] {
      match es[|es| - 1]
      case Patch(p) => AccountsWeight(es[..|es| - 1], h[..|h| - 1]);
      case Overflow(n) => AccountsWeight(es[..|es| - 1], h[..|h| - n]);
    }
  }

  /** Inside a delivery: patches are only dropped once the event is full. */
  ghost predicate Filling<T>(s: State<T>, max: int) {
    && (s.pending != [] ==> |s.pending| <= max)
    && (s.dropped > 0 ==> |s.pending| >= max)
  }

  predicate EventOk<T>(e: seq<Entry<T>>, max: int) {
    && e != []
    && |e| <= (if max > 0 then max else 0) + 1
    && forall i :: 0 <= i < |e| - 1 ==> e[i].Patch?
  }

  /** Between callbacks: nothing counted as dropped, the event not full, the
   * timer armed exactly when something waits. */
  ghost predicate AtRest<T>(s: State<T>, max: int) {
    && s.dropped == 0
    && (s.pending != [] ==> |s.pending| < max)
    && (s.armed <==> s.pending != [])
    && forall i :: 0 <= i < |s.events| ==> EventOk(s.events[i], max)
  }

  /** What is accounted for apart from the patches dropped so far. */
  ghost function Carried<T>(s: State<T>): seq<Entry<T>> { Flatten(s.events) + Entries(s.pending) }

  lemma ContentIs<T>(s: State<T>)
    ensures Content(s) == if s.dropped == 0 then Carried(s) else Carried(s) + [Overflow(s.dropped)]
  {}

  lemma PendingGrows<T>(s: State<T>, p: T)
    ensures Carried(s.(pending := s.pending + [p])) == Carried(s) + [Patch(p)]
  {
    assert Entries(s.pending + [p]) == Entries(s.pending) + [Patch(p)];
  }

  lemma AbsorbKeeps<T(!new)>(s: State<T>, p: T, max: int, h: seq<T>)
    requires Filling(s, max) && Accounts(Content(s), h)
    ensures Filling(Absorbed(s, p, max), max) && Accounts(Content(Absorbed(s, p, max)), h + [p])
  {
    ContentIs(s);
    ContentIs(Absorbed(s, p, max));
    if |s.pending| >= max {
      AccountsDrop(Carried(s), h, s.dropped, p);
    } else {
      PendingGrows(s, p);
      AccountsPatch(Carried(s), h, p);
    }
  }

  /** Within a delivery nothing but pending patches and the count of dropped ones changes. */
  ghost predicate Absorbing<T(!new)>(s: State<T>, s': State<T>, max: int, h: seq<T>) {
    && Filling(s', max) && Accounts(Content(s'), h)
    && s'.events == s.events && s'.armed == s.armed && s'.disposed == s.disposed && |s'.pending| >= |s.pending|
  }

  lemma AbsorbingMore<T(!new)>(s: State<T>, mid: State<T>, p: T, max: int, h: seq<T>)
    requires Absorbing(s, mid, max, h)
    ensures Absorbing(s, Absorbed(mid, p, max), max, h + [p])
  {
    AbsorbKeeps(mid, p, max, h);
  }

  lemma {:induction false} AllAbsorbKeeps<T(!new)>(s: State<T>, ps: seq<T>, max: int, h: seq<T>)
    requires Filling(s, max) && Accounts(Content(s), h)
    ensures Absorbing(s, AllAbsorbed(s, ps, max), max, h + ps)
  {
    if ps == [] {
      assert h + ps == h;
    } else {
      var front := ps[..|ps| - 1];
      AllAbsorbKeeps(s, front, max, h);
      AbsorbingMore(s, AllAbsorbed(s, front, max), ps[|ps| - 1], max, h + front);
      assert h + ps == h + front + [ps[|ps| - 1]];
    }
  }

  lemma FlushKeeps<T>(s: State<T>, max: int)
    requires Filling(s, max)
    requires forall i :: 0 <= i < |s.events| ==> EventOk(s.events[i], max)
    ensures AtRest(Flushed(s), max) && Content(Flushed(s)) == Content(s)
  {
    FlattenAppend(s.events, [Unsent(s)]);
    assert Flatten([Unsent(s)]) == Unsent(s);
  }

  /** Filling up to the cap, the rest counted. */
  lemma {:induction false} AbsorbedIs<T>(s: State<T>, ps: seq<T>, max: int)
    requires s.dropped == 0 && (s.pending != [] ==> |s.pending| < max)
    ensures
      var all, room := s.pending + ps, if max > 0 then max else 0;
      var s' := AllAbsorbed(s, ps, max);
      && s'.pending == FirstN(all, room) && s'.dropped == |all| - |FirstN(all, room)|
      && s'.events == s.events && s'.armed == s.armed && s'.disposed == s.disposed
  {
    if ps == [] {
      assert s.pending + ps == s.pending;
    } else {
      var front, last := ps[..|ps| - 1], ps[|ps| - 1];
      AbsorbedIs(s, front, max);
      assert s.pending + ps == s.pending + front + [last];
    }
  }

  /** What a delivery does: below the cap it waits with everything; from the cap on,
   * one event holds the first patches and the count of the rest. */
  lemma DeliveryIs<T>(s: State<T>, records: seq<Option<T>>, max: int)
    requires !s.disposed && AtRest(s, max)
    ensures
      var all, room := s.pending + Patches(records), if max > 0 then max else 0;
      var s' := Delivered(s, records, max);
      if all == [] then s' == s
      else if |all| < room then s' == s.(pending := all, armed := true)
      else
        var rest := if |all| > room then [Overflow(|all| - room)] else [];
        s' == s.(pending := [], armed := false, events := s.events + [Entries(all[..room]) + rest])
  {
    AbsorbedIs(s, Patches(records), max);
    var all, room := s.pending + Patches(records), if max > 0 then max else 0;
    if |all| >= room {
      assert all[..room] == FirstN(all, room);
      var rest: seq<Entry<T>> := if |all| > room then [Overflow(|all| - room)] else [];
      assert Unsent(AllAbsorbed(s, Patches(records), max)) == Entries(all[..room]) + rest;
    }
  }

  // ---------------------------------------------------------------- runs

  datatype Step<T> = Records(records: seq<Option<T>>) | Timer | Dispose

  predicate Possible<T>(s: State<T>, step: Step<T>) { step.Timer? ==> s.armed }

  function Next<T>(s: State<T>, step: Step<T>, max: int): State<T> {
    match step
    case Records(records) => Delivered(s, records, max)
    case Timer => Flushed(s)
    case Dispose => Disposed(s)
  }

  function Run<T>(steps: seq<Step<T>>, max: int): State<T> {
    if steps == [] then State([], 0, false, false, [])
    else Next(Run(steps[..|steps| - 1], max), steps[|steps| - 1], max)
  }

  predicate PossibleRun<T>(steps: seq<Step<T>>, max: int) {
    steps == []
    || (PossibleRun(steps[..|steps| - 1], max) && Possible(Run(steps[..|steps| - 1], max), steps[|steps| - 1]))
  }

  /** Every patch delivered, in order. */
  function Received<T>(steps: seq<Step<T>>): seq<T> {
    if steps == [] then []
    else
      Received(steps[..|steps| - 1])
      + match steps[|steps| - 1] case Records(records) => Patches(records) case _ => []
  }

  lemma DeliverKeeps<T(!new)>(s: State<T>, records: seq<Option<T>>, max: int, h: seq<T>)
    requires !s.disposed && AtRest(s, max) && Accounts(Content(s), h)
    ensures AtRest(Delivered(s, records, max), max)
      && Accounts(Content(Delivered(s, records, max)), h + Patches(records))
    ensures !Delivered(s, records, max).disposed
  {
    AllAbsorbKeeps(s, Patches(records), max, h);
    var full := AllAbsorbed(s, Patches(records), max);
    if full.dropped > 0 || |full.pending| >= max {
      FlushKeeps(full, max);
    }
  }

  /** What holds between callbacks, given the patches received so far. */
  ghost predicate Good<T(!new)>(s: State<T>, max: int, h: seq<T>) {
    && AtRest(s, max)
    && (s.disposed ==> s.pending == [])
    && (!s.disposed ==> Accounts(Content(s), h))
  }

  lemma StepKeeps<T(!new)>(s: State<T>, step: Step<T>, max: int, h: seq<T>)
    requires Good(s, max, h) && Possible(s, step)
    ensures Good(Next(s, step, max), max, h + match step case Records(records) => Patches(records) case _ => [])
    ensures s.disposed ==> Next(s, step, max) == s
  {
    assert h + [] == h;
    match step
    case Records(records) =>
      if !s.disposed {
        DeliverKeeps(s, records, max, h);
      }
    case Timer =>
      FlushKeeps(s, max);
    case Dispose =>
  }

  /**
   * Every run: between callbacks the capture is at rest, until disposal the entries emitted, with
   * what is still pending, account for every patch received, in order, and nothing follows disposal.
   */
  lemma {:induction false} NothingLost<T(!new)>(steps: seq<Step<T>>, max: int)
    requires PossibleRun(steps, max)
    ensures Good(Run(steps, max), max, Received(steps))
    ensures steps != [] && Run(steps[..|steps| - 1], max).disposed ==> Run(steps, max) == Run(steps[..|steps| - 1], max)
  {
    if steps != [] {
      var front := steps[..|steps| - 1];
      NothingLost(front, max);
      StepKeeps(Run(front, max), steps[|steps| - 1], max, Received(front));
    }
  }

  /** In numbers: patches emitted, plus overflow counts, plus what is pending, make up all patches received. */
  lemma PatchesAddUp<T(!new)>(steps: seq<Step<T>>, max: int)
    requires PossibleRun(steps, max) && !Run(steps, max).disposed
    ensures Weight(Flatten(Run(steps, max).events)) + |Run(steps, max).pending| == |Received(steps)|
  {
    NothingLost(steps, max);
    var s := Run(steps, max);
    AccountsWeight(Content(s), Received(steps));
    WeightOfPatches(Flatten(s.events), s.pending);
    assert Unsent(s) == Entries(s.pending);
  }

  lemma {:induction false} WeightOfPatches<T>(es: seq<Entry<T>>, ps: seq<T>)
    ensures Weight(es + Entries(ps)) == Weight(es) + |ps|
  {
    var all := es + Entries(ps);
    if ps == [] {
      assert all == es;
    } else {
      var front := ps[..|ps| - 1];
      WeightOfPatches(es, front);
      assert all[..|all| - 1] == es + Entries(front);
    }
  }
}
