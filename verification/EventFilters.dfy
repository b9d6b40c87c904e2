/** Which events `getRecent` returns (sw_event_sink/sw_event_sink.ts), told by their place in the history alone. */
module EventFilters {
  import opened Prelude
  import opened EventSinks

  // ---------------------------------------------------------------- who is returned

  /** The last `n` accepted events are still held, for the buffer size asked for; 200 when none valid was. */
  predicate Holds(requested: Option<Num>, n: nat) {
    match requested
    case Some(PosInf) => true
    case Some(Fin(r)) => if r > 0.0 then n as real <= r else n <= 200
    case _ => n <= 200
  }

  /** No kinds at all means every kind. */
  predicate Wanted(kinds: Option<seq<string>>, kind: string) {
    kinds.Some? && |kinds.value| > 0 ==> exists i :: 0 <= i < |kinds.value| && kinds.value[i] == kind
  }

  predicate After(sinceMs: Option<Num>, ts: real) {
    match sinceMs
    case None => true
    case Some(Fin(r)) => ts > r
    case Some(NegInf) => true
    case _ => false
  }

  predicate HeldAt(requested: Option<Num>, h: seq<Event>, j: nat) { j < |h| && Holds(requested, |h| - j) }

  /** The event at place `j` of the history is held and passes both filters. */
  predicate Qualifies(requested: Option<Num>, f: Filter, h: seq<Event>, j: nat) {
    HeldAt(requested, h, j) && Wanted(f.kinds, h[j].kind) && After(f.sinceMs, h[j].ts)
  }

  /** How many later events qualify. */
  function Later(requested: Option<Num>, f: Filter, h: seq<Event>, j: nat): nat {
    |set i: nat | j < i < |h| && Qualifies(requested, f, h, i)|
  }

  /** The limit leaves room for one event behind `later` others; 50 when none is given. */
  predicate Allows(limit: Option<Num>, later: nat) {
    match limit
    case None => later < 50
    case Some(Fin(r)) => later as real + 1.0 <= r
    case Some(NegInf) => false
    case _ => true
  }

  /** The events at these places of the history, which are those that qualify with few enough qualifying later. */
  ghost predicate IsRecent(requested: Option<Num>, f: Filter, h: seq<Event>, events: seq<Event>, at: seq<nat>) {
    && Places(at, |h|) && |events| == |at|
    && (forall i :: 0 <= i < |at| ==> events[i] == h[at[i]])
    && forall j: nat :: j in at <==>
         Qualifies(requested, f, h, j) && Allows(f.limit, Later(requested, f, h, j))
  }

  // ---------------------------------------------------------------- the two filters are one

  lemma {:induction false} FilterTwice<T>(s: seq<T>, a: T -> bool, b: T -> bool, both: T -> bool)
    requires forall x :: both(x) <==> a(x) && b(x)
    ensures Prelude.Filter(Prelude.Filter(s, a), b) == Prelude.Filter(s, both)
  {
    if s != [] {
      FilterTwice(s[1..], a, b, both);
      var rest := Prelude.Filter(s[1..], a);
      if a(s[0]) {
        assert ([s[0]] + rest)[1..] == rest;
      } else {
        assert [] + rest == rest;
      }
    }
  }

  function Passes(f: Filter): Event -> bool { (e: Event) => OfKinds(f.kinds)(e) && Since(f.sinceMs)(e) }

  lemma PassesIff(f: Filter, e: Event)
    ensures Passes(f)(e) <==> Wanted(f.kinds, e.kind) && After(f.sinceMs, e.ts)
  {
    assert OfKinds(f.kinds)(e) <==> Wanted(f.kinds, e.kind) by {
      if f.kinds.Some? && f.kinds.value != [] && e.kind in f.kinds.value {
        var i :| 0 <= i < |f.kinds.value| && f.kinds.value[i] == e.kind;
      }
    }
    assert Since(f.sinceMs)(e) <==> After(f.sinceMs, e.ts);
  }

  lemma KeptIsHeld(requested: Option<Num>, h: seq<Event>)
    ensures
      var k := |Kept(h, EffectiveSize(requested))|;
      && k <= |h| && Kept(h, EffectiveSize(requested)) == h[|h| - k..]
      && forall j: nat :: HeldAt(requested, h, j) <==> |h| - k <= j < |h|
  {}

  /** The places of all that qualify. */
  ghost predicate AllQualifying(requested: Option<Num>, f: Filter, h: seq<Event>, at: seq<nat>) {
    Places(at, |h|) && forall j: nat :: j in at <==> Qualifies(requested, f, h, j)
  }

  function Shifted(at: seq<nat>, start: nat): (r: seq<nat>)
    ensures |r| == |at| && forall i :: 0 <= i < |at| ==> r[i] == at[i] + start
  {
    seq(|at|, i requires 0 <= i < |at| => at[i] + start)
  }

  lemma ShiftedIn(at: seq<nat>, start: nat, j: nat)
    ensures j in Shifted(at, start) <==> j >= start && (j - start) in at
  {
    if j in Shifted(at, start) {
      var i :| 0 <= i < |at| && Shifted(at, start)[i] == j;
      assert at[i] == j - start;
    }
    if j >= start && (j - start) in at {
      var i :| 0 <= i < |at| && at[i] == j - start;
      assert Shifted(at, start)[i] == j;
    }
  }

  /** From places among the events held to places in the history. */
  lemma ShiftedIsQualifying(requested: Option<Num>, f: Filter, h: seq<Event>, k: nat, inner: seq<nat>)
    requires k <= |h| && Places(inner, k)
    requires forall j: nat :: HeldAt(requested, h, j) <==> |h| - k <= j < |h|
    requires forall j: nat :: j < k ==> (j in inner <==> Passes(f)(h[|h| - k..][j]))
    ensures AllQualifying(requested, f, h, Shifted(inner, |h| - k))
  {
    var start := |h| - k;
    forall j: nat ensures j in Shifted(inner, start) <==> Qualifies(requested, f, h, j) {
      ShiftedIn(inner, start, j);
      if start <= j < |h| {
        assert h[start..][j - start] == h[j];
        PassesIff(f, h[j]);
      } else if j >= start && (j - start) in inner {
        assert false;
      }
    }
  }

  lemma FromTheEnd(h: seq<Event>, start: nat, r: seq<Event>, inner: seq<nat>)
    requires start <= |h| && Places(inner, |h| - start) && |r| == |inner|
    requires forall i :: 0 <= i < |inner| ==> r[i] == h[start..][inner[i]]
    ensures IsAt(h, r, Shifted(inner, start))
  {}

  /** These are the elements at these places. */
  predicate IsAt(h: seq<Event>, r: seq<Event>, at: seq<nat>) {
    |r| == |at| && forall i :: 0 <= i < |at| ==> at[i] < |h| && r[i] == h[at[i]]
  }

  lemma SelectedWithin(kept: seq<Event>, f: Filter) returns (inner: seq<nat>)
    ensures FilteredAt(kept, Passes(f), Selected(kept, f), inner)
  {
    FilterTwice(kept, OfKinds(f.kinds), Since(f.sinceMs), Passes(f));
    inner := FilterPlaces(kept, Passes(f));
  }

  lemma PlacesFromTheEnd(requested: Option<Num>, f: Filter, h: seq<Event>, kept: seq<Event>, r: seq<Event>,
    inner: seq<nat>)
    requires |kept| <= |h| && kept == h[|h| - |kept|..]
    requires forall j: nat :: HeldAt(requested, h, j) <==> |h| - |kept| <= j < |h|
    requires FilteredAt(kept, Passes(f), r, inner)
    ensures AllQualifying(requested, f, h, Shifted(inner, |h| - |kept|))
    ensures IsAt(h, r, Shifted(inner, |h| - |kept|))
  {
    ShiftedIsQualifying(requested, f, h, |kept|, inner);
    FromTheEnd(h, |h| - |kept|, r, inner);
  }

  lemma SelectedAmong(requested: Option<Num>, f: Filter, h: seq<Event>, kept: seq<Event>) returns (at: seq<nat>)
    requires |kept| <= |h| && kept == h[|h| - |kept|..]
    requires forall j: nat :: HeldAt(requested, h, j) <==> |h| - |kept| <= j < |h|
    ensures AllQualifying(requested, f, h, at) && IsAt(h, Selected(kept, f), at)
  {
    var r := Selected(kept, f);
    var inner := SelectedWithin(kept, f);
    PlacesFromTheEnd(requested, f, h, kept, r, inner);
    at := Shifted(inner, |h| - |kept|);
  }

  lemma SelectedPlaces(requested: Option<Num>, f: Filter, h: seq<Event>) returns (at: seq<nat>)
    ensures AllQualifying(requested, f, h, at) && IsAt(h, Selected(Kept(h, EffectiveSize(requested)), f), at)
  {
    KeptIsHeld(requested, h);
    at := SelectedAmong(requested, f, h, Kept(h, EffectiveSize(requested)));
  }

  // ---------------------------------------------------------------- the limit

  lemma LaterIs(requested: Option<Num>, f: Filter, h: seq<Event>, at: seq<nat>, m: nat)
    requires AllQualifying(requested, f, h, at) && m < |at|
    ensures Later(requested, f, h, at[m]) == |at| - 1 - m
  {
    var rest := at[m + 1..];
    CountOfPlaces(rest, |h|);
    forall i: nat ensures i in rest <==> at[m] < i < |h| && Qualifies(requested, f, h, i) {
      if i in rest {
        var k :| 0 <= k < |rest| && rest[k] == i;
        assert at[m + 1 + k] == i && i in at;
      }
      if at[m] < i < |h| && Qualifies(requested, f, h, i) {
        assert i in at;
        var k :| 0 <= k < |at| && at[k] == i;
        assert k > m;
        assert rest[k - m - 1] == i;
      }
    }
    assert (set i: nat | at[m] < i < |h| && Qualifies(requested, f, h, i)) == Members(rest);
  }

  lemma {:induction false} FewQualify(requested: Option<Num>, f: Filter, h: seq<Event>, at: seq<nat>)
    requires AllQualifying(requested, f, h, at)
    ensures Holds(requested, |at|)
  {
    if at != [] {
      PlacesSpread(at, |h|, 0);
      assert at[0] in at && HeldAt(requested, h, at[0]);
      HoldsFewer(requested, |h| - at[0], |at|);
    }
  }

  lemma HoldsFewer(requested: Option<Num>, n: nat, m: nat)
    requires Holds(requested, n) && m <= n
    ensures Holds(requested, m)
  {}

  lemma {:induction false} PlacesSpread(at: seq<nat>, n: nat, i: nat)
    requires Places(at, n) && i < |at|
    ensures at[i] + (|at| - i) <= n
    decreases |at| - i
  {
    if i + 1 < |at| {
      PlacesSpread(at, n, i + 1);
    }
  }

  /** The cap never bites where the limit does not: no more qualify than are held. */
  lemma CapAllows(requested: Option<Num>, limit: Option<Num>, count: nat, later: nat)
    requires Holds(requested, count) && later < count
    ensures
      var cap := Cap(limit, EffectiveSize(requested));
      Allows(limit, later) <==> cap.None? || later < cap.value
  {}

  /** Giving up the first ones of all that qualify. */
  lemma LastOfAll(requested: Option<Num>, f: Filter, h: seq<Event>, all: seq<nat>, cap: Option<nat>)
    requires AllQualifying(requested, f, h, all) && cap == Cap(f.limit, EffectiveSize(requested))
    ensures
      var at := if cap.None? then all else LastN(all, cap.value);
      && Places(at, |h|)
      && forall j: nat :: j in at <==> Qualifies(requested, f, h, j) && Allows(f.limit, Later(requested, f, h, j))
  {
    var at := if cap.None? then all else LastN(all, cap.value);
    FewQualify(requested, f, h, all);
    forall j: nat ensures j in at <==> Qualifies(requested, f, h, j) && Allows(f.limit, Later(requested, f, h, j)) {
      if j in all {
        var m :| 0 <= m < |all| && all[m] == j;
        LaterIs(requested, f, h, all, m);
        CapAllows(requested, f.limit, |all|, |all| - 1 - m);
        InLast(all, |h|, cap, m);
      } else {
        NotInLast(all, cap, j);
      }
    }
  }

  lemma InLast(all: seq<nat>, n: nat, cap: Option<nat>, m: nat)
    requires Places(all, n) && m < |all|
    ensures all[m] in (if cap.None? then all else LastN(all, cap.value)) <==> cap.None? || |all| - 1 - m < cap.value
  {
    if cap.Some? && |all| > cap.value {
      var at := LastN(all, cap.value);
      var skipped := |all| - cap.value;
      assert at == all[skipped..];
      if m >= skipped {
        assert at[m - skipped] == all[m];
      } else {
        forall i | 0 <= i < |at| ensures at[i] != all[m] {
          assert at[i] == all[skipped + i];
        }
      }
    }
  }

  lemma NotInLast(all: seq<nat>, cap: Option<nat>, j: nat)
    requires j !in all
    ensures j !in (if cap.None? then all else LastN(all, cap.value))
  {}

  /**
   * What is returned, for any history: in order, the events among the last ones held that have a wanted kind and
   * are late enough, except those that the limit gives up for as many later ones.
   */
  lemma RecentIs(requested: Option<Num>, f: Filter, h: seq<Event>) returns (at: seq<nat>)
    ensures
      var size := EffectiveSize(requested);
      IsRecent(requested, f, h, Tail(Selected(Kept(h, size), f), Cap(f.limit, size)), at)
  {
    var size := EffectiveSize(requested);
    var all := SelectedPlaces(requested, f, h);
    var cap := Cap(f.limit, size);
    at := if cap.None? then all else LastN(all, cap.value);
    LastOfAll(requested, f, h, all, cap);
    TailIsAt(h, Selected(Kept(h, size), f), all, cap);
  }

  lemma TailIsAt(h: seq<Event>, r: seq<Event>, all: seq<nat>, cap: Option<nat>)
    requires IsAt(h, r, all)
    ensures IsAt(h, Tail(r, cap), if cap.None? then all else LastN(all, cap.value))
  {}

  /** Over every run of a sink created with that buffer size. */
  lemma RecentOfRun(c: Setup, steps: seq<Step>, requested: Option<Num>, f: Filter) returns (at: seq<nat>)
    requires c.size == EffectiveSize(requested)
    ensures IsRecent(requested, f, Accepted(steps), Recent(Run(c, steps), c.size, f), at)
  {
    RecentAfterRun(c, steps, f);
    at := RecentIs(requested, f, Accepted(steps));
  }
}
