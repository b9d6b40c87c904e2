/**
 * The least-recently-used cache of parsed source maps (sourcemap/cache.ts).
 *
 * A `get` runs up to its `await` in one go (Begin) and, on a miss, from there to its end in
 * another (Finish); anything may happen in between.
 */
module MapCache {
  import opened Prelude
  import opened SourceMap

  type Value = Option<ParsedMap>

  datatype Entry = Entry(url: string, value: Value)

  /** How a fetch can end: rejected (or unparseable body), a bad status, or a JSON body. */
  datatype Outcome = Rejected | NotOk | Body(json: Json)

  function ValueOf(o: Outcome): Value {
    if o.Body? then ParseSourceMap(o.json) else None
  }

  // ---------------------------------------------------------------- an insertion-ordered map

  function Urls(es: seq<Entry>): (us: seq<string>)
    ensures |us| == |es|
    ensures forall i :: 0 <= i < |es| ==> us[i] == es[i].url
  {
    seq(|es|, i requires 0 <= i < |es| => es[i].url)
  }

  predicate Has(es: seq<Entry>, url: string) { exists i :: 0 <= i < |es| && es[i].url == url }

  function Lookup(es: seq<Entry>, url: string): Option<Value> {
    if es == [] then None
    else if es[0].url == url then Some(es[0].value)
    else Lookup(es[1..], url)
  }

  function Delete(es: seq<Entry>, url: string): seq<Entry> {
    if es == [] then []
    else (if es[0].url == url then [] else [es[0]]) + Delete(es[1..], url)
  }

  function Keep(capacity: int): nat { if capacity > 0 then capacity else 0 }

  /** What a touch leaves: the entry last, and at most `capacity` entries. */
  function Touched(es: seq<Entry>, url: string, value: Value, capacity: int): seq<Entry> {
    LastN(Delete(es, url) + [Entry(url, value)], Keep(capacity))
  }

  class Cache {
    const capacity: int
    var entries: seq<Entry>

    constructor (capacity: int)
      ensures entries == [] && this.capacity == capacity
    {
      this.capacity := capacity;
      entries := [];
    }

    /** The eviction loop ends for every capacity, negative ones included. */
    method Touch(url: string, value: Value)
      modifies this
      ensures entries == Touched(old(entries), url, value, capacity)
    {
      entries := Delete(entries, url);
      entries := entries + [Entry(url, value)];
      ghost var full := entries;
      assert entries == full[0..];
      while |entries| > capacity
        invariant exists k: nat :: k <= |full| && entries == full[k..] && (k > 0 ==> |entries| >= Keep(capacity))
        decreases |entries|
      {
        if |entries| == 0 {
          break;
        }
        ghost var k: nat :| k <= |full| && entries == full[k..];
        entries := entries[1..];
        assert entries == full[k + 1..];
      }
    }

    /** The part of `get` before its `await`: a hit is bumped and returned, a miss suspends. */
    method Begin(url: string) returns (hit: Option<Value>)
      modifies this
      ensures hit == Lookup(old(entries), url)
      ensures entries == if hit.Some? then Touched(old(entries), url, hit.value, capacity) else old(entries)
    {
      hit := Lookup(entries, url);
      if hit.Some? {
        Touch(url, hit.value);
      }
    }

    /** The part of `get` after its `await`. */
    method Finish(url: string, outcome: Outcome) returns (value: Value)
      modifies this
      ensures value == ValueOf(outcome)
      ensures entries == Touched(old(entries), url, value, capacity)
    {
      value := None;
      if outcome.Body? {
        value := ParseSourceMap(outcome.json);
      }
      Touch(url, value);
    }

    method Clear()
      modifies this
      ensures entries == []
    {
      entries := [];
    }
  }

  // ---------------------------------------------------------------- runs

  datatype Step = Get(url: string) | Arrive(url: string, outcome: Outcome) | Clear

  /**
   * The cache together with what happened to it: the misses still suspended, the urls touched
   * since the last clear, and every fetch that has completed.
   */
  datatype World = World(entries: seq<Entry>, waiting: multiset<string>, touches: seq<string>, arrivals: seq<Entry>)

  const EMPTY: World := World([], multiset{}, [], [])

  /** A fetch can only complete for a suspended miss. */
  predicate Enabled(w: World, s: Step) { s.Arrive? ==> s.url in w.waiting }

  function Next(w: World, s: Step, capacity: int): World {
    match s
    case Get(url) =>
      var hit := Lookup(w.entries, url);
      if hit.Some? then
        w.(entries := Touched(w.entries, url, hit.value, capacity), touches := w.touches + [url])
      else w.(waiting := w.waiting + multiset{url})
    case Arrive(url, outcome) =>
      World(Touched(w.entries, url, ValueOf(outcome), capacity), w.waiting - multiset{url},
            w.touches + [url], w.arrivals + [Entry(url, ValueOf(outcome))])
    case Clear => w.(entries := [], touches := [])
  }

  /** The world after a run of steps. */
  function Run(steps: seq<Step>, capacity: int): World {
    if steps == [] then EMPTY
    else Next(Run(steps[..|steps| - 1], capacity), steps[|steps| - 1], capacity)
  }

  /** Every fetch completed in the run was waiting. */
  predicate Possible(steps: seq<Step>, capacity: int) {
    steps == []
    || (Possible(steps[..|steps| - 1], capacity)
        && Enabled(Run(steps[..|steps| - 1], capacity), steps[|steps| - 1]))
  }

  // ---------------------------------------------------------------- what the cache must hold

  function Without(us: seq<string>, url: string): seq<string> {
    if us == [] then [] else (if us[0] == url then [] else [us[0]]) + Without(us[1..], url)
  }

  /** The distinct urls touched, in the order of their last touch. */
  function ByLastTouch(touches: seq<string>): seq<string> {
    if touches == [] then []
    else
      var last := touches[|touches| - 1];
      Without(ByLastTouch(touches[..|touches| - 1]), last) + [last]
  }

  /** The value of the last completed fetch of `url`. */
  function LastArrival(arrivals: seq<Entry>, url: string): Option<Value> {
    if arrivals == [] then None
    else if arrivals[|arrivals| - 1].url == url then Some(arrivals[|arrivals| - 1].value)
    else LastArrival(arrivals[..|arrivals| - 1], url)
  }

  /** The cache is exactly the `capacity` urls touched last, each with what was last fetched for it. */
  ghost predicate IsLru(w: World, capacity: int) {
    && Urls(w.entries) == LastN(ByLastTouch(w.touches), Keep(capacity))
    && forall i :: 0 <= i < |w.entries| ==> LastArrival(w.arrivals, w.entries[i].url) == Some(w.entries[i].value)
  }

  // ---------------------------------------------------------------- proof

  lemma {:induction false} WithoutMembers(us: seq<string>, url: string)
    ensures forall u :: u in Without(us, url) <==> u in us && u != url
    ensures url !in us ==> Without(us, url) == us
    ensures Distinct(us) ==> Distinct(Without(us, url)) && |Without(us, url)| >= |us| - 1
  {
    if us != [] {
      var rest := us[1..];
      assert us == [us[0]] + rest;
      WithoutMembers(rest, url);
      if Distinct(us) {
        forall i, j | 0 <= i < j < |rest|
          ensures rest[i] != rest[j]
        {
          assert us[i + 1] != us[j + 1];
        }
        assert us[0] !in rest;
      }
    }
  }

  lemma {:induction false} WithoutAppend(a: seq<string>, b: seq<string>, url: string)
    ensures Without(a + b, url) == Without(a, url) + Without(b, url)
  {
    if a == [] {
      assert a + b == b;
    } else {
      assert (a + b)[1..] == a[1..] + b;
      WithoutAppend(a[1..], b, url);
    }
  }

  lemma DistinctParts(a: seq<string>, b: seq<string>)
    requires Distinct(a + b)
    ensures Distinct(a) && Distinct(b)
  {
    forall i, j | 0 <= i < j < |a| ensures a[i] != a[j] {
      assert (a + b)[i] != (a + b)[j];
    }
    forall i, j | 0 <= i < j < |b| ensures b[i] != b[j] {
      assert (a + b)[|a| + i] != (a + b)[|a| + j];
    }
  }

  lemma LastNOfAppend(a: seq<string>, b: seq<string>, n: nat)
    requires |b| >= n
    ensures LastN(a + b, n) == LastN(b, n)
  {
    assert (a + b)[|a + b| - n..] == b[|b| - n..];
    assert a == [] ==> a + b == b;
  }

  /** Evicting before a touch does not change what is kept after it. */
  lemma KeepThenTouch(us: seq<string>, url: string, c: nat)
    requires Distinct(us)
    ensures LastN(Without(LastN(us, c), url) + [url], c) == LastN(Without(us, url) + [url], c)
  {
    if |us| > c {
      var a, b := us[..|us| - c], us[|us| - c..];
      assert us == a + b;
      DistinctParts(a, b);
      WithoutAppend(a, b, url);
      WithoutMembers(b, url);
      var kept := Without(b, url) + [url];
      assert Without(us, url) + [url] == Without(a, url) + kept;
      LastNOfAppend(Without(a, url), kept, c);
    }
  }

  lemma {:induction false} ByLastTouchDistinct(touches: seq<string>)
    ensures Distinct(ByLastTouch(touches))
    ensures forall u :: u in ByLastTouch(touches) <==> u in touches
  {
    if touches != [] {
      var front, last := touches[..|touches| - 1], touches[|touches| - 1];
      assert touches == front + [last];
      ByLastTouchDistinct(front);
      WithoutMembers(ByLastTouch(front), last);
    }
  }

  /** The position of the last touch of a url. */
  function LastIndex(touches: seq<string>, url: string): (i: nat)
    requires url in touches
    ensures i < |touches| && touches[i] == url && url !in touches[i + 1..]
  {
    if touches[|touches| - 1] == url then |touches| - 1
    else LastIndex(touches[..|touches| - 1], url)
  }

  lemma {:induction false} WithoutKeepsOrder(us: seq<string>, url: string, i: nat, j: nat) returns (i': nat, j': nat)
    requires i < j < |Without(us, url)|
    ensures i' < j' < |us| && us[i'] == Without(us, url)[i] && us[j'] == Without(us, url)[j]
  {
    var rest := us[1..];
    if us[0] == url {
      i', j' := WithoutKeepsOrder(rest, url, i, j);
      i', j' := i' + 1, j' + 1;
    } else if i > 0 {
      i', j' := WithoutKeepsOrder(rest, url, i - 1, j - 1);
      i', j' := i' + 1, j' + 1;
    } else {
      WithoutMembers(rest, url);
      var u := Without(rest, url)[j - 1];
      assert u in rest;
      var k :| 0 <= k < |rest| && rest[k] == u;
      i', j' := 0, k + 1;
    }
  }

  /** `ByLastTouch` orders the urls by the position of their last touch. */
  lemma {:induction false} ByLastTouchOrder(touches: seq<string>, i: nat, j: nat)
    requires i < j < |ByLastTouch(touches)|
    ensures ByLastTouch(touches)[i] in touches && ByLastTouch(touches)[j] in touches
    ensures LastIndex(touches, ByLastTouch(touches)[i]) < LastIndex(touches, ByLastTouch(touches)[j])
  {
    ByLastTouchDistinct(touches);
    var front, last := touches[..|touches| - 1], touches[|touches| - 1];
    var order := ByLastTouch(front);
    WithoutMembers(order, last);
    var u, v := ByLastTouch(touches)[i], ByLastTouch(touches)[j];
    assert u == Without(order, last)[i];
    assert u in Without(order, last);
    ByLastTouchDistinct(front);
    if j < |Without(order, last)| {
      assert v in Without(order, last);
      var i', j' := WithoutKeepsOrder(order, last, i, j);
      ByLastTouchOrder(front, i', j');
    }
  }

  lemma UrlsOfConcat(a: seq<Entry>, b: seq<Entry>)
    ensures Urls(a + b) == Urls(a) + Urls(b)
  {}

  lemma {:induction false} DeleteUrls(es: seq<Entry>, url: string)
    ensures Urls(Delete(es, url)) == Without(Urls(es), url)
  {
    if es != [] {
      DeleteUrls(es[1..], url);
      UrlsOfConcat(if es[0].url == url then [] else [es[0]], Delete(es[1..], url));
      assert Urls(es)[1..] == Urls(es[1..]);
    }
  }

  lemma {:induction false} DeleteKeepsOthers(es: seq<Entry>, url: string)
    ensures forall e :: e in Delete(es, url) ==> e in es && e.url != url
  {
    if es != [] {
      DeleteKeepsOthers(es[1..], url);
    }
  }

  lemma TouchedUrls(es: seq<Entry>, url: string, value: Value, capacity: int)
    ensures Urls(Touched(es, url, value, capacity)) == LastN(Without(Urls(es), url) + [url], Keep(capacity))
    ensures forall e :: e in Touched(es, url, value, capacity) ==> e == Entry(url, value) || (e in es && e.url != url)
  {
    DeleteUrls(es, url);
    DeleteKeepsOthers(es, url);
    var full := Delete(es, url) + [Entry(url, value)];
    assert Urls(full) == Without(Urls(es), url) + [url];
    UrlsOfLastN(full, Keep(capacity));
  }

  lemma UrlsOfLastN(es: seq<Entry>, c: nat)
    ensures Urls(LastN(es, c)) == LastN(Urls(es), c)
    ensures forall e :: e in LastN(es, c) ==> e in es
  {}

  lemma {:induction false} LookupFound(es: seq<Entry>, url: string)
    ensures Lookup(es, url).Some? ==> Entry(url, Lookup(es, url).value) in es
    ensures Lookup(es, url).Some? <==> url in Urls(es)
  {
    if es != [] {
      LookupFound(es[1..], url);
      assert Urls(es) == [es[0].url] + Urls(es[1..]);
    }
  }

  lemma TouchKeepsUrls(w: World, url: string, value: Value, capacity: int)
    requires Urls(w.entries) == LastN(ByLastTouch(w.touches), Keep(capacity))
    ensures Urls(Touched(w.entries, url, value, capacity)) == LastN(ByLastTouch(w.touches + [url]), Keep(capacity))
  {
    ByLastTouchDistinct(w.touches);
    TouchedUrls(w.entries, url, value, capacity);
    KeepThenTouch(ByLastTouch(w.touches), url, Keep(capacity));
    assert (w.touches + [url])[..|w.touches|] == w.touches;
  }

  lemma HitKeepsLru(w: World, url: string, capacity: int)
    requires IsLru(w, capacity) && Lookup(w.entries, url).Some?
    ensures IsLru(Next(w, Get(url), capacity), capacity)
  {
    var value := Lookup(w.entries, url).value;
    var after := Touched(w.entries, url, value, capacity);
    LookupFound(w.entries, url);
    TouchKeepsUrls(w, url, value, capacity);
    TouchedUrls(w.entries, url, value, capacity);
    forall i | 0 <= i < |after|
      ensures LastArrival(w.arrivals, after[i].url) == Some(after[i].value)
    {
      assert after[i] in after && after[i] in w.entries;
    }
  }

  lemma ArrivalKeepsLru(w: World, url: string, outcome: Outcome, capacity: int)
    requires IsLru(w, capacity)
    ensures IsLru(Next(w, Arrive(url, outcome), capacity), capacity)
  {
    var value := ValueOf(outcome);
    var after := Touched(w.entries, url, value, capacity);
    var arrivals := w.arrivals + [Entry(url, value)];
    TouchKeepsUrls(w, url, value, capacity);
    TouchedUrls(w.entries, url, value, capacity);
    assert arrivals[..|w.arrivals|] == w.arrivals;
    forall i | 0 <= i < |after|
      ensures LastArrival(arrivals, after[i].url) == Some(after[i].value)
    {
      assert after[i] in after;
    }
  }

  /** One step of any kind keeps the cache exactly the most recently touched urls. */
  lemma StepKeepsLru(w: World, s: Step, capacity: int)
    requires IsLru(w, capacity) && Enabled(w, s)
    ensures IsLru(Next(w, s, capacity), capacity)
  {
    match s {
      case Get(url) =>
        if Lookup(w.entries, url).Some? {
          HitKeepsLru(w, url, capacity);
        }
      case Arrive(url, outcome) =>
        ArrivalKeepsLru(w, url, outcome, capacity);
      case Clear =>
    }
  }

  /** Over every interleaving of hits, suspended misses, completions and clears. */
  lemma {:induction false} CacheIsLru(steps: seq<Step>, capacity: int)
    requires Possible(steps, capacity)
    ensures IsLru(Run(steps, capacity), capacity)
    ensures |Run(steps, capacity).entries| <= Keep(capacity)
  {
    if steps != [] {
      CacheIsLru(steps[..|steps| - 1], capacity);
      StepKeepsLru(Run(steps[..|steps| - 1], capacity), steps[|steps| - 1], capacity);
    }
  }

  /** A hit returns what the last completed fetch of that very url returned; a
   * miss means the url was evicted or never touched. */
  lemma HitIsLastFetch(steps: seq<Step>, capacity: int, url: string)
    requires Possible(steps, capacity)
    ensures
      var w := Run(steps, capacity);
      var hit := Lookup(w.entries, url);
      && (hit.Some? ==> hit == LastArrival(w.arrivals, url))
      && (hit.Some? <==> url in LastN(ByLastTouch(w.touches), Keep(capacity)))
  {
    var w := Run(steps, capacity);
    CacheIsLru(steps, capacity);
    LookupFound(w.entries, url);
  }

  /** The step at `k` completed the last fetch of the url. */
  predicate LastFetch(steps: seq<Step>, url: string, k: nat) {
    && k < |steps| && steps[k].Arrive? && steps[k].url == url
    && forall j :: k < j < |steps| ==> !(steps[j].Arrive? && steps[j].url == url)
  }

  /** What a completed fetch gives: the map its body parses to, and nothing when it failed or does not parse. */
  ghost predicate Gives(o: Outcome, value: Value) {
    forall m :: value == Some(m) <==> exists json :: o == Body(json) && ParseSourceMap(json) == Some(m)
  }

  lemma ValueIsGiven(o: Outcome)
    ensures Gives(o, ValueOf(o))
  {}

  lemma ArrivalsNext(w: World, s: Step, capacity: int, url: string)
    ensures LastArrival(Next(w, s, capacity).arrivals, url)
         == if s.Arrive? && s.url == url then Some(ValueOf(s.outcome)) else LastArrival(w.arrivals, url)
  {}

  lemma StillLastFetch(front: seq<Step>, last: Step, url: string, k: nat)
    requires LastFetch(front, url, k) && !(last.Arrive? && last.url == url)
    ensures LastFetch(front + [last], url, k)
  {}

  lemma {:induction false} ArrivalIsFetch(steps: seq<Step>, capacity: int, url: string) returns (k: nat)
    requires LastArrival(Run(steps, capacity).arrivals, url).Some?
    ensures LastFetch(steps, url, k)
    ensures Gives(steps[k].outcome, LastArrival(Run(steps, capacity).arrivals, url).value)
  {
    var front, last := steps[..|steps| - 1], steps[|steps| - 1];
    ArrivalsNext(Run(front, capacity), last, capacity, url);
    assert steps == front + [last];
    if last.Arrive? && last.url == url {
      k := |front|;
      ValueIsGiven(last.outcome);
    } else {
      k := ArrivalIsFetch(front, capacity, url);
      StillLastFetch(front, last, url, k);
    }
  }

  /** A hit during a run is the map that the body of the last completed fetch
   * of the url parsed to, or a failure kept. */
  lemma HitIsParsed(steps: seq<Step>, capacity: int, url: string) returns (k: nat)
    requires Possible(steps, capacity) && Lookup(Run(steps, capacity).entries, url).Some?
    ensures LastFetch(steps, url, k)
    ensures Gives(steps[k].outcome, Lookup(Run(steps, capacity).entries, url).value)
  {
    HitIsLastFetch(steps, capacity, url);
    k := ArrivalIsFetch(steps, capacity, url);
  }

  // ---------------------------------------------------------------- who is still held

  /** Fewer than `capacity` other urls were touched after the last touch of this one. */
  ghost predicate Fresh(touches: seq<string>, url: string, capacity: int) {
    exists k: nat :: LastTouch(touches, url, k) && |UrlsAfter(touches, k)| < capacity
  }

  predicate LastTouch(touches: seq<string>, url: string, k: nat) {
    k < |touches| && touches[k] == url && url !in touches[k + 1..]
  }

  function UrlsAfter(touches: seq<string>, k: nat): set<string>
    requires k < |touches|
  {
    var later := touches[k + 1..];
    set u | u in later
  }

  lemma NoLater(touches: seq<string>, url: string, k: nat)
    requires k < |touches| && url !in touches[k + 1..]
    ensures forall j :: k < j < |touches| ==> touches[j] != url
  {
    forall j | k < j < |touches| ensures touches[j] != url {
      assert touches[k + 1..][j - k - 1] == touches[j];
    }
  }

  lemma LastTouchIs(touches: seq<string>, url: string, k: nat)
    requires LastTouch(touches, url, k)
    ensures url in touches && LastIndex(touches, url) == k
  {
    NoLater(touches, url, k);
    NoLater(touches, url, LastIndex(touches, url));
  }

  lemma AfterIff(touches: seq<string>, url: string, u: string)
    requires url in touches
    ensures u in UrlsAfter(touches, LastIndex(touches, url))
       <==> u in touches && LastIndex(touches, u) > LastIndex(touches, url)
  {
    var k := LastIndex(touches, url);
    if u in touches[k + 1..] {
      var i :| 0 <= i < |touches[k + 1..]| && touches[k + 1..][i] == u;
      assert touches[k + 1 + i] == u;
      NoLater(touches, u, LastIndex(touches, u));
    }
    if u in touches && LastIndex(touches, u) > k {
      assert touches[k + 1..][LastIndex(touches, u) - k - 1] == u;
    }
  }

  lemma {:induction false} DistinctSize(us: seq<string>)
    requires Distinct(us)
    ensures |set u | u in us| == |us|
  {
    if us != [] {
      var front, last := us[..|us| - 1], us[|us| - 1];
      DistinctSize(front);
      assert last !in front;
      assert (set u | u in us) == (set u | u in front) + {last};
    } else {
      assert (set u | u in us) == {};
    }
  }

  /** The urls touched after the one at place `p` of the order are those behind it. */
  lemma BehindIs(touches: seq<string>, p: nat)
    requires p < |ByLastTouch(touches)|
    ensures ByLastTouch(touches)[p] in touches
    ensures |UrlsAfter(touches, LastIndex(touches, ByLastTouch(touches)[p]))| == |ByLastTouch(touches)| - 1 - p
  {
    var order := ByLastTouch(touches);
    ByLastTouchDistinct(touches);
    var url, behind := order[p], order[p + 1..];
    assert url in order;
    assert forall u :: u in behind ==> u in order;
    forall u ensures u in behind <==> u in UrlsAfter(touches, LastIndex(touches, url)) {
      AfterIff(touches, url, u);
      if u in touches {
        assert u in order;
        var q :| 0 <= q < |order| && order[q] == u;
        if p < q {
          ByLastTouchOrder(touches, p, q);
          assert behind[q - p - 1] == u;
        } else if q < p {
          ByLastTouchOrder(touches, q, p);
        }
        NotBehind(order, p, q);
      }
    }
    assert UrlsAfter(touches, LastIndex(touches, url)) == set u | u in behind;
    assert Distinct(behind) by {
      forall i, j | 0 <= i < j < |behind| ensures behind[i] != behind[j] {
        assert order[p + 1 + i] != order[p + 1 + j];
      }
    }
    DistinctSize(behind);
  }

  lemma NotBehind(order: seq<string>, p: nat, q: nat)
    requires Distinct(order) && p < |order| && q < |order|
    ensures order[q] in order[p + 1..] <==> p < q
  {
    if order[q] in order[p + 1..] {
      var i :| 0 <= i < |order[p + 1..]| && order[p + 1..][i] == order[q];
      assert order[p + 1 + i] == order[q];
    }
    if p < q {
      assert order[p + 1..][q - p - 1] == order[q];
    }
  }

  /** The last ones of an order of distinct urls. */
  lemma AmongLast(order: seq<string>, p: nat, n: nat)
    requires Distinct(order) && p < |order|
    ensures order[p] in LastN(order, n) <==> |order| - 1 - p < n
  {
    if |order| > n && n > 0 {
      NotBehind(order, |order| - n - 1, p);
    }
  }

  /** During a run a url is held exactly while fewer than `capacity` others
   * were touched after it, since the last clear. */
  lemma HitIffFresh(steps: seq<Step>, capacity: int, url: string)
    requires Possible(steps, capacity)
    ensures Lookup(Run(steps, capacity).entries, url).Some? <==> Fresh(Run(steps, capacity).touches, url, capacity)
  {
    HitIsLastFetch(steps, capacity, url);
    var touches := Run(steps, capacity).touches;
    ByLastTouchDistinct(touches);
    var order := ByLastTouch(touches);
    if url in order {
      var p :| 0 <= p < |order| && order[p] == url;
      BehindIs(touches, p);
      AmongLast(order, p, Keep(capacity));
      assert LastTouch(touches, url, LastIndex(touches, url));
    }
    if k: nat :| LastTouch(touches, url, k) && |UrlsAfter(touches, k)| < capacity {
      LastTouchIs(touches, url, k);
    }
  }
}
