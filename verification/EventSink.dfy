/** The batch accumulator (sw_event_sink/batch_accumulator.ts). */
module Batches {
  import opened Prelude

  /** What the accumulator holds, whether its timer is armed, and the batches handed over so far. */
  datatype Acc<T> = Acc(pending: seq<T>, armed: bool, batches: seq<seq<T>>)

  datatype BadOption = BadMaxSize | BadMaxMs

  function Flushed<T>(a: Acc<T>): Acc<T> {
    if a.pending == [] then a.(armed := false) else Acc([], false, a.batches + [a.pending])
  }

  function Pushed<T>(a: Acc<T>, item: T, maxSize: real): Acc<T> {
    var full := a.(pending := a.pending + [item]);
    if |full.pending| as real >= maxSize then Flushed(full) else full.(armed := true)
  }

  function Discarded<T>(a: Acc<T>): Acc<T> { Acc([], false, a.batches) }

  class BatchAccumulator<T> {
    const maxSize: real
    var pending: seq<T>
    var armed: bool
    var batches: seq<seq<T>>

    function S(): Acc<T>
      reads this
    {
      Acc(pending, armed, batches)
    }

    constructor (maxSize: real)
      ensures S() == Acc([], false, []) && this.maxSize == maxSize
    {
      this.maxSize := maxSize;
      pending, armed, batches := [], false, [];
    }

    /** `createBatchAccumulator`: sizes and delays must be finite and positive; the size is checked first. */
    static method Create(maxSize: Num, maxMs: Num) returns (r: Result<BatchAccumulator<T>, BadOption>)
      ensures r.Err? && r.error == BadMaxSize <==> !(maxSize.Fin? && maxSize.r > 0.0)
      ensures r.Err? && r.error == BadMaxMs <==> maxSize.Fin? && maxSize.r > 0.0 && !(maxMs.Fin? && maxMs.r > 0.0)
      ensures r.Ok? ==> fresh(r.value) && r.value.maxSize == maxSize.r && r.value.S() == Acc([], false, [])
    {
      if !maxSize.Fin? || maxSize.r <= 0.0 {
        return Err(BadMaxSize);
      }
      if !maxMs.Fin? || maxMs.r <= 0.0 {
        return Err(BadMaxMs);
      }
      var acc := new BatchAccumulator(maxSize.r);
      return Ok(acc);
    }

    method ClearTimer()
      modifies this
      ensures S() == old(S()).(armed := false)
    {
      if armed {
        armed := false;
      }
    }

    method FlushNow()
      modifies this
      ensures S() == Flushed(old(S()))
    {
      ClearTimer();
      if |pending| == 0 {
        return;
      }
      var snapshot := pending;
      pending := [];
      batches := batches + [snapshot];
    }

    method Push(item: T)
      modifies this
      ensures S() == Pushed(old(S()), item, maxSize)
    {
      pending := pending + [item];
      if |pending| as real >= maxSize {
        FlushNow();
        return;
      }
      if !armed {
        armed := true;
      }
    }

    method Dispose()
      modifies this
      ensures S() == Discarded(old(S()))
    {
      ClearTimer();
      pending := [];
    }
  }

  /** Between calls: fewer than `maxSize` pending, a timer exactly when
   * something is, and no batch empty or oversized. */
  ghost predicate Settled<T>(a: Acc<T>, maxSize: real) {
    && |a.pending| as real < maxSize
    && (a.armed <==> a.pending != [])
    && forall i :: 0 <= i < |a.batches| ==> |a.batches[i]| > 0 && |a.batches[i]| as real < maxSize + 1.0
  }

  /** Everything handed over and everything still held, in order. */
  ghost function Content<T>(a: Acc<T>): seq<T> { Flatten(a.batches) + a.pending }

  lemma FlushKeeps<T>(a: Acc<T>, maxSize: real)
    requires maxSize > 0.0 && |a.pending| as real < maxSize + 1.0
    requires forall i :: 0 <= i < |a.batches| ==> |a.batches[i]| > 0 && |a.batches[i]| as real < maxSize + 1.0
    ensures Settled(Flushed(a), maxSize) && Content(Flushed(a)) == Content(a) && Flushed(a).pending == []
  {
    FlattenAppend(a.batches, [a.pending]);
    assert Flatten([a.pending]) == a.pending;
  }

  /** Nothing is lost, duplicated or reordered by a push, and a batch leaves exactly when the size is reached. */
  lemma PushKeeps<T>(a: Acc<T>, item: T, maxSize: real)
    requires maxSize > 0.0 && Settled(a, maxSize)
    ensures Pushed(a, item, maxSize).batches != a.batches <==> (|a.pending| + 1) as real >= maxSize
    ensures Settled(Pushed(a, item, maxSize), maxSize)
    ensures Content(Pushed(a, item, maxSize)) == Content(a) + [item]
  {
    var full := a.(pending := a.pending + [item]);
    assert Content(full) == Content(a) + [item];
    if |full.pending| as real >= maxSize {
      FlushKeeps(full, maxSize);
    }
  }
}

/** The event sink (sw_event_sink/sw_event_sink.ts): a ring buffer, counters, and forwarding in batches. */
module EventSinks {
  import opened Prelude
  import opened Batches

  datatype Event = Event(kind: string, ts: real, body: Json)

  /** The buffer size in force; infinity is accepted and means no bound. */
  datatype Size = Bounded(n: nat) | Unbounded

  const DEFAULT_SIZE: nat := 200
  const DEFAULT_LIMIT: real := 50.0

  function EffectiveSize(requested: Option<Num>): Size {
    match requested
    case Some(Fin(r)) => Bounded(if r > 0.0 then r.Floor else DEFAULT_SIZE)
    case Some(PosInf) => Unbounded
    case _ => Bounded(DEFAULT_SIZE)
  }

  predicate Below(k: nat, size: Size) { size.Unbounded? || k < size.n }

  /**
   * `writeIndex` None is NaN: what remains modulo 0. `forward` and `logged`, the calls of the logger,
   * are None when the sink was given nothing to forward to or to log with.
   */
  datatype State = State(buffer: seq<Event>, writeIndex: Option<nat>, perKind: map<string, nat>, total: nat,
                         forward: Option<Acc<Event>>, logged: Option<seq<Event>>)

  datatype Filter = Filter(kinds: Option<seq<string>>, sinceMs: Option<Num>, limit: Option<Num>)

  // ---------------------------------------------------------------- the operations on values

  function Written(buffer: seq<Event>, at: Option<nat>, e: Event): seq<Event> {
    match at
    case Some(i) => if i < |buffer| then buffer[i := e] else if i == |buffer| then buffer + [e] else buffer
    case None => buffer
  }

  function Stored(buffer: seq<Event>, at: Option<nat>, size: Size, e: Event): seq<Event> {
    if Below(|buffer|, size) then buffer + [e] else Written(buffer, at, e)
  }

  function Advanced(at: Option<nat>, size: Size): Option<nat> {
    match at
    case None => None
    case Some(i) => if size.Unbounded? then Some(i + 1) else if size.n == 0 then None else Some((i + 1) % size.n)
  }

  function CountOf(perKind: map<string, nat>, kind: string): nat { if kind in perKind then perKind[kind] else 0 }

  function Handled(s: State, size: Size, maxSize: real, e: Event, record: bool): State {
    if !record then s
    else
      State(Stored(s.buffer, s.writeIndex, size, e),
            Advanced(s.writeIndex, size),
            s.perKind[e.kind := CountOf(s.perKind, e.kind) + 1],
            s.total + 1,
            if s.forward.Some? then Some(Pushed(s.forward.value, e, maxSize)) else None,
            if s.logged.Some? then Some(s.logged.value + [e]) else None)
  }

  /** The buffer, oldest first. */
  function Ordered(s: State, size: Size): seq<Event> {
    if Below(|s.buffer|, size) then s.buffer
    else
      match s.writeIndex
      case Some(w) => if w <= |s.buffer| && |s.buffer| == size.n then s.buffer[w..] + s.buffer[..w] else []
      case None => []
  }

  function OfKinds(kinds: Option<seq<string>>): Event -> bool {
    (e: Event) => kinds.None? || kinds.value == [] || e.kind in kinds.value
  }

  predicate Exceeds(ts: real, n: Num) { n.NegInf? || (n.Fin? && ts > n.r) }

  function Since(sinceMs: Option<Num>): Event -> bool {
    (e: Event) => sinceMs.None? || Exceeds(e.ts, sinceMs.value)
  }

  /** How many events may be returned; None when nothing bounds them (a NaN
   * limit, or infinity over an unbounded buffer). */
  function Cap(limit: Option<Num>, size: Size): Option<nat> {
    match if limit.Some? then limit.value else Fin(DEFAULT_LIMIT)
    case NaN => None
    case NegInf => Some(0)
    case PosInf => if size.Unbounded? then None else Some(size.n)
    case Fin(r) =>
      var asked := r.Floor;
      var bounded := if size.Bounded? && size.n < asked then size.n else asked;
      Some(if bounded < 0 then 0 else bounded)
  }

  function Tail(s: seq<Event>, cap: Option<nat>): seq<Event> { if cap.None? then s else LastN(s, cap.value) }

  function Selected(s: seq<Event>, f: Filter): seq<Event> {
    Prelude.Filter(Prelude.Filter(s, OfKinds(f.kinds)), Since(f.sinceMs))
  }

  function Recent(s: State, size: Size, f: Filter): seq<Event> {
    Tail(Selected(Ordered(s, size), f), Cap(f.limit, size))
  }

  function Kept(h: seq<Event>, size: Size): seq<Event> { if size.Unbounded? then h else LastN(h, size.n) }

  /** The ring holds the end of the history, turned by `writeIndex`. */
  ghost predicate RingOf(buffer: seq<Event>, at: Option<nat>, size: Size, h: seq<Event>) {
    match size
    case Unbounded => buffer == h && at == Some(|h|)
    case Bounded(n) =>
      if n == 0 then if h == [] then buffer == [] && at == Some(0) else |buffer| == 1 && at == None
      else
        && at.Some? && at.value < n
        && (|h| < n ==> buffer == h && at.value == |h|)
        && (|h| >= n ==> |buffer| == n && buffer[at.value..] + buffer[..at.value] == LastN(h, n))
  }

  /** Writing over the oldest element turns the ring by one. */
  lemma RingTurn(b: seq<Event>, w: nat, last: seq<Event>, e: Event)
    requires w < |b| && b[w..] + b[..w] == last
    ensures
      var b', w' := b[w := e], if w + 1 == |b| then 0 else w + 1;
      b'[w'..] + b'[..w'] == last[1..] + [e]
  {
    var b' := b[w := e];
    assert last[1..] == b[w + 1..] + b[..w];
    if w + 1 == |b| {
      assert b'[0..] + b'[..0] == b[..w] + [e];
    } else {
      assert b'[w + 1..] + b'[..w + 1] == b[w + 1..] + b[..w] + [e];
    }
  }

  lemma NextIndex(w: nat, n: nat)
    requires w < n
    ensures Advanced(Some(w), Bounded(n)) == Some(if w + 1 == n then 0 else w + 1)
  {}

  /** The ring before it is full. */
  lemma RingFills(buffer: seq<Event>, at: Option<nat>, n: nat, h: seq<Event>, e: Event)
    requires n > |h| && RingOf(buffer, at, Bounded(n), h)
    ensures RingOf(Stored(buffer, at, Bounded(n), e), Advanced(at, Bounded(n)), Bounded(n), h + [e])
  {
    NextIndex(|h|, n);
    if |h| + 1 == n {
      assert LastN(h + [e], n) == h + [e];
      assert (h + [e])[0..] + (h + [e])[..0] == h + [e];
    }
  }

  /** The ring once it is full. */
  lemma RingTurns(buffer: seq<Event>, at: Option<nat>, n: nat, h: seq<Event>, e: Event)
    requires 0 < n <= |h| && RingOf(buffer, at, Bounded(n), h)
    ensures RingOf(Stored(buffer, at, Bounded(n), e), Advanced(at, Bounded(n)), Bounded(n), h + [e])
  {
    NextIndex(at.value, n);
    assert LastN(h + [e], n) == LastN(h, n)[1..] + [e];
    RingTurn(buffer, at.value, LastN(h, n), e);
  }

  lemma RingStep(buffer: seq<Event>, at: Option<nat>, size: Size, h: seq<Event>, e: Event)
    requires RingOf(buffer, at, size, h)
    ensures RingOf(Stored(buffer, at, size, e), Advanced(at, size), size, h + [e])
  {
    if size.Bounded? && size.n > |h| {
      RingFills(buffer, at, size.n, h, e);
    } else if size.Bounded? && size.n > 0 {
      RingTurns(buffer, at, size.n, h, e);
    }
  }

  /** What a caller gets is the end of the selected part of the end of the history. */
  lemma RecentIsHistory(s: State, size: Size, h: seq<Event>, f: Filter)
    requires RingOf(s.buffer, s.writeIndex, size, h)
    ensures Ordered(s, size) == Kept(h, size)
    ensures Recent(s, size, f) == Tail(Selected(Kept(h, size), f), Cap(f.limit, size))
  {}

  /** What is left of an event once it is stored and counted. */
  lemma HandledIs(s: State, size: Size, maxSize: real, e: Event, forward: Option<Acc<Event>>,
    logged: Option<seq<Event>>)
    requires forward == if s.forward.Some? then Some(Pushed(s.forward.value, e, maxSize)) else None
    requires logged == if s.logged.Some? then Some(s.logged.value + [e]) else None
    ensures Handled(s, size, maxSize, e, true)
         == State(Stored(s.buffer, s.writeIndex, size, e), Advanced(s.writeIndex, size),
                  s.perKind[e.kind := CountOf(s.perKind, e.kind) + 1], s.total + 1, forward, logged)
  {}

  class EventSink {
    const size: Size
    const forwardAcc: BatchAccumulator?<Event>
    const hasLogger: bool
    var logged: seq<Event>
    var buffer: seq<Event>
    var writeIndex: Option<nat>
    var perKind: map<string, nat>
    var totalReceived: nat
    ghost var history: seq<Event>

    ghost predicate Valid()
      reads this`buffer, this`writeIndex, this`history
    {
      RingOf(buffer, writeIndex, size, history)
    }

    function S(): State
      reads this, forwardAcc
    {
      State(buffer, writeIndex, perKind, totalReceived,
            if forwardAcc == null then None else Some(forwardAcc.S()), if hasLogger then Some(logged) else None)
    }

    function MaxSize(): real { if forwardAcc == null then 1.0 else forwardAcc.maxSize }

    constructor (bufferSize: Option<Num>, forwardAcc: BatchAccumulator?<Event>, hasLogger: bool)
      requires forwardAcc != null ==> forwardAcc.S() == Acc([], false, [])
      ensures Valid() && history == []
      ensures size == EffectiveSize(bufferSize) && this.forwardAcc == forwardAcc
      ensures S() == State([], Some(0), map[], 0, if forwardAcc == null then None else Some(Acc([], false, [])),
                           if hasLogger then Some([]) else None)
    {
      this.size := EffectiveSize(bufferSize);
      this.forwardAcc, this.hasLogger, logged := forwardAcc, hasLogger, [];
      buffer, writeIndex, perKind, totalReceived, history := [], Some(0), map[], 0, [];
    }

    /** `record` is what the capture gate says of this event. */
    method Handle(e: Event, record: bool)
      requires Valid()
      modifies this, forwardAcc
      ensures Valid() && history == if record then old(history) + [e] else old(history)
      ensures S() == Handled(old(S()), size, MaxSize(), e, record)
    {
      if !record {
        return;
      }
      ghost var s := S();
      Store(e);
      if hasLogger {
        logged := logged + [e];
      }
      if forwardAcc != null {
        forwardAcc.Push(e);
      }
      HandledIs(s, size, MaxSize(), e, S().forward, S().logged);
    }

    /** The counters and the ring. */
    method Store(e: Event)
      requires Valid()
      modifies this`buffer, this`writeIndex, this`perKind, this`totalReceived, this`history
      ensures Valid() && history == old(history) + [e]
      ensures buffer == Stored(old(buffer), old(writeIndex), size, e) && writeIndex == Advanced(old(writeIndex), size)
      ensures perKind == old(perKind)[e.kind := CountOf(old(perKind), e.kind) + 1]
      ensures totalReceived == old(totalReceived) + 1
    {
      RingStep(buffer, writeIndex, size, history, e);
      history := history + [e];
      perKind := perKind[e.kind := CountOf(perKind, e.kind) + 1];
      totalReceived := totalReceived + 1;
      if Below(|buffer|, size) {
        buffer := buffer + [e];
      } else {
        buffer := Written(buffer, writeIndex, e);
      }
      writeIndex := Advanced(writeIndex, size);
    }

    /** The copy `getRecent` starts from, oldest first. */
    method OrderedEvents() returns (ordered: seq<Event>)
      requires Valid()
      ensures ordered == Kept(history, size)
    {
      RecentIsHistory(S(), size, history, Filter(None, None, None));
      ordered := [];
      ghost var all := Ordered(S(), size);
      if Below(|buffer|, size) {
        for i := 0 to |buffer|
          invariant ordered == buffer[..i]
        {
          ordered := ordered + [buffer[i]];
        }
      } else {
        for i := 0 to size.n
          invariant ordered == all[..i]
        {
          OrderedAt(buffer, writeIndex.value, i);
          ordered := ordered + [buffer[(writeIndex.value + i) % size.n]];
        }
      }
    }

    method GetRecent(f: Filter) returns (events: seq<Event>)
      requires Valid()
      ensures events == Tail(Selected(Kept(history, size), f), Cap(f.limit, size))
    {
      var ordered := OrderedEvents();
      var selected := SelectEvents(ordered, f);
      var cap := Cap(f.limit, size);
      if cap.Some? && |selected| > cap.value {
        events := selected[|selected| - cap.value..];
      } else {
        events := selected;
      }
    }

    static method SelectEvents(ordered: seq<Event>, f: Filter) returns (selected: seq<Event>)
      ensures selected == Selected(ordered, f)
    {
      var afterKinds :=
        if f.kinds.Some? && |f.kinds.value| > 0 then Prelude.Filter(ordered, OfKinds(f.kinds)) else ordered;
      KindsSelected(ordered, f.kinds);
      selected := if f.sinceMs.None? then afterKinds else Prelude.Filter(afterKinds, Since(f.sinceMs));
      SinceSelected(afterKinds, f.sinceMs);
    }

    method FlushNow()
      requires Valid()
      modifies forwardAcc
      ensures Valid()
      ensures S() == old(S()).(forward := if forwardAcc == null then None else Some(Flushed(old(forwardAcc.S()))))
    {
      if forwardAcc != null {
        forwardAcc.FlushNow();
      }
    }

    method Dispose()
      requires Valid()
      modifies forwardAcc
      ensures Valid()
      ensures S() == old(S()).(forward := if forwardAcc == null then None else Some(Discarded(old(forwardAcc.S()))))
    {
      if forwardAcc != null {
        forwardAcc.Dispose();
      }
    }
  }

  lemma OrderedAt(b: seq<Event>, w: nat, i: nat)
    requires w < |b| && i < |b|
    ensures |b[w..] + b[..w]| == |b| && (b[w..] + b[..w])[i] == b[(w + i) % |b|]
  {
    Turned(w, i, |b|);
  }

  lemma Turned(w: nat, i: nat, n: nat)
    requires w < n && i < n
    ensures (w + i) % n == if w + i < n then w + i else w + i - n
  {
    if w + i >= n {
      assert (w + i - n + n) % n == (w + i - n) % n;
    }
  }

  lemma {:induction false} FilterAll<T>(s: seq<T>, keep: T -> bool)
    requires forall i :: 0 <= i < |s| ==> keep(s[i])
    ensures Prelude.Filter(s, keep) == s
  {
    if s != [] {
      FilterAll(s[1..], keep);
    }
  }

  /** No filter keeps everything. */
  lemma KindsSelected(s: seq<Event>, kinds: Option<seq<string>>)
    ensures Prelude.Filter(s, OfKinds(kinds))
      == if kinds.Some? && |kinds.value| > 0 then Prelude.Filter(s, OfKinds(kinds)) else s
  {
    if kinds.None? || kinds.value == [] {
      FilterAll(s, OfKinds(kinds));
    }
  }

  lemma SinceSelected(s: seq<Event>, sinceMs: Option<Num>)
    ensures Prelude.Filter(s, Since(sinceMs)) == if sinceMs.None? then s else Prelude.Filter(s, Since(sinceMs))
  {
    if sinceMs.None? {
      FilterAll(s, Since(sinceMs));
    }
  }

  // ---------------------------------------------------------------- runs

  /** A call of `handle` with the gate's verdict, a flush (asked for, or the timer's), or disposal. */
  datatype Step = Receive(e: Event, record: bool) | Flush | Dispose

  datatype Setup = Setup(size: Size, forwarding: bool, maxSize: real, logging: bool)

  function Next(c: Setup, s: State, step: Step): State {
    match step
    case Receive(e, record) => Handled(s, c.size, c.maxSize, e, record)
    case Flush => s.(forward := if s.forward.Some? then Some(Flushed(s.forward.value)) else None)
    case Dispose => s.(forward := if s.forward.Some? then Some(Discarded(s.forward.value)) else None)
  }

  function Run(c: Setup, steps: seq<Step>): State {
    if steps == [] then
      State([], Some(0), map[], 0,
        if c.forwarding then Some(Acc([], false, [])) else None, if c.logging then Some([]) else None)
    else Next(c, Run(c, steps[..|steps| - 1]), steps[|steps| - 1])
  }

  /** The accepted events of a run, in order of arrival. */
  function Accepted(steps: seq<Step>): seq<Event> {
    if steps == [] then []
    else
      var before, last := Accepted(steps[..|steps| - 1]), steps[|steps| - 1];
      if last.Receive? && last.record then before + [last.e] else before
  }

  function Occurrences(h: seq<Event>, kind: string): nat {
    if h == [] then 0 else Occurrences(h[..|h| - 1], kind) + if h[|h| - 1].kind == kind then 1 else 0
  }

  lemma {:induction false} RingAfterRun(c: Setup, steps: seq<Step>)
    ensures RingOf(Run(c, steps).buffer, Run(c, steps).writeIndex, c.size, Accepted(steps))
  {
    if steps != [] {
      var front, step := steps[..|steps| - 1], steps[|steps| - 1];
      RingAfterRun(c, front);
      if step.Receive? && step.record {
        RingStep(Run(c, front).buffer, Run(c, front).writeIndex, c.size, Accepted(front), step.e);
      }
    }
  }

  /** The counters count: in all, and kind by kind, with no kind listed that was not seen. */
  lemma {:induction false} CountsAfterRun(c: Setup, steps: seq<Step>, k: string)
    ensures Run(c, steps).total == |Accepted(steps)|
    ensures CountOf(Run(c, steps).perKind, k) == Occurrences(Accepted(steps), k)
    ensures k in Run(c, steps).perKind <==> Occurrences(Accepted(steps), k) > 0
  {
    if steps != [] {
      var front, step := steps[..|steps| - 1], steps[|steps| - 1];
      CountsAfterRun(c, front, k);
      if step.Receive? && step.record {
        var h := Accepted(front);
        assert (h + [step.e])[..|h|] == h;
      }
    }
  }

  /** A logger hears of exactly the accepted events, in order. */
  lemma {:induction false} LoggedAfterRun(c: Setup, steps: seq<Step>)
    ensures Run(c, steps).logged == if c.logging then Some(Accepted(steps)) else None
  {
    if steps != [] {
      LoggedAfterRun(c, steps[..|steps| - 1]);
    }
  }

  /** Between calls the accumulator is settled, whatever happened before, disposal included. */
  lemma {:induction false} SettledAfterRun(c: Setup, steps: seq<Step>)
    requires c.maxSize > 0.0
    ensures
      var forward := Run(c, steps).forward;
      if c.forwarding then forward.Some? && Settled(forward.value, c.maxSize) else forward.None?
  {
    if steps != [] {
      var front, step := steps[..|steps| - 1], steps[|steps| - 1];
      SettledAfterRun(c, front);
      var s := Run(c, front);
      if c.forwarding {
        match step
        case Receive(e, record) => PushKeeps(s.forward.value, e, c.maxSize);
        case Flush => FlushKeeps(s.forward.value, c.maxSize);
        case Dispose =>
      }
    }
  }

  /** What was handed over, and what is still to be. */
  ghost function Forwarded(s: State): seq<Event> { if s.forward.Some? then Content(s.forward.value) else [] }

  /** `getRecent` after any run: the last events of the filtered last `bufferSize` accepted ones, in arrival order. */
  lemma RecentAfterRun(c: Setup, steps: seq<Step>, f: Filter)
    ensures Recent(Run(c, steps), c.size, f) == Tail(Selected(Kept(Accepted(steps), c.size), f), Cap(f.limit, c.size))
  {
    RingAfterRun(c, steps);
    RecentIsHistory(Run(c, steps), c.size, Accepted(steps), f);
  }

  /** Whatever was held and handed over, and then accepted, is handed over or
   * held, in order, as long as nobody disposes. */
  lemma {:induction false} NothingLost(c: Setup, steps: seq<Step>, k: nat)
    requires k <= |steps| && c.forwarding && c.maxSize > 0.0
    requires forall i :: k <= i < |steps| ==> !steps[i].Dispose?
    ensures |Accepted(steps[..k])| <= |Accepted(steps)|
    ensures Forwarded(Run(c, steps)) == Forwarded(Run(c, steps[..k])) + Accepted(steps)[|Accepted(steps[..k])|..]
    decreases |steps|
  {
    if k == |steps| {
      assert steps[..k] == steps;
    } else {
      var front, step := steps[..|steps| - 1], steps[|steps| - 1];
      assert front[..k] == steps[..k];
      NothingLost(c, front, k);
      SettledAfterRun(c, front);
      var s, n := Run(c, front), |Accepted(steps[..k])|;
      match step
      case Receive(e, record) =>
        if record {
          PushKeeps(s.forward.value, e, c.maxSize);
          assert (Accepted(front) + [e])[n..] == Accepted(front)[n..] + [e];
        }
      case Flush =>
        FlushKeeps(s.forward.value, c.maxSize);
    }
  }

  lemma NoRoomIff(requested: Option<Num>)
    ensures EffectiveSize(requested) == Bounded(0)
      <==> requested.Some? && requested.value.Fin? && 0.0 < requested.value.r < 1.0
  {}

  lemma EverythingSelected(h: seq<Event>, size: Size)
    requires h != [] && size != Bounded(0)
    ensures Tail(Selected(Kept(h, size), Filter(None, None, Some(PosInf))), Cap(Some(PosInf), size)) != []
  {
    KindsSelected(Kept(h, size), None);
    SinceSelected(Kept(h, size), None);
  }

  /** A buffer size between 0 and 1 passes the positivity test, then keeps nothing: no event is ever returned. */
  lemma NothingReturnedIff(c: Setup, steps: seq<Step>, requested: Option<Num>)
    requires c.size == EffectiveSize(requested) && Accepted(steps) != []
    ensures (forall f :: Recent(Run(c, steps), c.size, f) == [])
       <==> requested.Some? && requested.value.Fin? && 0.0 < requested.value.r < 1.0
  {
    NoRoomIff(requested);
    if c.size == Bounded(0) {
      forall f ensures Recent(Run(c, steps), c.size, f) == [] {
        RecentAfterRun(c, steps, f);
      }
    } else {
      var any := Filter(None, None, Some(PosInf));
      RecentAfterRun(c, steps, any);
      EverythingSelected(Accepted(steps), c.size);
      assert Recent(Run(c, steps), c.size, any) != [];
    }
  }
}
