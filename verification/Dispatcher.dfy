/**
 * The request protocol between content script and page: the dispatcher of
 * page_bridge/cs_dispatcher.ts, the page's answers, and an environment that may delay, repeat,
 * forge unknown replies, let timers fire and dispose.
 */
module Dispatcher {
  import opened Prelude
  import opened Envelopes
  import Text

  type Callback = nat
  type Handle = nat

  datatype Pending = Pending(sender: Callback, timer: Handle)

  /** An armed timer, with what its closure captured. */
  datatype Alarm = Alarm(id: string, tool: string)

  datatype Sent = Sent(sender: Callback, response: Response)

  datatype State = State(pending: map<string, Pending>, alarms: map<Handle, Alarm>, sent: seq<Sent>,
                         posted: seq<Json>, forwarded: seq<Json>)

  const INITIAL: State := State(map[], map[], [], [], [])

  function TimeoutResponse(timeoutMs: nat, tool: string): Response {
    var message := "page-bridge timeout after " + Text.Decimal(timeoutMs) + "ms (tool=" + tool + ")";
    Response(None, Some(ErrorObject(Some(JStr(message)))))
  }

  function Finish(s: State, id: string, r: Response): State {
    if id !in s.pending then s
    else
      s.(pending := s.pending - {id}, alarms := s.alarms - {s.pending[id].timer},
         sent := s.sent + [Sent(s.pending[id].sender, r)])
  }

  function Issue(s: State, r: Request, sender: Callback, timer: Handle): State {
    s.(pending := s.pending[r.id := Pending(sender, timer)], alarms := s.alarms[timer := Alarm(r.id, r.tool)],
       posted := s.posted + [EncodeRequest(r)])
  }

  function Receive(s: State, fromWindow: bool, data: Json): State {
    if IsInboundPageToCs(fromWindow, data) then Finish(s, IdOf(data), ReadResponse(data))
    else if IsInboundPageEvent(fromWindow, data) then s.(forwarded := s.forwarded + [data.fields["event"]])
    else s
  }

  function Ring(s: State, timer: Handle, timeoutMs: nat): State {
    if timer !in s.alarms then s
    else
      var a := s.alarms[timer];
      Finish(s.(alarms := s.alarms - {timer}), a.id, TimeoutResponse(timeoutMs, a.tool))
  }

  function AlarmsOf(pending: map<string, Pending>): set<Handle> { set id | id in pending :: pending[id].timer }

  function Emptied(s: State): State { s.(pending := map[], alarms := s.alarms - AlarmsOf(s.pending)) }

  class CsDispatcher {
    const timeoutMs: nat
    var pending: map<string, Pending>
    var alarms: map<Handle, Alarm>
    var sent: seq<Sent>
    var posted: seq<Json>
    var forwarded: seq<Json>

    function S(): State
      reads this
    {
      State(pending, alarms, sent, posted, forwarded)
    }

    constructor (timeoutMs: nat)
      ensures S() == INITIAL && this.timeoutMs == timeoutMs
    {
      this.timeoutMs := timeoutMs;
      pending, alarms, sent, posted, forwarded := map[], map[], [], [], [];
    }

    method FinishRequest(id: string, response: Response)
      modifies this
      ensures S() == Finish(old(S()), id, response)
    {
      if id !in pending {
        return;
      }
      var entry := pending[id];
      pending := pending - {id};
      alarms := alarms - {entry.timer};
      sent := sent + [Sent(entry.sender, response)];
    }

    /** `handleSwRequest`, with the id and the timer handle it is given. */
    method HandleSwRequest(id: string, tool: string, payload: Option<Json>, sender: Callback, timer: Handle)
      modifies this
      ensures S() == Issue(old(S()), Request(id, tool, payload), sender, timer)
    {
      var envelope := EncodeRequest(Request(id, tool, payload));
      alarms := alarms[timer := Alarm(id, tool)];
      pending := pending[id := Pending(sender, timer)];
      posted := posted + [envelope];
    }

    method HandlePageMessage(fromWindow: bool, data: Json)
      modifies this
      ensures S() == Receive(old(S()), fromWindow, data)
    {
      if IsInboundPageToCs(fromWindow, data) {
        var response := Response(None, None);
        if "payload" in data.fields {
          response := response.(payload := Some(data.fields["payload"]));
        }
        if "error" in data.fields {
          response := response.(error := Some(data.fields["error"]));
        }
        FinishRequest(data.fields["requestId"].s, response);
        return;
      }
      if IsInboundPageEvent(fromWindow, data) {
        forwarded := forwarded + [data.fields["event"]];
      }
    }

    method OnTimer(timer: Handle)
      requires timer in alarms
      modifies this
      ensures S() == Ring(old(S()), timer, timeoutMs)
    {
      var a := alarms[timer];
      alarms := alarms - {timer};
      FinishRequest(a.id, TimeoutResponse(timeoutMs, a.tool));
    }

    method Dispose()
      modifies this
      ensures S() == Emptied(old(S()))
    {
      var ids := pending.Keys;
      ghost var before := alarms;
      ghost var cleared: set<Handle> := {};
      while ids != {}
        invariant ids <= pending.Keys && pending == old(pending)
        invariant sent == old(sent) && posted == old(posted) && forwarded == old(forwarded)
        invariant alarms == before - cleared
        invariant cleared == set id | id in pending && id !in ids :: pending[id].timer
        decreases |ids|
      {
        var id :| id in ids;
        alarms := alarms - {pending[id].timer};
        cleared := cleared + {pending[id].timer};
        ids := ids - {id};
      }
      assert cleared == AlarmsOf(pending);
      pending := map[];
    }
  }

  // ---------------------------------------------------------------- runs

  /**
   * The dispatcher in its environment. `issued` lists the requests in order (a request's place is
   * its callback), `replies` the page's answers so far, `asked` what handlers were asked and gave,
   * and `cleared` how many requests had been issued when the dispatcher was last disposed.
   */
  datatype World = World(cs: State, issued: seq<Request>, replies: seq<Json>, asked: seq<Asked>, cleared: nat)

  /** Handling the `who`-th posted envelope: the request the page read from it, and how its handler ended. */
  datatype Asked = Asked(who: nat, request: Request, outcome: Outcome)

  const START: World := World(INITIAL, [], [], [], 0)

  datatype Step =
    | Call(id: string, tool: string, payload: Option<Json>, timer: Handle)
    | Page(which: nat, outcome: Outcome)
    | Reply(which: nat)
    | Foreign(fromWindow: bool, data: Json)
    | Timer(timer: Handle)
    | Dispose

  datatype Setup = Setup(timeoutMs: nat, known: set<string>)

  function FreshId(issued: seq<Request>, id: string): bool {
    forall i :: 0 <= i < |issued| ==> issued[i].id != id
  }

  /**
   * Ids are never reused and timer handles are distinct. The page handles requests that were
   * posted, as often as it likes; replies arrive late, repeatedly or never. Any other message may
   * arrive as long as it does not claim to answer a request that was issued.
   */
  predicate Possible(w: World, s: Step) {
    match s
    case Call(id, tool, payload, timer) => FreshId(w.issued, id) && timer !in w.cs.alarms
    case Page(which, outcome) => which < |w.issued|
    case Reply(which) => which < |w.replies|
    case Foreign(fromWindow, data) => IsInboundPageToCs(fromWindow, data) ==> FreshId(w.issued, IdOf(data))
    case Timer(timer) => timer in w.cs.alarms
    case Dispose => true
  }

  function PageReply(known: set<string>, data: Json, o: Outcome): seq<Json>
    requires IsInboundCsToPage(true, data)
  {
    var r := ReadRequest(data);
    match Answer(known, r.tool, o)
    case None => []
    case Some(a) => [ResponseEnvelope(r.id, a)]
  }

  function Next(c: Setup, w: World, s: Step): World {
    match s
    case Call(id, tool, payload, timer) =>
      w.(cs := Issue(w.cs, Request(id, tool, payload), |w.issued|, timer),
         issued := w.issued + [Request(id, tool, payload)])
    case Page(which, outcome) =>
      if which < |w.cs.posted| && IsInboundCsToPage(true, w.cs.posted[which]) then
        w.(replies := w.replies + PageReply(c.known, w.cs.posted[which], outcome),
           asked := w.asked + [Asked(which, ReadRequest(w.cs.posted[which]), outcome)])
      else w
    case Reply(which) => if which < |w.replies| then w.(cs := Receive(w.cs, true, w.replies[which])) else w
    case Foreign(fromWindow, data) => w.(cs := Receive(w.cs, fromWindow, data))
    case Timer(timer) => w.(cs := Ring(w.cs, timer, c.timeoutMs))
    case Dispose => w.(cs := Emptied(w.cs), cleared := |w.issued|)
  }

  function Run(c: Setup, steps: seq<Step>): World {
    if steps == [] then START else Next(c, Run(c, steps[..|steps| - 1]), steps[|steps| - 1])
  }

  predicate PossibleRun(c: Setup, steps: seq<Step>) {
    steps == []
    || (PossibleRun(c, steps[..|steps| - 1]) && Possible(Run(c, steps[..|steps| - 1]), steps[|steps| - 1]))
  }

  // ---------------------------------------------------------------- the invariant

  /** The answer to the request of callback `k`: its own timeout, or what its own tool made of its own payload. */
  ghost predicate Deserved(c: Setup, w: World, k: nat, r: Response) {
    k < |w.issued|
    && (r == TimeoutResponse(c.timeoutMs, w.issued[k].tool)
        || exists a ::
             && a in w.asked && a.request == w.issued[k]
             && Answer(c.known, w.issued[k].tool, a.outcome) == Some(r))
  }

  predicate Answered(cs: State, k: Callback) { exists i :: 0 <= i < |cs.sent| && cs.sent[i].sender == k }

  /** Request `k` still waits, and its own timer is armed. */
  predicate Waiting(w: World, k: nat) {
    k < |w.issued|
    && var id := w.issued[k].id;
       && id in w.cs.pending && w.cs.pending[id].sender == k
       && w.cs.pending[id].timer in w.cs.alarms
       && w.cs.alarms[w.cs.pending[id].timer] == Alarm(id, w.issued[k].tool)
  }

  ghost predicate UniqueIds(w: World) {
    forall i, j :: 0 <= i < j < |w.issued| ==> w.issued[i].id != w.issued[j].id
  }

  ghost predicate PendingOk(w: World) {
    && (forall id :: id in w.cs.pending ==>
          var k := w.cs.pending[id].sender;
          k < |w.issued| && w.issued[k].id == id && Waiting(w, k) && !Answered(w.cs, k))
    && (forall t :: t in w.cs.alarms ==>
          w.cs.alarms[t].id in w.cs.pending && w.cs.pending[w.cs.alarms[t].id].timer == t)
  }

  /** Each callback is called at most once, and with a response it deserves. */
  ghost predicate SentOk(c: Setup, w: World) {
    && (forall i :: 0 <= i < |w.cs.sent| ==> Deserved(c, w, w.cs.sent[i].sender, w.cs.sent[i].response))
    && (forall i, j :: 0 <= i < j < |w.cs.sent| ==> w.cs.sent[i].sender != w.cs.sent[j].sender)
  }

  /** Every request since the last disposal is answered or waiting. */
  ghost predicate Accounted(w: World) {
    && w.cleared <= |w.issued|
    && (forall k :: w.cleared <= k < |w.issued| ==> Answered(w.cs, k) || Waiting(w, k))
    && (forall id :: id in w.cs.pending ==> w.cleared <= w.cs.pending[id].sender)
  }

  /** What travels on the wire. */
  ghost predicate WireOk(c: Setup, w: World) {
    && |w.cs.posted| == |w.issued|
    && (forall i :: 0 <= i < |w.issued| ==> w.cs.posted[i] == EncodeRequest(w.issued[i]))
    && (forall i :: 0 <= i < |w.replies| ==> Genuine(c, w, w.replies[i]))
  }

  ghost predicate Genuine(c: Setup, w: World, data: Json) {
    exists a, r :: a in w.asked && a.who < |w.issued| && a.request == w.issued[a.who]
                   && Answer(c.known, a.request.tool, a.outcome) == Some(r)
                   && data == ResponseEnvelope(a.request.id, r)
  }

  ghost predicate Good(c: Setup, w: World) {
    UniqueIds(w) && PendingOk(w) && SentOk(c, w) && Accounted(w) && WireOk(c, w)
  }

  // ---------------------------------------------------------------- every step keeps it

  lemma FinishAnswers(cs: State, id: string, r: Response)
    requires id in cs.pending
    ensures forall j :: Answered(Finish(cs, id, r), j) <==> Answered(cs, j) || j == cs.pending[id].sender
  {
    var cs' := Finish(cs, id, r);
    assert cs'.sent[|cs.sent|].sender == cs.pending[id].sender;
    forall j | Answered(cs, j) ensures Answered(cs', j) {
      var i :| 0 <= i < |cs.sent| && cs.sent[i].sender == j;
      assert cs'.sent[i].sender == j;
    }
  }

  /** Everyone else goes on waiting. */
  lemma FinishWaiting(w: World, id: string, r: Response, j: nat)
    requires UniqueIds(w) && PendingOk(w) && id in w.cs.pending && Waiting(w, j) && j != w.cs.pending[id].sender
    ensures Waiting(w.(cs := Finish(w.cs, id, r)), j)
  {
    assert w.issued[j].id != id;
    assert w.cs.alarms[w.cs.pending[id].timer].id == id;
  }

  lemma FinishPending(w: World, id: string, r: Response)
    requires UniqueIds(w) && PendingOk(w) && id in w.cs.pending
    ensures PendingOk(w.(cs := Finish(w.cs, id, r)))
  {
    var w' := w.(cs := Finish(w.cs, id, r));
    FinishAnswers(w.cs, id, r);
    forall i | i in w'.cs.pending
      ensures
        var k := w'.cs.pending[i].sender;
        k < |w'.issued| && w'.issued[k].id == i && Waiting(w', k) && !Answered(w'.cs, k)
    {
      FinishWaiting(w, id, r, w.cs.pending[i].sender);
    }
    forall t | t in w'.cs.alarms
      ensures w'.cs.alarms[t].id in w'.cs.pending && w'.cs.pending[w'.cs.alarms[t].id].timer == t
    {
      assert w.cs.alarms[t].id in w.cs.pending;
    }
  }

  lemma FinishSent(c: Setup, w: World, id: string, r: Response)
    requires PendingOk(w) && SentOk(c, w) && id in w.cs.pending && Deserved(c, w, w.cs.pending[id].sender, r)
    ensures SentOk(c, w.(cs := Finish(w.cs, id, r)))
  {
    var w' := w.(cs := Finish(w.cs, id, r));
    var k := w.cs.pending[id].sender;
    assert !Answered(w.cs, k);
    forall i | 0 <= i < |w'.cs.sent|
      ensures Deserved(c, w', w'.cs.sent[i].sender, w'.cs.sent[i].response)
      ensures i < |w.cs.sent| ==> w'.cs.sent[i].sender != k
    {
      if i < |w.cs.sent| {
        assert Deserved(c, w, w.cs.sent[i].sender, w.cs.sent[i].response);
      } else {
        assert Deserved(c, w, k, r);
      }
    }
  }

  lemma FinishAccounted(w: World, id: string, r: Response)
    requires UniqueIds(w) && PendingOk(w) && Accounted(w) && id in w.cs.pending
    ensures Accounted(w.(cs := Finish(w.cs, id, r)))
  {
    var w' := w.(cs := Finish(w.cs, id, r));
    FinishAnswers(w.cs, id, r);
    forall k: nat | w.cleared <= k < |w'.issued| ensures Answered(w'.cs, k) || Waiting(w', k) {
      if !Answered(w'.cs, k) {
        FinishWaiting(w, id, r, k);
      }
    }
  }

  /** Answering a waiting request. */
  lemma FinishKeeps(c: Setup, w: World, id: string, r: Response)
    requires Good(c, w) && id in w.cs.pending && Deserved(c, w, w.cs.pending[id].sender, r)
    ensures Good(c, w.(cs := Finish(w.cs, id, r)))
  {
    var w' := w.(cs := Finish(w.cs, id, r));
    FinishPending(w, id, r);
    FinishSent(c, w, id, r);
    FinishAccounted(w, id, r);
    WireElsewhere(c, w, w');
  }

  /** The wire does not care about the dispatcher's bookkeeping. */
  lemma WireElsewhere(c: Setup, w: World, w': World)
    requires WireOk(c, w) && w'.issued == w.issued && w'.replies == w.replies && w'.asked == w.asked
      && w'.cs.posted == w.cs.posted
    ensures WireOk(c, w')
  {
    forall i | 0 <= i < |w'.replies| ensures Genuine(c, w', w'.replies[i]) {
      assert Genuine(c, w, w.replies[i]);
    }
  }

  /** The bookkeeping does not care about the wire. */
  lemma BooksElsewhere(c: Setup, w: World, w': World)
    requires UniqueIds(w) && PendingOk(w) && SentOk(c, w) && Accounted(w)
    requires w'.issued == w.issued && w'.cleared == w.cleared && forall a :: a in w.asked ==> a in w'.asked
    requires w'.cs.pending == w.cs.pending && w'.cs.alarms == w.cs.alarms && w'.cs.sent == w.cs.sent
    ensures UniqueIds(w') && PendingOk(w') && SentOk(c, w') && Accounted(w')
  {
    forall i | 0 <= i < |w.cs.sent| ensures Deserved(c, w', w.cs.sent[i].sender, w.cs.sent[i].response) {
      assert Deserved(c, w, w.cs.sent[i].sender, w.cs.sent[i].response);
    }
    assert forall k :: Waiting(w, k) ==> Waiting(w', k);
    assert forall k :: Answered(w.cs, k) <==> Answered(w'.cs, k);
  }

  lemma CallPending(c: Setup, w: World, r: Request, timer: Handle)
    requires PendingOk(w) && SentOk(c, w) && r.id !in w.cs.pending && timer !in w.cs.alarms
    ensures PendingOk(w.(cs := Issue(w.cs, r, |w.issued|, timer), issued := w.issued + [r]))
    ensures Waiting(w.(cs := Issue(w.cs, r, |w.issued|, timer), issued := w.issued + [r]), |w.issued|)
    ensures forall j: nat ::
      Waiting(w, j) ==> Waiting(w.(cs := Issue(w.cs, r, |w.issued|, timer), issued := w.issued + [r]), j)
  {
    var n := |w.issued|;
    var w' := w.(cs := Issue(w.cs, r, n, timer), issued := w.issued + [r]);
    forall i | 0 <= i < |w.cs.sent| ensures w.cs.sent[i].sender < n {
      assert Deserved(c, w, w.cs.sent[i].sender, w.cs.sent[i].response);
    }
    assert forall j :: Answered(w'.cs, j) <==> Answered(w.cs, j);
    assert w'.issued[n] == r && Waiting(w', n);
    forall j: nat | Waiting(w, j) ensures Waiting(w', j) {
      assert w'.issued[j] == w.issued[j];
    }
    forall i | i in w'.cs.pending
      ensures
        var k := w'.cs.pending[i].sender;
        k < |w'.issued| && w'.issued[k].id == i && Waiting(w', k) && !Answered(w'.cs, k)
    {
      if i != r.id {
        assert Waiting(w, w.cs.pending[i].sender);
      }
    }
    forall t | t in w'.cs.alarms
      ensures w'.cs.alarms[t].id in w'.cs.pending && w'.cs.pending[w'.cs.alarms[t].id].timer == t
    {
      if t != timer {
        assert w.cs.alarms[t].id in w.cs.pending;
      }
    }
  }

  lemma CallWire(c: Setup, w: World, r: Request, timer: Handle)
    requires WireOk(c, w) && SentOk(c, w)
    ensures WireOk(c, w.(cs := Issue(w.cs, r, |w.issued|, timer), issued := w.issued + [r]))
    ensures SentOk(c, w.(cs := Issue(w.cs, r, |w.issued|, timer), issued := w.issued + [r]))
  {
    var w' := w.(cs := Issue(w.cs, r, |w.issued|, timer), issued := w.issued + [r]);
    forall i | 0 <= i < |w'.replies| ensures Genuine(c, w', w'.replies[i]) {
      assert Genuine(c, w, w.replies[i]);
    }
    forall i | 0 <= i < |w.cs.sent| ensures Deserved(c, w', w.cs.sent[i].sender, w.cs.sent[i].response) {
      assert Deserved(c, w, w.cs.sent[i].sender, w.cs.sent[i].response);
    }
  }

  /** The world after a call. */
  function Called(w: World, r: Request, timer: Handle): World {
    w.(cs := Issue(w.cs, r, |w.issued|, timer), issued := w.issued + [r])
  }

  lemma CallAccounts(c: Setup, w: World, r: Request, timer: Handle)
    requires Good(c, w) && timer !in w.cs.alarms && r.id !in w.cs.pending
    ensures Accounted(Called(w, r, timer))
  {
    var w' := Called(w, r, timer);
    CallPending(c, w, r, timer);
    assert forall j :: Answered(w.cs, j) ==> Answered(w'.cs, j);
    forall k: nat | w.cleared <= k < |w'.issued| ensures Answered(w'.cs, k) || Waiting(w', k) {
      if k < |w.issued| {
        assert Answered(w.cs, k) || Waiting(w, k);
      }
    }
  }

  lemma CallLoses(c: Setup, w: World, r: Request, timer: Handle)
    requires Good(c, w) && r.id in w.cs.pending
    ensures !Accounted(Called(w, r, timer))
  {
    var w' := Called(w, r, timer);
    var k := w.cs.pending[r.id].sender;
    assert w'.issued[k] == w.issued[k] && !Waiting(w', k);
    assert !Answered(w.cs, k) && !Answered(w'.cs, k);
  }

  /**
   * Why ids must be fresh: issuing a request under the id of one still waiting loses that one. It
   * is neither answered nor waiting any more, whatever is sent.
   */
  lemma CallAccountsIffFresh(c: Setup, w: World, r: Request, timer: Handle)
    requires Good(c, w) && timer !in w.cs.alarms
    ensures Accounted(Called(w, r, timer)) <==> r.id !in w.cs.pending
  {
    if r.id in w.cs.pending {
      CallLoses(c, w, r, timer);
    } else {
      CallAccounts(c, w, r, timer);
    }
  }

  lemma CallKeeps(c: Setup, w: World, r: Request, timer: Handle)
    requires Good(c, w) && FreshId(w.issued, r.id) && timer !in w.cs.alarms
    ensures Good(c, w.(cs := Issue(w.cs, r, |w.issued|, timer), issued := w.issued + [r]))
  {
    var w' := w.(cs := Issue(w.cs, r, |w.issued|, timer), issued := w.issued + [r]);
    assert r.id !in w.cs.pending;
    CallPending(c, w, r, timer);
    CallWire(c, w, r, timer);
    CallAccountsIffFresh(c, w, r, timer);
  }

  lemma PageKeeps(c: Setup, w: World, which: nat, o: Outcome)
    requires Good(c, w) && which < |w.issued|
    ensures Good(c, Next(c, w, Page(which, o)))
  {
    var r := w.issued[which];
    RequestRoundTrip(r);
    var a := Asked(which, r, o);
    var more: seq<Json> := match Answer(c.known, r.tool, o) case None => [] case Some(x) => [ResponseEnvelope(r.id, x)];
    var w' := w.(replies := w.replies + more, asked := w.asked + [a]);
    assert Next(c, w, Page(which, o)) == w';
    BooksElsewhere(c, w, w');
    forall i | 0 <= i < |w'.replies| ensures Genuine(c, w', w'.replies[i]) {
      if i < |w.replies| {
        assert Genuine(c, w, w.replies[i]);
      } else {
        assert a in w'.asked;
      }
    }
  }

  lemma ReceiveReply(cs: State, id: string, r: Response)
    ensures Receive(cs, true, ResponseEnvelope(id, r)) == if id in cs.pending then Finish(cs, id, r) else cs
  {
    ResponseRoundTrip(id, r);
  }

  lemma PendingSender(w: World, id: string, k: nat)
    requires UniqueIds(w) && PendingOk(w) && id in w.cs.pending && k < |w.issued| && w.issued[k].id == id
    ensures w.cs.pending[id].sender == k
  {}

  /** Whose request a reply on the wire answers, and with what. */
  lemma ReplyOf(c: Setup, w: World, which: nat) returns (k: nat, r: Response)
    requires WireOk(c, w) && which < |w.replies|
    ensures k < |w.issued| && w.replies[which] == ResponseEnvelope(w.issued[k].id, r) && Deserved(c, w, k, r)
  {
    assert Genuine(c, w, w.replies[which]);
    var a, r' :| a in w.asked && a.who < |w.issued| && a.request == w.issued[a.who]
                 && Answer(c.known, a.request.tool, a.outcome) == Some(r')
                 && w.replies[which] == ResponseEnvelope(a.request.id, r');
    k, r := a.who, r';
  }

  lemma ReplyKeeps(c: Setup, w: World, which: nat)
    requires Good(c, w) && which < |w.replies|
    ensures Good(c, Next(c, w, Reply(which)))
  {
    var k, r := ReplyOf(c, w, which);
    var id := w.issued[k].id;
    ReceiveReply(w.cs, id, r);
    var w' := Next(c, w, Reply(which));
    if id in w.cs.pending {
      PendingSender(w, id, k);
      FinishKeeps(c, w, id, r);
      assert w' == w.(cs := Finish(w.cs, id, r));
    } else {
      assert w' == w;
    }
  }

  /** A message that answers nothing issued is at most forwarded. */
  lemma ForeignEffect(w: World, fromWindow: bool, data: Json)
    requires PendingOk(w) && (IsInboundPageToCs(fromWindow, data) ==> FreshId(w.issued, IdOf(data)))
    ensures Receive(w.cs, fromWindow, data).(forwarded := w.cs.forwarded) == w.cs
  {
    if IsInboundPageToCs(fromWindow, data) {
      assert IdOf(data) !in w.cs.pending;
    }
  }

  lemma ForeignKeeps(c: Setup, w: World, fromWindow: bool, data: Json)
    requires Good(c, w) && (IsInboundPageToCs(fromWindow, data) ==> FreshId(w.issued, IdOf(data)))
    ensures Good(c, Next(c, w, Foreign(fromWindow, data)))
  {
    ForeignEffect(w, fromWindow, data);
    var w' := w.(cs := w.cs.(forwarded := Receive(w.cs, fromWindow, data).forwarded));
    assert Next(c, w, Foreign(fromWindow, data)) == w';
    BooksElsewhere(c, w, w');
    WireElsewhere(c, w, w');
  }

  lemma TimerKeeps(c: Setup, w: World, timer: Handle)
    requires Good(c, w) && timer in w.cs.alarms
    ensures Good(c, Next(c, w, Timer(timer)))
  {
    var a := w.cs.alarms[timer];
    var k := w.cs.pending[a.id].sender;
    assert Waiting(w, k);
    var r := TimeoutResponse(c.timeoutMs, a.tool);
    FinishKeeps(c, w, a.id, r);
    assert w.cs.alarms - {timer} - {timer} == w.cs.alarms - {timer};
    assert Ring(w.cs, timer, c.timeoutMs) == Finish(w.cs, a.id, r);
  }

  /** Disposing leaves no timer behind. */
  lemma DisposeKeeps(c: Setup, w: World)
    requires Good(c, w)
    ensures Good(c, Next(c, w, Dispose)) && Next(c, w, Dispose).cs.alarms == map[]
  {
    var w' := Next(c, w, Dispose);
    forall t | t in w.cs.alarms ensures t in AlarmsOf(w.cs.pending) {
      assert w.cs.alarms[t].id in w.cs.pending;
    }
    assert w'.cs.alarms == map[];
    forall i | 0 <= i < |w.cs.sent| ensures Deserved(c, w', w.cs.sent[i].sender, w.cs.sent[i].response) {
      assert Deserved(c, w, w.cs.sent[i].sender, w.cs.sent[i].response);
    }
    WireElsewhere(c, w, w');
  }

  lemma StepKeeps(c: Setup, w: World, s: Step)
    requires Good(c, w) && Possible(w, s)
    ensures Good(c, Next(c, w, s))
  {
    match s
    case Call(id, tool, payload, timer) => CallKeeps(c, w, Request(id, tool, payload), timer);
    case Page(which, outcome) => PageKeeps(c, w, which, outcome);
    case Reply(which) => ReplyKeeps(c, w, which);
    case Foreign(fromWindow, data) => ForeignKeeps(c, w, fromWindow, data);
    case Timer(timer) => TimerKeeps(c, w, timer);
    case Dispose => DisposeKeeps(c, w);
  }

  /**
   * Every run: each callback is called at most once, with its own timeout or with what the page
   * answered to its own request, and every request since the last disposal is answered or still
   * waiting under an armed timer of its own.
   */
  lemma {:induction false} RunIsGood(c: Setup, steps: seq<Step>)
    requires PossibleRun(c, steps)
    ensures Good(c, Run(c, steps))
  {
    if steps != [] {
      RunIsGood(c, steps[..|steps| - 1]);
      StepKeeps(c, Run(c, steps[..|steps| - 1]), steps[|steps| - 1]);
    }
  }

  /** A reply to a request that still waits reaches its callback, unchanged; to any other it changes nothing. */
  lemma ReplyAnswers(c: Setup, w: World, which: nat, k: nat, r: Response)
    requires Good(c, w) && which < |w.replies| && k < |w.issued|
      && w.replies[which] == ResponseEnvelope(w.issued[k].id, r)
    ensures
      var w' := Next(c, w, Reply(which));
      && w'.cs.sent == (if Waiting(w, k) then w.cs.sent + [Sent(k, r)] else w.cs.sent)
      && !Waiting(w', k)
  {
    var id := w.issued[k].id;
    ResponseRoundTrip(id, r);
    assert Receive(w.cs, true, w.replies[which]) == Finish(w.cs, id, r);
    if id in w.cs.pending {
      assert w.cs.pending[id].sender == k;
    }
  }

  /** A timer that fires ends the wait of its own request with its own timeout error. */
  lemma TimerAnswers(c: Setup, w: World, k: nat)
    requires Good(c, w) && Waiting(w, k)
    ensures
      var timer := w.cs.pending[w.issued[k].id].timer;
      var w' := Next(c, w, Timer(timer));
      && w'.cs.sent == w.cs.sent + [Sent(k, TimeoutResponse(c.timeoutMs, w.issued[k].tool))]
      && !Waiting(w', k)
  {}

  /** A posted request that the page handles with a known tool is answered with what the handler gave. */
  lemma PageAnswers(c: Setup, w: World, k: nat, payload: Option<Json>)
    requires Good(c, w) && k < |w.issued| && w.issued[k].tool in c.known
    ensures Next(c, w, Page(k, Resolved(payload))).replies
      == w.replies + [ResponseEnvelope(w.issued[k].id, Response(payload, None))]
  {
    RequestRoundTrip(w.issued[k]);
    assert w.cs.posted[k] == EncodeRequest(w.issued[k]);
  }

  /** An event the page posts is forwarded as it is, and nothing else happens. */
  lemma EventIsForwarded(w: World, event: Json)
    ensures Receive(w.cs, true, EncodeEvent(event)) == w.cs.(forwarded := w.cs.forwarded + [event])
  {
    EventRoundTrip(event);
  }

  /** For one: two calls under one id. The first callback is neither answered nor waited for any more. */
  lemma SameIdLosesACall(c: Setup, id: string, tool: string, first: Handle, second: Handle)
    requires first != second
    ensures
      var w := Next(c, Next(c, START, Call(id, tool, None, first)), Call(id, tool, None, second));
      !Waiting(w, 0) && !Answered(w.cs, 0) && Waiting(w, 1)
  {
    var w := Next(c, Next(c, START, Call(id, tool, None, first)), Call(id, tool, None, second));
    assert w.issued[0].id == id && w.issued[1] == Request(id, tool, None);
    assert w.cs.pending[id] == Pending(1, second);
  }
}
