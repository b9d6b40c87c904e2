/** What travels back over the page bridge, field by field: the page's replies and what callbacks are called with. */
module Replies {
  import opened Prelude
  import opened Envelopes
  import opened Dispatcher
  import Text

  /** An error object with this message and nothing else. */
  predicate ErrorSays(e: Json, message: Option<Json>) {
    e.JObj? && Field(e.fields, "message") == message && forall k :: k in e.fields ==> k == "message"
  }

  /**
   * The response fits how handling went: a payload and no error when the tool is known and its handler
   * resolved with that payload; otherwise no payload, and an error that holds exactly what the handler
   * threw, or names the unknown tool.
   */
  predicate Fits(known: set<string>, tool: string, o: Outcome, r: Response) {
    if tool !in known then
      r.payload.None? && r.error.Some? && ErrorSays(r.error.value, Some(JStr("unknown tool: " + tool)))
    else
      match o
      case Resolved(payload) => r.payload == payload && r.error.None?
      case Rejected(message) => r.payload.None? && r.error.Some? && ErrorSays(r.error.value, message)
      case RejectedWithNothing => false
  }

  /** The message has these fields and no others. */
  predicate IsReply(data: Json, id: string, r: Response) {
    && data.JObj?
    && Field(data.fields, "ns") == Some(JStr("pwa-debug")) && Field(data.fields, "dir") == Some(JStr("page->cs"))
    && Field(data.fields, "requestId") == Some(JStr(id))
    && Field(data.fields, "payload") == r.payload && Field(data.fields, "error") == r.error
    && forall k :: k in data.fields ==> k in {"ns", "dir", "requestId", "payload", "error"}
  }

  lemma AnswerFits(known: set<string>, tool: string, o: Outcome)
    ensures Answer(known, tool, o).None? <==> tool in known && o.RejectedWithNothing?
    ensures Answer(known, tool, o).Some? ==> Fits(known, tool, o, Answer(known, tool, o).value)
  {}

  lemma EnvelopeIsReply(id: string, r: Response)
    ensures IsReply(ResponseEnvelope(id, r), id, r)
  {}

  /** The reply of one handling of a request. */
  ghost predicate RepliesTo(known: set<string>, q: Request, o: Outcome, data: Json) {
    exists r :: Fits(known, q.tool, o, r) && IsReply(data, q.id, r)
  }

  /** One reply for every request handled, unless a known tool's handler threw what cannot be read. */
  lemma PageReplies(c: Setup, steps: seq<Step>, which: nat, o: Outcome)
    requires PossibleRun(c, steps) && which < |Run(c, steps).issued|
    ensures
      var w := Run(c, steps);
      var q := w.issued[which];
      var replies := Next(c, w, Page(which, o)).replies;
      if q.tool in c.known && o.RejectedWithNothing? then replies == w.replies
      else |replies| == |w.replies| + 1 && replies[..|w.replies|] == w.replies
           && RepliesTo(c.known, q, o, replies[|w.replies|])
  {
    RunIsGood(c, steps);
    var w := Run(c, steps);
    var q := w.issued[which];
    RequestRoundTrip(q);
    assert w.cs.posted[which] == EncodeRequest(q);
    AnswerFits(c.known, q.tool, o);
    var a := Answer(c.known, q.tool, o);
    if a.Some? {
      EnvelopeIsReply(q.id, a.value);
      assert Next(c, w, Page(which, o)).replies == w.replies + [ResponseEnvelope(q.id, a.value)];
    }
  }

  /** Every entry of `asked` stems from a step in which the page handled that request. */
  ghost predicate Handled(c: Setup, steps: seq<Step>, q: Request, o: Outcome) {
    exists j :: 0 <= j < |steps| && HandledAt(c, steps, j, q, o)
  }

  predicate HandledAt(c: Setup, steps: seq<Step>, j: nat, q: Request, o: Outcome) {
    && j < |steps| && steps[j].Page? && steps[j].outcome == o
    && steps[j].which < |Run(c, steps).issued| && Run(c, steps).issued[steps[j].which] == q
  }

  /** What a step adds to `asked` is the request the page was made to handle. */
  lemma AskedNext(c: Setup, w: World, s: Step, a: Asked)
    requires Good(c, w) && Possible(w, s) && a in Next(c, w, s).asked && a !in w.asked
    ensures s.Page? && a.outcome == s.outcome && s.which < |w.issued| && a.request == w.issued[s.which]
    ensures Next(c, w, s).issued == w.issued
  {
    if s.Page? {
      RequestRoundTrip(w.issued[s.which]);
      assert w.cs.posted[s.which] == EncodeRequest(w.issued[s.which]);
    }
  }

  lemma IssuedGrows(c: Setup, w: World, s: Step)
    ensures |Next(c, w, s).issued| >= |w.issued| && Next(c, w, s).issued[..|w.issued|] == w.issued
  {}

  lemma StillHandled(c: Setup, steps: seq<Step>, j: nat, q: Request, o: Outcome)
    requires steps != [] && HandledAt(c, steps[..|steps| - 1], j, q, o)
    ensures HandledAt(c, steps, j, q, o)
  {
    var front := steps[..|steps| - 1];
    var w, which := Run(c, front), steps[j].which;
    IssuedGrows(c, w, steps[|steps| - 1]);
    assert front[j] == steps[j];
    assert Run(c, steps).issued[..|w.issued|][which] == w.issued[which];
  }

  lemma {:induction false} AskedIsHandled(c: Setup, steps: seq<Step>, a: Asked)
    requires PossibleRun(c, steps) && a in Run(c, steps).asked
    ensures Handled(c, steps, a.request, a.outcome)
  {
    var front, last := steps[..|steps| - 1], steps[|steps| - 1];
    if a in Run(c, front).asked {
      AskedIsHandled(c, front, a);
      var j: nat :| j < |front| && HandledAt(c, front, j, a.request, a.outcome);
      StillHandled(c, steps, j, a.request, a.outcome);
    } else {
      RunIsGood(c, front);
      AskedNext(c, Run(c, front), last, a);
      assert HandledAt(c, steps, |front|, a.request, a.outcome);
    }
  }

  /** Over every run: each reply on the wire answers a request that was handled, and fits how that went. */
  lemma RepliesFit(c: Setup, steps: seq<Step>, i: nat)
    requires PossibleRun(c, steps) && i < |Run(c, steps).replies|
    ensures exists q, o :: Handled(c, steps, q, o) && RepliesTo(c.known, q, o, Run(c, steps).replies[i])
  {
    RunIsGood(c, steps);
    var w := Run(c, steps);
    assert Genuine(c, w, w.replies[i]);
    var a, r :| a in w.asked && a.who < |w.issued| && a.request == w.issued[a.who]
                && Answer(c.known, a.request.tool, a.outcome) == Some(r)
                && w.replies[i] == ResponseEnvelope(a.request.id, r);
    AskedIsHandled(c, steps, a);
    AnswerFits(c.known, a.request.tool, a.outcome);
    EnvelopeIsReply(a.request.id, r);
    assert RepliesTo(c.known, a.request, a.outcome, w.replies[i]);
  }

  /** The timeout error of a request. */
  predicate TimedOut(timeoutMs: nat, tool: string, r: Response) {
    && r.payload.None? && r.error.Some?
    && ErrorSays(r.error.value,
                 Some(JStr("page-bridge timeout after " + Text.Decimal(timeoutMs) + "ms (tool=" + tool + ")")))
  }

  /** Over every run: a callback hears of the timeout of its own request, or
   * what fits a handling of that very request. */
  lemma SentFits(c: Setup, steps: seq<Step>, i: nat)
    requires PossibleRun(c, steps) && i < |Run(c, steps).cs.sent|
    ensures
      var w := Run(c, steps);
      var k, r := w.cs.sent[i].sender, w.cs.sent[i].response;
      && k < |w.issued|
      && (TimedOut(c.timeoutMs, w.issued[k].tool, r)
          || exists o :: Handled(c, steps, w.issued[k], o) && Fits(c.known, w.issued[k].tool, o, r))
  {
    RunIsGood(c, steps);
    var w := Run(c, steps);
    var k, r := w.cs.sent[i].sender, w.cs.sent[i].response;
    assert Deserved(c, w, k, r);
    if r != TimeoutResponse(c.timeoutMs, w.issued[k].tool) {
      var a :| a in w.asked && a.request == w.issued[k] && Answer(c.known, w.issued[k].tool, a.outcome) == Some(r);
      AskedIsHandled(c, steps, a);
      AnswerFits(c.known, a.request.tool, a.outcome);
    }
  }

  /** A timer that fires calls the callback of its own request, with the timeout error. */
  lemma TimerSends(c: Setup, steps: seq<Step>, k: nat)
    requires PossibleRun(c, steps) && Waiting(Run(c, steps), k)
    ensures
      var w := Run(c, steps);
      var sent := Next(c, w, Timer(w.cs.pending[w.issued[k].id].timer)).cs.sent;
      && |sent| == |w.cs.sent| + 1 && sent[..|w.cs.sent|] == w.cs.sent
      && sent[|w.cs.sent|].sender == k && TimedOut(c.timeoutMs, w.issued[k].tool, sent[|w.cs.sent|].response)
  {
    RunIsGood(c, steps);
    TimerAnswers(c, Run(c, steps), k);
  }
}
