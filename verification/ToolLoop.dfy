/**
 The tool-calling loop of the agent box.  The model, the tools, the clock and the callback
 endpoint are oracles: any behaviour of theirs is covered.
 */
module ToolLoop {
  import opened Wrappers

  datatype ToolCall = ToolCall(id: string, name: string, arguments: string)

  datatype Message =
    | Prior(text: string)                                  // what the conversation began with
    | Assistant(content: string, calls: seq<ToolCall>)
    | ToolResult(callId: string, content: string)

  datatype Response =
    | TimedOut
    | Raised(detail: string)
    | BadStatus(detail: string)
    | NoChoices(detail: string)
    | Completion(content: string, calls: seq<ToolCall>, finishReason: Option<string>, model: Option<string>,
                 promptTokens: int, completionTokens: int)

  datatype CallbackStatus = Thinking | Complete | Failed

  datatype Problem = LoopTimeout | InferenceTimeout | InferenceError(detail: string) | InferenceStatus(detail: string)
                   | NoCompletion(detail: string) | CutShort(note: string)

  datatype Callback = Callback(status: CallbackStatus, content: string, model: Option<string>,
                               inputTokens: int, outputTokens: int, problem: Option<Problem>)

  /** How one POST of a callback goes: it raises, or is answered with a status code. */
  datatype PostResult = PostRaised | Answered(code: int)

  /** What the outside sees: a request to the model with the messages so far, or a callback
      with the number of POSTs made for it and whether one got an answer. */
  datatype Event = Inference(messages: seq<Message>) | Delivered(callback: Callback, posts: nat, answered: bool)

  datatype World = World(
    response: nat -> Response,             // by iteration
    toolResult: (nat, nat) -> string,      // by iteration and position of the call
    elapsed: nat -> int,                   // clock reading at the start of each iteration
    post: (nat, nat) -> PostResult)        // by callback and attempt

  datatype Config = Config(model: string, maxIterations: nat, timeout: int)

  // ---- Marking answers that were cut short ----

  function CutShortReason(finishReason: Option<string>): Option<string> {
    if finishReason == Some("length") then Some("the model reached its output limit")
    else if finishReason == Some("content_filter") then Some("the provider's content filter stopped the response")
    else None
  }

  function MarkIncomplete(content: string, finishReason: Option<string>): (string, Option<string>) {
    var reason := CutShortReason(finishReason);
    if reason.None? then (content, None)
    else
      var note := "Response incomplete: " + reason.value + " (finish_reason=" + finishReason.value + ").";
      (content + "\n\n[" + note + " The text above stops mid-answer.]", Some(note))
  }

  // ---- Delivering one callback ----

  /** POSTs made and whether one was answered: a terminal callback is retried once after an
      exception, a thinking one is not. */
  function Delivery(terminal: bool, post: nat -> PostResult): (nat, bool) {
    if post(0).Answered? then (1, true)
    else if !terminal then (1, false)
    else (2, post(1).Answered?)
  }

  method DeliverCallback(status: CallbackStatus, post: nat -> PostResult) returns (posts: nat, answered: bool)
    ensures (posts, answered) == Delivery(!status.Thinking?, post)
    ensures 1 <= posts <= (if status.Thinking? then 1 else 2)
    ensures forall k :: 0 <= k < posts - 1 ==> post(k).PostRaised?
    ensures answered <==> post(posts - 1).Answered?
  {
    var attempts := if !status.Thinking? then 2 else 1;
    var attempt := 0;
    while attempt < attempts
      invariant 0 <= attempt <= attempts
      invariant forall k :: 0 <= k < attempt ==> post(k).PostRaised?
    {
      if post(attempt).Answered? {
        return attempt + 1, true;
      }
      attempt := attempt + 1;
    }
    return attempts, false;
  }

  // ---- The loop, as a trace ----

  predicate AsksForTools(r: Response) {
    r.Completion? && r.calls != [] && r.finishReason == Some("tool_calls")
  }

  function Prompt(r: Response): int {
    if r.Completion? then r.promptTokens else 0
  }

  function Output(r: Response): int {
    if r.Completion? then r.completionTokens else 0
  }

  /** Token totals over the first n responses; only those with choices carry usage. */
  function PromptSum(response: nat -> Response, n: nat): int {
    if n == 0 then 0 else PromptSum(response, n - 1) + Prompt(response(n - 1))
  }

  function OutputSum(response: nat -> Response, n: nat): int {
    if n == 0 then 0 else OutputSum(response, n - 1) + Output(response(n - 1))
  }

  function Results(calls: seq<ToolCall>, iteration: nat, toolResult: (nat, nat) -> string, n: nat): seq<Message>
    requires n <= |calls|
  {
    if n == 0 then []
    else Results(calls, iteration, toolResult, n - 1) + [ToolResult(calls[n - 1].id, toolResult(iteration, n - 1))]
  }

  function Turn(w: World, i: nat): seq<Message>
    requires w.response(i).Completion?
  {
    var r := w.response(i);
    [Assistant(r.content, r.calls)] + Results(r.calls, i, w.toolResult, |r.calls|)
  }

  function Said(r: Response): string {
    if r.Completion? then r.content else ""
  }

  function ModelOf(c: Config, r: Response): string {
    if r.Completion? && r.model.Some? then r.model.value else c.model
  }

  function PostsOf(w: World, index: nat): nat -> PostResult {
    (attempt: nat) => w.post(index, attempt)
  }

  function Deliver(w: World, index: nat, cb: Callback): Event {
    var (posts, answered) := Delivery(!cb.status.Thinking?, PostsOf(w, index));
    Delivered(cb, posts, answered)
  }

  /** Posted until answered: a thinking callback once, a terminal one twice at most. */
  predicate Posted(w: World, index: nat, e: Event) {
    && e.Delivered?
    && (e.posts == 1 || e.posts == 2) && (e.answered <==> w.post(index, e.posts - 1).Answered?)
    && (e.posts == 2 <==> w.post(index, 0).PostRaised? && !e.callback.status.Thinking?)
  }

  method Report(w: World, index: nat, cb: Callback) returns (e: Event)
    ensures e == Deliver(w, index, cb) && e.Delivered? && e.callback == cb && Posted(w, index, e)
  {
    var posts, answered := DeliverCallback(cb.status, PostsOf(w, index));
    e := Delivered(cb, posts, answered);
  }

  function Problematic(w: World, n: nat, problem: Problem): Callback {
    Callback(Failed, "", None, PromptSum(w.response, n), OutputSum(w.response, n), Some(problem))
  }

  const EXHAUSTED := "I reached my tool execution limit. Here's what I found so far."

  function Names(calls: seq<ToolCall>): string {
    if calls == [] then "" else if |calls| == 1 then calls[0].name else calls[0].name + ", " + Names(calls[1..])
  }

  /** The final callback that a response which asks for no tools leads to. */
  function Final(c: Config, w: World, i: nat): Callback
    requires !AsksForTools(w.response(i))
  {
    match w.response(i)
    case Completion(content, _, finishReason, _, _, _) =>
      var (marked, note) := MarkIncomplete(content, finishReason);
      Callback(Complete, marked, Some(ModelOf(c, w.response(i))), PromptSum(w.response, i + 1),
                   OutputSum(w.response, i + 1), if note.Some? then Some(CutShort(note.value)) else None)
    case r => Problematic(w, i + 1, ProblemOf(r))
  }

  /** The callback after the last iteration: whatever content there is. */
  function Exhausted(c: Config, w: World, i: nat, last: Response): Callback {
    Callback(Complete, if |Said(last)| == 0 then EXHAUSTED else Said(last), Some(ModelOf(c, last)),
             PromptSum(w.response, i), OutputSum(w.response, i), None)
  }

  function Progress(c: Config, w: World, i: nat): Callback
    requires w.response(i).Completion?
  {
    Callback(Thinking, "Executed: " + Names(w.response(i).calls), Some(ModelOf(c, w.response(i))),
             PromptSum(w.response, i + 1), OutputSum(w.response, i + 1), None)
  }

  /** Everything the outside sees from iteration i on, `last` being the response before it. */
  function Trace(c: Config, w: World, i: nat, messages: seq<Message>, last: Response): seq<Event>
    decreases c.maxIterations - i
  {
    if i >= c.maxIterations then
      [Deliver(w, i, Exhausted(c, w, i, last))]
    else if w.elapsed(i) > c.timeout then
      [Deliver(w, i, Problematic(w, i, LoopTimeout))]
    else if AsksForTools(w.response(i)) then
      [Inference(messages), Deliver(w, i, Progress(c, w, i))] + Trace(c, w, i + 1, messages + Turn(w, i), w.response(i))
    else
      [Inference(messages), Deliver(w, i, Final(c, w, i))]
  }

  /** Runs the calls of one response and appends their results. */
  method ExecuteTools(w: World, i: nat, calls: seq<ToolCall>, messages: seq<Message>) returns (messages': seq<Message>)
    ensures messages' == messages + Results(calls, i, w.toolResult, |calls|)
  {
    messages' := messages;
    for j := 0 to |calls|
      invariant messages' == messages + Results(calls, i, w.toolResult, j)
    {
      messages' := messages' + [ToolResult(calls[j].id, w.toolResult(i, j))];
    }
  }

  function ProblemOf(r: Response): Problem
    requires !r.Completion?
  {
    match r
    case TimedOut => InferenceTimeout
    case Raised(detail) => InferenceError(detail)
    case BadStatus(detail) => InferenceStatus(detail)
    case NoChoices(detail) => NoCompletion(detail)
  }

  lemma TraceContinues(c: Config, w: World, i: nat, before: seq<Event>, messages: seq<Message>, last: Response)
    requires i < c.maxIterations && w.elapsed(i) <= c.timeout && AsksForTools(w.response(i))
    ensures
      before + Trace(c, w, i, messages, last) ==
      before + [Inference(messages)] + [Deliver(w, i, Progress(c, w, i))]
      + Trace(c, w, i + 1, messages + Turn(w, i), w.response(i))
  {
  }

  lemma TraceEnds(c: Config, w: World, i: nat, before: seq<Event>, messages: seq<Message>, last: Response)
    requires i < c.maxIterations && w.elapsed(i) <= c.timeout && !AsksForTools(w.response(i))
    ensures
      before + Trace(c, w, i, messages, last) == before + [Inference(messages)] + [Deliver(w, i, Final(c, w, i))]
  {
  }

  lemma TraceTimesOut(c: Config, w: World, i: nat, messages: seq<Message>, last: Response)
    requires i < c.maxIterations && w.elapsed(i) > c.timeout
    ensures Trace(c, w, i, messages, last) == [Deliver(w, i, Problematic(w, i, LoopTimeout))]
  {
  }

  lemma TraceExhausted(c: Config, w: World, messages: seq<Message>, last: Response)
    ensures Trace(c, w, c.maxIterations, messages, last) ==
            [Deliver(w, c.maxIterations, Exhausted(c, w, c.maxIterations, last))]
  {
  }

  lemma TurnAppended(w: World, i: nat, messages: seq<Message>)
    requires w.response(i).Completion?
    ensures
      var r := w.response(i);
      messages + Turn(w, i) == messages + [Assistant(r.content, r.calls)] + Results(r.calls, i, w.toolResult, |r.calls|)
  {
  }

  // ---- What the outside must see, event by event ----

  /** Names of the tools called, from the last one backwards. */
  function Listed(calls: seq<ToolCall>): string {
    if |calls| == 0 then ""
    else if |calls| == 1 then calls[0].name
    else Listed(calls[..|calls| - 1]) + ", " + calls[|calls| - 1].name
  }

  lemma {:induction false} NamesAreListed(calls: seq<ToolCall>)
    ensures Names(calls) == Listed(calls)
    decreases |calls|
  {
    if |calls| > 1 {
      var n := |calls| - 1;
      NamesAreListed(calls[1..]);
      if n > 1 {
        NamesAreListed(calls[..n]);
        NamesAreListed(calls[1..][..n - 1]);
        assert calls[..n][1..] == calls[1..][..n - 1];
      }
    }
  }

  /** What response j adds to the conversation: itself, and one result for each call. */
  predicate Grown(w: World, j: nat, before: seq<Message>, after: seq<Message>) {
    var r, n := w.response(j), |before|;
    && r.Completion? && |after| == n + 1 + |r.calls| && after[..n] == before
    && after[n] == Assistant(r.content, r.calls)
    && forall k :: 0 <= k < |r.calls| ==> after[n + 1 + k] == ToolResult(r.calls[k].id, w.toolResult(j, k))
  }

  /** Event 2j is request j, with all that was said before it. */
  predicate Sent(w: World, initial: seq<Message>, events: seq<Event>, j: nat)
    requires 2 * j < |events|
  {
    && events[2 * j].Inference?
    && (j == 0 ==> events[0].messages == initial)
    && (j > 0 ==> events[2 * j - 2].Inference? && Grown(w, j - 1, events[2 * j - 2].messages, events[2 * j].messages))
  }

  /** The token counts of the callback before round j. */
  function TokensBefore(events: seq<Event>, j: nat): (int, int)
    requires 2 * j <= |events|
  {
    if j > 0 && events[2 * j - 1].Delivered?
    then (events[2 * j - 1].callback.inputTokens, events[2 * j - 1].callback.outputTokens) else (0, 0)
  }

  /** Request j, its response and the callback after it, with the tokens of the response added. */
  predicate Round(c: Config, w: World, initial: seq<Message>, events: seq<Event>, j: nat)
    requires 2 * j + 1 < |events|
  {
    && j < c.maxIterations && w.elapsed(j) <= c.timeout
    && Sent(w, initial, events, j) && Posted(w, j, events[2 * j + 1])
    && var r, cb, before := w.response(j), events[2 * j + 1].callback, TokensBefore(events, j);
       && cb.inputTokens == before.0 + (if r.Completion? then r.promptTokens else 0)
       && cb.outputTokens == before.1 + (if r.Completion? then r.completionTokens else 0)
  }

  /** A response that asks for tools: the loop tells which, and goes on. */
  predicate Asks(c: Config, r: Response, cb: Callback) {
    && r.Completion? && r.calls != [] && r.finishReason == Some("tool_calls")
    && cb.status == Thinking && cb.content == "Executed: " + Listed(r.calls) && cb.problem == None
    && cb.model == Some(if r.model.Some? then r.model.value else c.model)
  }

  /** The terminal callback names the failure, or delivers the content: as it is, or marked when
      the model stopped short of its end. */
  predicate Concludes(c: Config, r: Response, cb: Callback) {
    match r
    case Completion(content, calls, finishReason, model, _, _) =>
      && (calls == [] || finishReason != Some("tool_calls"))
      && cb.status == Complete && cb.model == Some(if model.Some? then model.value else c.model)
      && (if finishReason == Some("length") then
            var note := "Response incomplete: " + "the model reached its output limit"
                        + " (finish_reason=" + "length" + ").";
            && cb.content == content + "\n\n[" + note + " The text above stops mid-answer.]"
            && cb.problem == Some(CutShort(note))
          else if finishReason == Some("content_filter") then
            var note := "Response incomplete: " + "the provider's content filter stopped the response"
                        + " (finish_reason=" + "content_filter" + ").";
            && cb.content == content + "\n\n[" + note + " The text above stops mid-answer.]"
            && cb.problem == Some(CutShort(note))
          else cb.content == content && cb.problem == None)
    case TimedOut => FailedWith(cb, InferenceTimeout)
    case Raised(detail) => FailedWith(cb, InferenceError(detail))
    case BadStatus(detail) => FailedWith(cb, InferenceStatus(detail))
    case NoChoices(detail) => FailedWith(cb, NoCompletion(detail))
  }

  predicate FailedWith(cb: Callback, problem: Problem) {
    cb.status == Failed && cb.content == "" && cb.model == None && cb.problem == Some(problem)
  }

  /** The loop ends before request n: out of iterations, with the last content there is, or out of
      time. */
  predicate Stops(c: Config, w: World, events: seq<Event>, n: nat)
    requires |events| == 2 * n + 1
  {
    && Posted(w, n, events[2 * n])
    && var cb := events[2 * n].callback;
       && (cb.inputTokens, cb.outputTokens) == TokensBefore(events, n)
       && (n < c.maxIterations ==> w.elapsed(n) > c.timeout && FailedWith(cb, LoopTimeout))
       && (n >= c.maxIterations ==>
             && cb.status == Complete && cb.problem == None
             && if n > 0 && w.response(n - 1).Completion?
                then
                  var r := w.response(n - 1);
                  && cb.content == (if r.content != "" then r.content
                                    else "I reached my tool execution limit. Here's what I found so far.")
                  && cb.model == Some(if r.model.Some? then r.model.value else c.model)
                else
                  && cb.content == "I reached my tool execution limit. Here's what I found so far."
                  && cb.model == Some(c.model))
  }

  predicate AsksAt(c: Config, w: World, initial: seq<Message>, events: seq<Event>, j: nat) {
    2 * j + 1 < |events| && Round(c, w, initial, events, j) && Asks(c, w.response(j), events[2 * j + 1].callback)
  }

  /** Rounds that ask for tools, and then the end: a round that concludes, or a stop. */
  ghost predicate Told(c: Config, w: World, initial: seq<Message>, events: seq<Event>) {
    var n := (|events| - 1) / 2;
    && |events| > 0 && (forall j: nat :: j < n ==> AsksAt(c, w, initial, events, j))
    && (|events| == 2 * n + 1 ==> Stops(c, w, events, n))
    && (|events| != 2 * n + 1 ==>
          Round(c, w, initial, events, n) && Concludes(c, w.response(n), events[2 * n + 1].callback))
  }

  /** What the conversation is at the end. */
  predicate Left(w: World, initial: seq<Message>, events: seq<Event>, messages: seq<Message>) {
    if |events| <= 1 then messages == initial
    else if |events| % 2 == 0 then events[|events| - 2] == Inference(messages)
    else events[|events| - 3].Inference? && Grown(w, (|events| - 3) / 2, events[|events| - 3].messages, messages)
  }

  /** The conversation before request i. */
  predicate SaidSoFar(w: World, initial: seq<Message>, events: seq<Event>, i: nat, messages: seq<Message>)
    requires |events| == 2 * i
  {
    if i == 0 then messages == initial
    else events[2 * i - 2].Inference? && Grown(w, i - 1, events[2 * i - 2].messages, messages)
  }

  lemma AsksAtKept(c: Config, w: World, initial: seq<Message>, events: seq<Event>, more: seq<Event>, j: nat)
    requires AsksAt(c, w, initial, events, j)
    ensures AsksAt(c, w, initial, events + more, j)
  {
    hide Grown;
    hide Posted;
    hide Asks;
  }

  lemma AllAsksKept(c: Config, w: World, initial: seq<Message>, events: seq<Event>, more: seq<Event>, n: nat)
    requires forall j: nat :: j < n ==> AsksAt(c, w, initial, events, j)
    ensures forall j: nat :: j < n ==> AsksAt(c, w, initial, events + more, j)
  {
    hide AsksAt;
    forall j: nat | j < n ensures AsksAt(c, w, initial, events + more, j) {
      AsksAtKept(c, w, initial, events, more, j);
    }
  }

  lemma RoundMade(c: Config, w: World, initial: seq<Message>, events: seq<Event>, i: nat, messages: seq<Message>,
                  report: Event)
    requires |events| == 2 * i && SaidSoFar(w, initial, events, i, messages)
    requires i < c.maxIterations && w.elapsed(i) <= c.timeout && Posted(w, i, report)
    requires
      var r, cb, before := w.response(i), report.callback, TokensBefore(events, i);
      && cb.inputTokens == before.0 + (if r.Completion? then r.promptTokens else 0)
      && cb.outputTokens == before.1 + (if r.Completion? then r.completionTokens else 0)
    ensures Round(c, w, initial, events + [Inference(messages), report], i)
  {
    hide Grown;
    hide Posted;
  }

  lemma TurnGrows(w: World, j: nat, before: seq<Message>)
    requires w.response(j).Completion?
    ensures Grown(w, j, before, before + Turn(w, j))
  {
    var r := w.response(j);
    ResultsMatch(r.calls, j, w.toolResult, |r.calls|);
  }

  function LastOf(w: World, i: nat): Response {
    if i == 0 then TimedOut else w.response(i - 1)
  }

  /** How the loop stands before iteration i. */
  ghost predicate SoFar(c: Config, w: World, initial: seq<Message>, i: nat, messages: seq<Message>, events: seq<Event>,
                        totalInput: int, totalOutput: int)
  {
    && events + Trace(c, w, i, messages, LastOf(w, i)) == Trace(c, w, 0, initial, TimedOut)
    && totalInput == PromptSum(w.response, i) && totalOutput == OutputSum(w.response, i)
    && initial <= messages && |events| == 2 * i && SaidSoFar(w, initial, events, i, messages)
    && (totalInput, totalOutput) == TokensBefore(events, i)
    && forall j: nat :: j < i ==> AsksAt(c, w, initial, events, j)
  }

  lemma Starts(c: Config, w: World, initial: seq<Message>)
    ensures SoFar(c, w, initial, 0, initial, [], 0, 0)
  {
    hide Trace;
    assert [] + Trace(c, w, 0, initial, TimedOut) == Trace(c, w, 0, initial, TimedOut);
  }

  lemma GoesOn(c: Config, w: World, initial: seq<Message>, i: nat, messages: seq<Message>, events: seq<Event>,
               totalInput: int, totalOutput: int, report: Event)
    requires SoFar(c, w, initial, i, messages, events, totalInput, totalOutput)
    requires i < c.maxIterations && w.elapsed(i) <= c.timeout
    requires AsksForTools(w.response(i)) && report == Deliver(w, i, Progress(c, w, i)) && Posted(w, i, report)
    ensures
      var r := w.response(i);
      SoFar(c, w, initial, i + 1, messages + Turn(w, i), events + [Inference(messages)] + [report],
            totalInput + r.promptTokens, totalOutput + r.completionTokens)
  {
    hide Grown;
    hide Posted;
    hide Names;
    hide Listed;
    hide Trace;
    hide Turn;
    assert report.callback == Progress(c, w, i);
    hide Deliver;
    var events' := events + [Inference(messages), report];
    assert events' == events + [Inference(messages)] + [report];
    TraceContinues(c, w, i, events, messages, LastOf(w, i));
    TurnGrows(w, i, messages);
    AllAsksKept(c, w, initial, events, [Inference(messages), report], i);
    RoundMade(c, w, initial, events, i, messages, report);
    NamesAreListed(w.response(i).calls);
    hide Round;
    assert AsksAt(c, w, initial, events', i);
    hide AsksAt;
  }

  /** The round that ends the loop. */
  lemma Ends(c: Config, w: World, initial: seq<Message>, i: nat, messages: seq<Message>, events: seq<Event>,
             totalInput: int, totalOutput: int, report: Event)
    requires SoFar(c, w, initial, i, messages, events, totalInput, totalOutput)
    requires i < c.maxIterations && w.elapsed(i) <= c.timeout
    requires !AsksForTools(w.response(i)) && report == Deliver(w, i, Final(c, w, i)) && Posted(w, i, report)
    ensures
      var events' := events + [Inference(messages)] + [report];
      && events' == Trace(c, w, 0, initial, TimedOut)
      && Told(c, w, initial, events') && Left(w, initial, events', messages)
  {
    hide Grown;
    hide Posted;
    hide Trace;
    TraceEnds(c, w, i, events, messages, LastOf(w, i));
    FinalConcludes(c, w, i);
    hide Concludes;
    hide MarkIncomplete;
    var events' := events + [Inference(messages), report];
    assert events' == events + [Inference(messages)] + [report];
    AllAsksKept(c, w, initial, events, [Inference(messages), report], i);
    RoundMade(c, w, initial, events, i, messages, report);
    hide Round;
    hide AsksAt;
  }

  lemma FinalConcludes(c: Config, w: World, i: nat)
    requires !AsksForTools(w.response(i))
    ensures Concludes(c, w.response(i), Final(c, w, i))
  {
  }

  lemma EndStops(c: Config, w: World, i: nat, events: seq<Event>, totalInput: int, totalOutput: int, report: Event)
    requires |events| == 2 * i && (totalInput, totalOutput) == TokensBefore(events, i)
    requires totalInput == PromptSum(w.response, i) && totalOutput == OutputSum(w.response, i)
    requires i == c.maxIterations || (i < c.maxIterations && w.elapsed(i) > c.timeout)
    requires Posted(w, i, report)
    requires report.callback == if i == c.maxIterations then Exhausted(c, w, i, LastOf(w, i))
                                else Problematic(w, i, LoopTimeout)
    ensures Stops(c, w, events + [report], i)
  {
    hide Posted;
    hide PromptSum;
    hide OutputSum;
  }

  lemma TraceStopsHere(c: Config, w: World, initial: seq<Message>, i: nat, messages: seq<Message>, events: seq<Event>,
                       report: Event)
    requires events + Trace(c, w, i, messages, LastOf(w, i)) == Trace(c, w, 0, initial, TimedOut)
    requires i == c.maxIterations || (i < c.maxIterations && w.elapsed(i) > c.timeout)
    requires report == Deliver(w, i, if i == c.maxIterations then Exhausted(c, w, i, LastOf(w, i))
                                     else Problematic(w, i, LoopTimeout))
    ensures events + [report] == Trace(c, w, 0, initial, TimedOut)
  {
    hide Deliver;
    hide Exhausted;
    hide Problematic;
  }

  lemma ToldIfStops(c: Config, w: World, initial: seq<Message>, i: nat, messages: seq<Message>, events: seq<Event>,
                    report: Event)
    requires |events| == 2 * i && SaidSoFar(w, initial, events, i, messages)
    requires forall j: nat :: j < i ==> AsksAt(c, w, initial, events + [report], j)
    requires Stops(c, w, events + [report], i)
    ensures Told(c, w, initial, events + [report]) && Left(w, initial, events + [report], messages)
  {
    hide AsksAt;
    hide Stops;
    hide Grown;
    assert (|events + [report]| - 1) / 2 == i;
  }

  /** The end without a further request. */
  lemma StopsHere(c: Config, w: World, initial: seq<Message>, i: nat, messages: seq<Message>, events: seq<Event>,
                  totalInput: int, totalOutput: int, report: Event)
    requires SoFar(c, w, initial, i, messages, events, totalInput, totalOutput)
    requires i == c.maxIterations || (i < c.maxIterations && w.elapsed(i) > c.timeout)
    requires Posted(w, i, report)
    requires report == Deliver(w, i, if i == c.maxIterations then Exhausted(c, w, i, LastOf(w, i))
                                     else Problematic(w, i, LoopTimeout))
    ensures
      var events' := events + [report];
      && events' == Trace(c, w, 0, initial, TimedOut)
      && Told(c, w, initial, events') && Left(w, initial, events', messages)
  {
    TraceStopsHere(c, w, initial, i, messages, events, report);
    AllAsksKept(c, w, initial, events, [report], i);
    EndStops(c, w, i, events, totalInput, totalOutput, report);
    hide *;
    ToldIfStops(c, w, initial, i, messages, events, report);
  }

  /** _run_tool_loop.  The result says whether the terminal callback was `complete`. */
  method RunToolLoop(c: Config, w: World, initial: seq<Message>)
    returns (ok: bool, messages: seq<Message>, events: seq<Event>)
    ensures events == Trace(c, w, 0, initial, TimedOut)
    ensures |events| > 0 && events[|events| - 1].Delivered? && (ok <==> events[|events| - 1].callback.status.Complete?)
    ensures Told(c, w, initial, events)
    ensures initial <= messages && Left(w, initial, events, messages)
  {
    hide Trace;
    hide Turn;
    hide Deliver;
    hide MarkIncomplete;
    hide Names;
    hide Posted;
    hide Told;
    hide Left;
    hide SoFar;
    messages := initial;
    events := [];
    var totalInput, totalOutput := 0, 0;
    var content, responseModel := "", c.model;
    var report;
    Starts(c, w, initial);
    for i := 0 to c.maxIterations
      invariant SoFar(c, w, initial, i, messages, events, totalInput, totalOutput)
      invariant initial <= messages
      invariant content == Said(LastOf(w, i)) && responseModel == ModelOf(c, LastOf(w, i))
    {
      Totals(c, w, initial, i, messages, events, totalInput, totalOutput);
      ghost var before := events;
      if w.elapsed(i) > c.timeout {
        report := Report(w, i, Callback(Failed, "", None, totalInput, totalOutput, Some(LoopTimeout)));
        StopsHere(c, w, initial, i, messages, before, totalInput, totalOutput, report);
        events := events + [report];
        return false, messages, events;
      }
      events := events + [Inference(messages)];
      var r := w.response(i);
      if !r.Completion? {
        report := Report(w, i, Callback(Failed, "", None, totalInput, totalOutput, Some(ProblemOf(r))));
        Ends(c, w, initial, i, messages, before, totalInput, totalOutput, report);
        events := events + [report];
        return false, messages, events;
      }
      ghost var input, output, asked := totalInput, totalOutput, messages;
      content := r.content;
      responseModel := if r.model.Some? then r.model.value else c.model;
      totalInput := totalInput + r.promptTokens;
      totalOutput := totalOutput + r.completionTokens;
      if |r.calls| == 0 || r.finishReason != Some("tool_calls") {
        var (marked, note) := MarkIncomplete(content, r.finishReason);
        report := Report(w, i, Callback(Complete, marked, Some(responseModel), totalInput, totalOutput,
                                        if note.Some? then Some(CutShort(note.value)) else None));
        Ends(c, w, initial, i, messages, before, input, output, report);
        events := events + [report];
        return true, messages, events;
      }
      TurnAppended(w, i, messages);
      messages := messages + [Assistant(content, r.calls)];
      messages := ExecuteTools(w, i, r.calls, messages);
      report := Report(w, i, Callback(Thinking, "Executed: " + Names(r.calls), Some(responseModel),
                                      totalInput, totalOutput, None));
      GoesOn(c, w, initial, i, asked, before, input, output, report);
      events := events + [report];
    }
    var text := if |content| == 0 then EXHAUSTED else content;
    var n := c.maxIterations;
    Totals(c, w, initial, n, messages, events, totalInput, totalOutput);
    report := Report(w, n, Callback(Complete, text, Some(responseModel), totalInput, totalOutput, None));
    StopsHere(c, w, initial, n, messages, events, totalInput, totalOutput, report);
    events := events + [report];
    ok := true;
  }

  lemma Totals(c: Config, w: World, initial: seq<Message>, i: nat, messages: seq<Message>, events: seq<Event>,
               totalInput: int, totalOutput: int)
    requires SoFar(c, w, initial, i, messages, events, totalInput, totalOutput)
    ensures totalInput == PromptSum(w.response, i) && totalOutput == OutputSum(w.response, i)
  {
  }

  // ---- What every trace promises ----

  function Inferences(events: seq<Event>): nat {
    if events == [] then 0 else (if events[0].Inference? then 1 else 0) + Inferences(events[1..])
  }

  predicate Terminal(e: Event) {
    e.Delivered? && !e.callback.status.Thinking?
  }

  lemma TraceUnfold(c: Config, w: World, i: nat, messages: seq<Message>, last: Response)
    requires i < c.maxIterations && w.elapsed(i) <= c.timeout && AsksForTools(w.response(i))
    ensures Trace(c, w, i, messages, last) ==
            [Inference(messages), Deliver(w, i, Progress(c, w, i))]
            + Trace(c, w, i + 1, messages + Turn(w, i), w.response(i))
  {
  }

  lemma InferencesAfterTurn(request: Event, report: Event, rest: seq<Event>)
    requires request.Inference? && report.Delivered?
    ensures Inferences([request, report] + rest) == 1 + Inferences(rest)
    ensures Inferences([report]) == 0 && Inferences([request]) == 1 && Inferences([request, report]) == 1
  {
    var t := [request, report] + rest;
    assert t[1..] == [report] + rest && ([report] + rest)[1..] == rest;
    assert [request, report][1..] == [report] && [report][1..] == [] && [request][1..] == [];
  }

  /** The trace of an iteration that ends the loop. */
  lemma TraceStops(c: Config, w: World, i: nat, messages: seq<Message>, last: Response) returns (report: Event)
    requires i <= c.maxIterations
    requires !(i < c.maxIterations && w.elapsed(i) <= c.timeout && AsksForTools(w.response(i)))
    ensures Terminal(report)
    ensures
      var t := Trace(c, w, i, messages, last);
      t == [report] || (i < c.maxIterations && t == [Inference(messages), report])
    ensures
      var n := i + Inferences(Trace(c, w, i, messages, last));
      && report.callback.inputTokens == PromptSum(w.response, n)
      && report.callback.outputTokens == OutputSum(w.response, n)
  {
    var t := Trace(c, w, i, messages, last);
    report := t[|t| - 1];
    InferencesAfterTurn(Inference(messages), report, []);
  }

  /** At most max_iterations requests to the model, and exactly one terminal callback, which
      is the last thing that happens. */
  lemma {:induction false} OneTerminalCallback(c: Config, w: World, i: nat, messages: seq<Message>, last: Response)
    requires i <= c.maxIterations
    ensures
      var t := Trace(c, w, i, messages, last);
      && |t| > 0 && Terminal(t[|t| - 1])
      && (forall k :: 0 <= k < |t| - 1 ==> !Terminal(t[k]))
      && i + Inferences(t) <= c.maxIterations
    decreases c.maxIterations - i
  {
    hide Trace;
    hide Turn;
    if i < c.maxIterations && w.elapsed(i) <= c.timeout && AsksForTools(w.response(i)) {
      OneTerminalCallback(c, w, i + 1, messages + Turn(w, i), w.response(i));
      TraceUnfold(c, w, i, messages, last);
      var rest := Trace(c, w, i + 1, messages + Turn(w, i), w.response(i));
      InferencesAfterTurn(Inference(messages), Deliver(w, i, Progress(c, w, i)), rest);
    } else {
      var report := TraceStops(c, w, i, messages, last);
      InferencesAfterTurn(Inference(messages), report, []);
    }
  }

  /** Every callback reports the sums over the responses received before it. */
  lemma {:induction false} CallbacksReportSums(
    c: Config, w: World, i: nat, messages: seq<Message>, last: Response, k: nat)
    requires i <= c.maxIterations && k < |Trace(c, w, i, messages, last)|
    ensures
      var t := Trace(c, w, i, messages, last);
      t[k].Delivered? ==>
        && t[k].callback.inputTokens == PromptSum(w.response, i + Inferences(t[..k]))
        && t[k].callback.outputTokens == OutputSum(w.response, i + Inferences(t[..k]))
    decreases c.maxIterations - i
  {
    hide Trace;
    hide Turn;
    var t := Trace(c, w, i, messages, last);
    if i < c.maxIterations && w.elapsed(i) <= c.timeout && AsksForTools(w.response(i)) {
      var rest := Trace(c, w, i + 1, messages + Turn(w, i), w.response(i));
      var request, report := Inference(messages), Deliver(w, i, Progress(c, w, i));
      TraceUnfold(c, w, i, messages, last);
      if k >= 2 {
        CallbacksReportSums(c, w, i + 1, messages + Turn(w, i), w.response(i), k - 2);
        InferencesAfterTurn(request, report, rest[..k - 2]);
        assert t[..k] == [request, report] + rest[..k - 2];
      } else if k == 1 {
        InferencesAfterTurn(request, report, []);
        assert t[..1] == [request];
      }
    } else {
      var report := TraceStops(c, w, i, messages, last);
      InferencesAfterTurn(Inference(messages), report, []);
      if k == 1 { assert t[..1] == [Inference(messages)]; }
    }
  }

  // ---- Tool calls are answered before the next request ----

  predicate AnsweredBy(calls: seq<ToolCall>, results: seq<Message>) {
    && |results| == |calls|
    && forall j :: 0 <= j < |calls| ==> results[j].ToolResult? && results[j].callId == calls[j].id
  }

  /** A sequence of turns: an assistant message that calls tools, then one tool message for
      each call, in order, and nothing else. */
  predicate Turns(messages: seq<Message>)
    decreases |messages|
  {
    |messages| == 0 ||
    (&& messages[0].Assistant?
     && (var n := |messages[0].calls|;
         && 1 <= n < |messages|
         && AnsweredBy(messages[0].calls, messages[1..][..n])
         && Turns(messages[1..][n..])))
  }

  lemma {:induction false} ResultsMatch(calls: seq<ToolCall>, i: nat, toolResult: (nat, nat) -> string, n: nat)
    requires n <= |calls|
    ensures
      var rs := Results(calls, i, toolResult, n);
      |rs| == n && forall j :: 0 <= j < n ==> rs[j] == ToolResult(calls[j].id, toolResult(i, j))
  {
    if n > 0 { ResultsMatch(calls, i, toolResult, n - 1); }
  }

  lemma {:induction false} TurnsAppend(messages: seq<Message>, more: seq<Message>)
    requires Turns(messages) && Turns(more)
    ensures Turns(messages + more)
    decreases |messages|
  {
    var all := messages + more;
    if |messages| == 0 {
      assert all == more;
    } else {
      var n := |messages[0].calls|;
      var tail := messages[1..];
      TurnsAppend(tail[n..], more);
      assert all[0] == messages[0] && all[1..] == tail + more;
      assert (tail + more)[..n] == tail[..n] && (tail + more)[n..] == tail[n..] + more;
    }
  }

  lemma TurnIsTurns(w: World, i: nat)
    requires AsksForTools(w.response(i))
    ensures Turns(Turn(w, i))
  {
    var r := w.response(i);
    var results := Results(r.calls, i, w.toolResult, |r.calls|);
    ResultsMatch(r.calls, i, w.toolResult, |r.calls|);
    assert Turn(w, i)[1..] == results;
    assert results[..|r.calls|] == results && results[|r.calls|..] == [];
  }

  /** The events of one iteration, of which at most the first is a request. */
  lemma RequestsSendMessages(c: Config, w: World, i: nat, messages: seq<Message>, last: Response, k: nat)
    requires i <= c.maxIterations && k < |Trace(c, w, i, messages, last)|
    requires k < 2 || !(i < c.maxIterations && w.elapsed(i) <= c.timeout && AsksForTools(w.response(i)))
    ensures
      var e := Trace(c, w, i, messages, last)[k];
      e.Inference? ==> e.messages == messages
  {
    hide Turn;
    hide Final;
    hide Progress;
    hide Exhausted;
  }

  /** In every request to the model, what follows the initial messages is a sequence of
      answered turns: no tool call goes without its result, none out of order. */
  lemma {:induction false} ToolCallsAnswered(
    c: Config, w: World, i: nat, initial: seq<Message>, turns: seq<Message>, last: Response, k: nat)
    requires i <= c.maxIterations && Turns(turns)
    requires k < |Trace(c, w, i, initial + turns, last)|
    ensures
      var e := Trace(c, w, i, initial + turns, last)[k];
      e.Inference? ==> initial <= e.messages && Turns(e.messages[|initial|..])
    decreases c.maxIterations - i
  {
    hide Trace;
    hide Turns;
    hide Turn;
    assert (initial + turns)[|initial|..] == turns;
    if i < c.maxIterations && w.elapsed(i) <= c.timeout && AsksForTools(w.response(i)) && k >= 2 {
      TraceUnfold(c, w, i, initial + turns, last);
      TurnIsTurns(w, i);
      TurnsAppend(turns, Turn(w, i));
      assert initial + turns + Turn(w, i) == initial + (turns + Turn(w, i));
      ToolCallsAnswered(c, w, i + 1, initial, turns + Turn(w, i), w.response(i), k - 2);
    } else {
      RequestsSendMessages(c, w, i, initial + turns, last, k);
    }
  }

  /** A `complete` answer is marked, and its note recorded, exactly when the model stopped
      short; otherwise the content is delivered as it came. */
  lemma MarkedIffCutShort(content: string, finishReason: Option<string>)
    ensures
      var (marked, note) := MarkIncomplete(content, finishReason);
      && content <= marked
      && (note.Some? <==> finishReason == Some("length") || finishReason == Some("content_filter"))
      && (marked == content <==> note.None?)
  {
    var (marked, note) := MarkIncomplete(content, finishReason);
    if note.Some? {
      assert |marked| > |content|;
    }
  }
}
