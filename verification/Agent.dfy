/** One user turn of the agent: gates before the model, bounded tool rounds, grounding of the final text. */
module Agent {
  import opened Prelude
  import opened Text
  import opened Grounding

  // ---- messages and records ----

  datatype ToolCall = ToolCall(id: string, name: string, arguments: string)

  datatype ChatResponse = ChatResponse(content: string, toolCalls: seq<ToolCall>)

  datatype Message =
    | Plain(role: string, content: string)
    | Assistant(content: string, toolCalls: seq<ToolCall>)
    | ToolResult(callId: string, name: string, content: string)

  datatype RecordSource = Requested | PolicyGuard | ForcedRouting

  // `result` is the JSON text of the tool result.
  datatype Record = Record(callId: string, name: string, arguments: string, source: RecordSource, ok: bool, result: string)

  datatype PolicyOutcome = Allowed | Refused(result: string)

  // An exception the agent catches counts as a result that is not ok.
  datatype ToolOutcome = ToolOutcome(ok: bool, result: string)

  // ---- the surroundings, as arbitrary oracles ----

  datatype ForcedRoute =
    | NotRouted
    | Unexecuted(clarification: Option<string>, errorText: string)
    | Executed(toolName: string, arguments: string, ok: bool, result: string, summary: string)

  /** `llm` answers from the whole transcript, `registry` from the calls executed before; `report` is the
      deterministic report over the results so far, None when disabled or unavailable. */
  datatype World = World(
    forced: ForcedRoute,
    limitation: Option<string>,
    readiness: Option<string>,
    prompt: seq<Message>,
    llm: seq<Message> -> ChatResponse,
    policy: ToolCall -> PolicyOutcome,
    registry: (seq<ToolCall>, ToolCall) -> ToolOutcome,
    messagePayload: Record -> string,
    report: seq<Record> -> Option<string>,
    grounder: Grounder)

  datatype Config = Config(
    maxToolRounds: int,
    toolResultMaxChars: int,
    forcedRouting: bool,
    readinessGate: bool,
    policyGuard: bool,
    reportWhenEmpty: bool,
    reportOnMaxRounds: bool)

  predicate ValidConfig(c: Config) { c.maxToolRounds > 0 && c.toolResultMaxChars > 0 }

  // ---- tool messages ----

  const MARKER := "...<truncated tool result>"

  function Truncated(content: string, maxChars: int): string
    requires maxChars > 0
  {
    if |content| <= maxChars then content
    else if maxChars <= |MARKER| then MARKER[..maxChars]
    else content[..maxChars - |MARKER|] + MARKER
  }

  function ToolResultMessage(call: ToolCall, payload: string, maxChars: int): Message
    requires maxChars > 0
  {
    ToolResult(call.id, call.name, Truncated(payload, maxChars))
  }

  /** A tool message never exceeds its limit, carries short results whole, and marks longer ones. */
  lemma TruncationLaws(content: string, maxChars: int)
    requires maxChars > 0
    ensures |Truncated(content, maxChars)| == Min(|content|, maxChars)
    ensures |content| <= maxChars ==> Truncated(content, maxChars) == content
    ensures |content| > maxChars > |MARKER| ==>
      Contains(Truncated(content, maxChars), MARKER) && content[..maxChars - |MARKER|] <= Truncated(content, maxChars)
  {
    if |content| > maxChars > |MARKER| {
      ContainsSuffix(content[..maxChars - |MARKER|], MARKER);
    }
  }

  // ---- one tool call ----

  /** Whether the policy guard turns the call away before the registry sees it. */
  predicate TurnedAway(w: World, c: Config, call: ToolCall) { c.policyGuard && w.policy(call).Refused? }

  /** The record of one call, and the calls the registry has executed after it. */
  function ExecuteToolCall(w: World, c: Config, executed: seq<ToolCall>, call: ToolCall): (r: (Record, seq<ToolCall>))
    ensures r.0.callId == call.id && r.0.name == call.name && r.0.arguments == call.arguments
    ensures r.0.source.PolicyGuard? <==> TurnedAway(w, c, call)
    ensures r.0.source.PolicyGuard? ==> !r.0.ok
    ensures r.1 == if TurnedAway(w, c, call) then executed else executed + [call]
  {
    if TurnedAway(w, c, call) then
      (Record(call.id, call.name, call.arguments, PolicyGuard, false, w.policy(call).result), executed)
    else
      var outcome := w.registry(executed, call);
      (Record(call.id, call.name, call.arguments, Requested, outcome.ok, outcome.result), executed + [call])
  }

  // ---- rounds ----

  datatype Round = Round(response: ChatResponse, records: seq<Record>)

  type Delivery = (ToolCall, Record) -> Message

  function Delivering(w: World, c: Config): Delivery
    requires c.toolResultMaxChars > 0
  {
    (call, record) => ToolResultMessage(call, w.messagePayload(record), c.toolResultMaxChars)
  }

  function ToolMessages(deliver: Delivery, calls: seq<ToolCall>, records: seq<Record>): seq<Message>
    requires |calls| == |records|
  {
    if calls == [] then []
    else
      var k := |calls| - 1;
      ToolMessages(deliver, calls[..k], records[..k]) + [deliver(calls[k], records[k])]
  }

  /** Each call of a round is answered once, in order, under its own id, within the size limit. */
  lemma {:induction false} ToolMessagesAnswer(w: World, c: Config, calls: seq<ToolCall>, records: seq<Record>, i: nat)
    requires ValidConfig(c) && |calls| == |records| && i < |calls|
    ensures var messages := ToolMessages(Delivering(w, c), calls, records);
      && |messages| == |calls|
      && messages[i] == ToolResult(calls[i].id, calls[i].name, Truncated(w.messagePayload(records[i]), c.toolResultMaxChars))
      && |messages[i].content| <= c.toolResultMaxChars
  {
    var k := |calls| - 1;
    TruncationLaws(w.messagePayload(records[i]), c.toolResultMaxChars);
    if k > 0 {
      ToolMessagesAnswer(w, c, calls[..k], records[..k], if i < k then i else 0);
    }
  }

  predicate RecordsMatch(calls: seq<ToolCall>, records: seq<Record>) {
    |calls| == |records| &&
    forall i | 0 <= i < |calls| ::
      records[i].callId == calls[i].id && records[i].name == calls[i].name && records[i].arguments == calls[i].arguments
  }

  /** A round asks for at least one tool and has one record per call, in order. */
  ghost predicate ValidRound(r: Round) {
    r.response.toolCalls != [] && RecordsMatch(r.response.toolCalls, r.records)
  }

  ghost function RoundMessages(deliver: Delivery, r: Round): seq<Message>
    requires ValidRound(r)
  {
    [Assistant(r.response.content, r.response.toolCalls)] + ToolMessages(deliver, r.response.toolCalls, r.records)
  }

  ghost predicate ValidRounds(rounds: seq<Round>) { forall r | r in rounds :: ValidRound(r) }

  /** The messages after the given rounds. */
  ghost function Transcript(prompt: seq<Message>, deliver: Delivery, rounds: seq<Round>): seq<Message>
    requires ValidRounds(rounds)
  {
    if rounds == [] then prompt
    else
      var k := |rounds| - 1;
      assert rounds[k] in rounds;
      Transcript(prompt, deliver, rounds[..k]) + RoundMessages(deliver, rounds[k])
  }

  ghost function RecordsOf(rounds: seq<Round>): seq<Record> {
    if rounds == [] then [] else RecordsOf(rounds[..|rounds| - 1]) + rounds[|rounds| - 1].records
  }

  ghost function CallsOf(rounds: seq<Round>): seq<ToolCall> {
    if rounds == [] then [] else CallsOf(rounds[..|rounds| - 1]) + rounds[|rounds| - 1].response.toolCalls
  }

  predicate IsOk(r: Record) { r.ok }

  function NameOf(r: Record): string { r.name }

  function OkNames(records: seq<Record>): seq<string> { Map(Filter(records, IsOk), NameOf) }

  function PassesGuard(w: World, c: Config): ToolCall -> bool { call => !TurnedAway(w, c, call) }

  /** Round k was asked for with the transcript of the rounds before it, and is what the model answered. */
  ghost predicate Consulted(prompt: seq<Message>, deliver: Delivery, llm: seq<Message> -> ChatResponse, rounds: seq<Round>, chats: seq<seq<Message>>)
    requires ValidRounds(rounds)
  {
    |chats| == |rounds| && forall k | 0 <= k < |rounds| ::
      chats[k] == Transcript(prompt, deliver, rounds[..k]) && rounds[k].response == llm(chats[k])
  }

  type Execution = (seq<ToolCall>, ToolCall) -> Record

  function Executing(w: World, c: Config): Execution { (executed, call) => ExecuteToolCall(w, c, executed, call).0 }

  /** Every record answers its call in the state left by the calls let through before it. */
  ghost predicate RecordsFollow(execute: Execution, passes: ToolCall -> bool, executed: seq<ToolCall>, calls: seq<ToolCall>, records: seq<Record>) {
    |calls| == |records| &&
    forall i | 0 <= i < |calls| :: records[i] == execute(executed + Filter(calls[..i], passes), calls[i])
  }

  ghost predicate Answered(execute: Execution, passes: ToolCall -> bool, rounds: seq<Round>) {
    forall k | 0 <= k < |rounds| ::
      RecordsFollow(execute, passes, Filter(CallsOf(rounds[..k]), passes), rounds[k].response.toolCalls, rounds[k].records)
  }

  // What the inner loop has produced after the first calls of a response.
  ghost predicate CallsDone(deliver: Delivery, passes: ToolCall -> bool, calls: seq<ToolCall>, executed: seq<ToolCall>,
                            records: seq<Record>, invoked: seq<string>, messages: seq<Message>, executed': seq<ToolCall>)
  {
    && RecordsMatch(calls, records)
    && invoked == OkNames(records)
    && messages == ToolMessages(deliver, calls, records)
    && executed' == executed + Filter(calls, passes)
  }

  lemma MessagesStep(deliver: Delivery, calls: seq<ToolCall>, records: seq<Record>, call: ToolCall, record: Record)
    requires |calls| == |records|
    ensures ToolMessages(deliver, calls + [call], records + [record]) == ToolMessages(deliver, calls, records) + [deliver(call, record)]
  {
    assert (calls + [call])[..|calls|] == calls && (records + [record])[..|calls|] == records;
  }

  lemma CallsStep(deliver: Delivery, passes: ToolCall -> bool, calls: seq<ToolCall>, executed: seq<ToolCall>, records: seq<Record>,
                  invoked: seq<string>, messages: seq<Message>, executed': seq<ToolCall>, call: ToolCall, record: Record)
    requires CallsDone(deliver, passes, calls, executed, records, invoked, messages, executed')
    requires record.callId == call.id && record.name == call.name && record.arguments == call.arguments
    ensures CallsDone(deliver, passes, calls + [call], executed, records + [record],
      if record.ok then invoked + [record.name] else invoked,
      messages + [deliver(call, record)],
      if passes(call) then executed' + [call] else executed')
  {
    FilterSnoc(calls, call, passes);
    MapFilterSnoc(records, record, IsOk, NameOf);
    MessagesStep(deliver, calls, records, call, record);
    Assoc(executed, Filter(calls, passes), [call]);
    assert Filter(calls, passes) + [] == Filter(calls, passes) && invoked + [] == invoked;
  }

  lemma FollowStep(execute: Execution, passes: ToolCall -> bool, executed: seq<ToolCall>, calls: seq<ToolCall>, records: seq<Record>, call: ToolCall)
    requires RecordsFollow(execute, passes, executed, calls, records)
    ensures RecordsFollow(execute, passes, executed, calls + [call], records + [execute(executed + Filter(calls, passes), call)])
  {
    var all := calls + [call];
    assert all[..|calls|] == calls;
    assert forall i | 0 <= i < |calls| :: all[..i] == calls[..i];
  }

  /** The inner loop: runs the calls of one response. */
  method ExecuteCalls(w: World, c: Config, deliver: Delivery, calls: seq<ToolCall>, executed: seq<ToolCall>)
    returns (records: seq<Record>, invoked: seq<string>, messages: seq<Message>, executed': seq<ToolCall>)
    ensures CallsDone(deliver, PassesGuard(w, c), calls, executed, records, invoked, messages, executed')
    ensures RecordsFollow(Executing(w, c), PassesGuard(w, c), executed, calls, records)
  {
    ghost var passes := PassesGuard(w, c);
    records, invoked, messages, executed' := [], [], [], executed;
    for k := 0 to |calls|
      invariant CallsDone(deliver, passes, calls[..k], executed, records, invoked, messages, executed')
      invariant RecordsFollow(Executing(w, c), passes, executed, calls[..k], records)
    {
      var call := calls[k];
      var (record, log) := ExecuteToolCall(w, c, executed', call);
      CallsStep(deliver, passes, calls[..k], executed, records, invoked, messages, executed', call, record);
      FollowStep(Executing(w, c), passes, executed, calls[..k], records, call);
      TakeNext(calls, k);
      executed' := log;
      records := records + [record];
      if record.ok {
        invoked := invoked + [record.name];
      }
      messages := messages + [deliver(call, record)];
    }
    assert calls[..|calls|] == calls;
  }

  // ---- the round loop ----

  // The loop state: everything accumulated is determined by the rounds so far.
  ghost predicate RoundsDone(prompt: seq<Message>, deliver: Delivery, llm: seq<Message> -> ChatResponse, passes: ToolCall -> bool,
                             rounds: seq<Round>, chats: seq<seq<Message>>, messages: seq<Message>,
                             records: seq<Record>, invoked: seq<string>, executed: seq<ToolCall>)
  {
    && ValidRounds(rounds)
    && Consulted(prompt, deliver, llm, rounds, chats)
    && messages == Transcript(prompt, deliver, rounds)
    && records == RecordsOf(rounds)
    && invoked == OkNames(records)
    && executed == Filter(CallsOf(rounds), passes)
  }

  lemma ConsultedStep(prompt: seq<Message>, deliver: Delivery, llm: seq<Message> -> ChatResponse,
                      rounds: seq<Round>, chats: seq<seq<Message>>, r: Round)
    requires ValidRounds(rounds) && ValidRound(r) && Consulted(prompt, deliver, llm, rounds, chats)
    requires r.response == llm(Transcript(prompt, deliver, rounds))
    ensures ValidRounds(rounds + [r])
    ensures Consulted(prompt, deliver, llm, rounds + [r], chats + [Transcript(prompt, deliver, rounds)])
    ensures Transcript(prompt, deliver, rounds + [r]) == Transcript(prompt, deliver, rounds) + RoundMessages(deliver, r)
  {
    var after, asked := rounds + [r], chats + [Transcript(prompt, deliver, rounds)];
    assert after[..|rounds|] == rounds;
    forall k | 0 <= k < |after|
      ensures asked[k] == Transcript(prompt, deliver, after[..k]) && after[k].response == llm(asked[k])
    {
      assert k < |rounds| ==> after[..k] == rounds[..k];
    }
  }

  lemma AnsweredStep(execute: Execution, passes: ToolCall -> bool, rounds: seq<Round>, r: Round)
    requires Answered(execute, passes, rounds)
    requires RecordsFollow(execute, passes, Filter(CallsOf(rounds), passes), r.response.toolCalls, r.records)
    ensures Answered(execute, passes, rounds + [r])
  {
    var after := rounds + [r];
    assert after[..|rounds|] == rounds;
    assert forall k | 0 <= k < |rounds| :: after[..k] == rounds[..k];
  }

  lemma AccountsStep(passes: ToolCall -> bool, rounds: seq<Round>, r: Round)
    ensures RecordsOf(rounds + [r]) == RecordsOf(rounds) + r.records
    ensures OkNames(RecordsOf(rounds + [r])) == OkNames(RecordsOf(rounds)) + OkNames(r.records)
    ensures Filter(CallsOf(rounds + [r]), passes) == Filter(CallsOf(rounds), passes) + Filter(r.response.toolCalls, passes)
  {
    assert (rounds + [r])[..|rounds|] == rounds;
    MapFilterAppend(RecordsOf(rounds), r.records, IsOk, NameOf);
    FilterAppend(CallsOf(rounds), r.response.toolCalls, passes);
  }

  lemma RoundsStep(prompt: seq<Message>, deliver: Delivery, llm: seq<Message> -> ChatResponse, passes: ToolCall -> bool,
                   rounds: seq<Round>, chats: seq<seq<Message>>, messages: seq<Message>,
                   records: seq<Record>, invoked: seq<string>, executed: seq<ToolCall>,
                   r: Round, newInvoked: seq<string>, newMessages: seq<Message>, executed': seq<ToolCall>)
    requires RoundsDone(prompt, deliver, llm, passes, rounds, chats, messages, records, invoked, executed)
    requires r.response == llm(messages) && r.response.toolCalls != []
    requires CallsDone(deliver, passes, r.response.toolCalls, executed, r.records, newInvoked, newMessages, executed')
    ensures RoundsDone(prompt, deliver, llm, passes, rounds + [r], chats + [messages],
      messages + ([Assistant(r.response.content, r.response.toolCalls)] + newMessages),
      records + r.records, invoked + newInvoked, executed')
  {
    ConsultedStep(prompt, deliver, llm, rounds, chats, r);
    AccountsStep(passes, rounds, r);
  }

  // ---- results ----

  datatype TurnStatus = Completed | MaxToolRoundsExceeded | ClarificationRequired | ForcedCapacityError | ForcedCapacityExecuted

  datatype TurnResult = TurnResult(
    status: TurnStatus,
    outputText: string,
    rawOutputText: string,
    messages: seq<Message>,
    toolRecords: seq<Record>,
    invokedTools: seq<string>,
    grounding: Validation,
    llmRounds: nat)

  const MAX_ROUNDS_TEXT :=
    "I reached the maximum tool-call rounds before producing a final answer. Please narrow the request or increase max_tool_rounds."

  function ReportOrOriginal(text: string, report: Option<string>, useWhenEmpty: bool): string {
    if useWhenEmpty && Strip(text) == "" && report.Some? then report.value else text
  }

  function Gated(w: World, status: TurnStatus, text: string, userMessage: string): TurnResult {
    var grounding := ValidateGrounding(w.grounder, text, []);
    TurnResult(status, grounding.outputText, text, [Plain("user", userMessage)], [], [], grounding, 0)
  }

  /** The forced capacity route, None when the message is not one. */
  function HandleForcedCapacity(w: World, c: Config, userMessage: string): Option<TurnResult> {
    match w.forced
    case NotRouted => None
    case Unexecuted(clarification, errorText) =>
      Some(Gated(w, if clarification.Some? then ClarificationRequired else ForcedCapacityError,
        if clarification.Some? then clarification.value else errorText, userMessage))
    case Executed(name, arguments, ok, result, summary) =>
      var record := Record("forced_capacity", name, arguments, ForcedRouting, ok, result);
      var text := ReportOrOriginal(summary, w.report([record]), c.reportWhenEmpty);
      var invoked := if ok then [name] else [];
      var grounding := ValidateGrounding(w.grounder, text, invoked);
      Some(TurnResult(if ok then ForcedCapacityExecuted else ForcedCapacityError, grounding.outputText, text,
        [Plain("user", userMessage)], [record], invoked, grounding, 0))
  }

  /** The gates in front of the model, in order. */
  function Gates(w: World, c: Config, userMessage: string): Option<TurnResult> {
    var forced := if c.forcedRouting then HandleForcedCapacity(w, c, userMessage) else None;
    if forced.Some? then forced
    else if w.limitation.Some? then Some(Gated(w, Completed, w.limitation.value, userMessage))
    else if c.readinessGate && w.readiness.Some? then Some(Gated(w, ClarificationRequired, w.readiness.value, userMessage))
    else None
  }

  /** The output is the checked form of `text`: an unsafe numeric claim in it is warned about, or a successful record
      names a solver-backed tool; nothing else is changed. */
  ghost predicate Grounded(w: World, text: string, r: TurnResult) {
    && r.grounding == ValidateGrounding(w.grounder, text, r.invokedTools)
    && r.outputText == r.grounding.outputText
    && ((exists m | m in Listed(w.grounder, text) :: !w.grounder.isSafe(text, m)) ==>
          (Contains(r.outputText, w.grounder.warning)
           || exists record | record in r.toolRecords :: record.ok && record.name in w.grounder.capableTools))
    && (r.outputText == text || r.outputText == RStrip(text) + "\n\n" + w.grounder.warning)
  }

  lemma GroundedBy(w: World, text: string, r: TurnResult)
    requires r.grounding == ValidateGrounding(w.grounder, text, r.invokedTools)
    requires r.outputText == r.grounding.outputText && r.invokedTools == OkNames(r.toolRecords)
    ensures Grounded(w, text, r)
  {
    GroundedOutput(w.grounder, text, r.invokedTools);
    if HasGroundingCredit(w.grounder, r.invokedTools) {
      CreditHasRecord(w, r);
    }
  }

  lemma CreditHasRecord(w: World, r: TurnResult)
    requires HasGroundingCredit(w.grounder, r.invokedTools) && r.invokedTools == OkNames(r.toolRecords)
    ensures exists record | record in r.toolRecords :: record.ok && record.name in w.grounder.capableTools
  {
    var kept := Filter(r.toolRecords, IsOk);
    var name :| name in r.invokedTools && name in w.grounder.capableTools;
    var i :| 0 <= i < |kept| && NameOf(kept[i]) == name;
    assert kept[i] in r.toolRecords && kept[i].ok;
  }

  /** The text a result of the round loop is made from: the model's trimmed answer, or the report when that is blank;
      after the last round the fixed text, with the report appended if so configured. */
  function LoopText(w: World, c: Config, completed: bool, answer: string, records: seq<Record>): string {
    if completed then ReportOrOriginal(Strip(answer), w.report(records), c.reportWhenEmpty)
    else if c.reportOnMaxRounds && w.report(records).Some?
    then MAX_ROUNDS_TEXT + "\n\nDeterministic tool report: " + w.report(records).value
    else MAX_ROUNDS_TEXT
  }

  /** The texts of a result of the round loop whose last answer of the model was `answer`. */
  ghost predicate LoopOutput(w: World, c: Config, r: TurnResult, answer: string) {
    var text := LoopText(w, c, r.status.Completed?, answer, r.toolRecords);
    && r.rawOutputText == (if r.status.Completed? then Strip(answer) else text)
    && Grounded(w, text, r)
  }

  /** A result of the round loop, with the rounds, model calls and registry calls behind it. */
  ghost predicate LoopResult(w: World, c: Config, r: TurnResult, rounds: seq<Round>, chats: seq<seq<Message>>, executed: seq<ToolCall>)
    requires ValidConfig(c)
  {
    var deliver := Delivering(w, c);
    && ValidRounds(rounds) && |rounds| <= r.llmRounds <= c.maxToolRounds && |chats| == r.llmRounds
    && Consulted(w.prompt, deliver, w.llm, rounds, chats[..|rounds|])
    && r.toolRecords == RecordsOf(rounds) && r.invokedTools == OkNames(r.toolRecords)
    && executed == Filter(CallsOf(rounds), PassesGuard(w, c))
    && Answered(Executing(w, c), PassesGuard(w, c), rounds)
    && (if r.status.Completed? then
          && r.llmRounds == |rounds| + 1
          && chats[|rounds|] == Transcript(w.prompt, deliver, rounds)
          && w.llm(chats[|rounds|]).toolCalls == []
          && r.messages == chats[|rounds|] + [Assistant(w.llm(chats[|rounds|]).content, [])]
          && LoopOutput(w, c, r, w.llm(chats[|rounds|]).content)
        else
          && r.status.MaxToolRoundsExceeded? && r.llmRounds == |rounds| == c.maxToolRounds
          && r.messages == Transcript(w.prompt, deliver, rounds)
          && LoopOutput(w, c, r, ""))
  }

  // The result of a loop that ends with `text`.
  function Ended(w: World, status: TurnStatus, text: string, raw: string, messages: seq<Message>, records: seq<Record>,
                 invoked: seq<string>, llmRounds: nat): TurnResult {
    var grounding := ValidateGrounding(w.grounder, text, invoked);
    TurnResult(status, grounding.outputText, raw, messages, records, invoked, grounding, llmRounds)
  }

  lemma EndedOutput(w: World, c: Config, completed: bool, answer: string, raw: string, messages: seq<Message>, records: seq<Record>, llmRounds: nat)
    requires raw == if completed then Strip(answer) else LoopText(w, c, completed, answer, records)
    ensures LoopOutput(w, c, Ended(w, if completed then Completed else MaxToolRoundsExceeded,
      LoopText(w, c, completed, answer, records), raw, messages, records, OkNames(records), llmRounds), answer)
  {
    var text := LoopText(w, c, completed, answer, records);
    GroundedBy(w, text, Ended(w, if completed then Completed else MaxToolRoundsExceeded, text, raw, messages, records, OkNames(records), llmRounds));
  }

  lemma CompletedResult(w: World, c: Config, rounds: seq<Round>, chats: seq<seq<Message>>, messages: seq<Message>,
                        records: seq<Record>, invoked: seq<string>, executed: seq<ToolCall>)
    requires ValidConfig(c) && |rounds| + 1 <= c.maxToolRounds && w.llm(messages).toolCalls == []
    requires RoundsDone(w.prompt, Delivering(w, c), w.llm, PassesGuard(w, c), rounds, chats, messages, records, invoked, executed)
    requires Answered(Executing(w, c), PassesGuard(w, c), rounds)
    ensures var answer := w.llm(messages).content;
      LoopResult(w, c, Ended(w, Completed, LoopText(w, c, true, answer, records), Strip(answer),
        messages + [Assistant(answer, [])], records, invoked, |rounds| + 1), rounds, chats + [messages], executed)
  {
    assert (chats + [messages])[..|rounds|] == chats;
    EndedOutput(w, c, true, w.llm(messages).content, Strip(w.llm(messages).content),
      messages + [Assistant(w.llm(messages).content, [])], records, |rounds| + 1);
  }

  lemma ExhaustedResult(w: World, c: Config, rounds: seq<Round>, chats: seq<seq<Message>>, messages: seq<Message>,
                        records: seq<Record>, invoked: seq<string>, executed: seq<ToolCall>)
    requires ValidConfig(c) && |rounds| == c.maxToolRounds
    requires RoundsDone(w.prompt, Delivering(w, c), w.llm, PassesGuard(w, c), rounds, chats, messages, records, invoked, executed)
    requires Answered(Executing(w, c), PassesGuard(w, c), rounds)
    ensures var text := LoopText(w, c, false, "", records);
      LoopResult(w, c, Ended(w, MaxToolRoundsExceeded, text, text, messages, records, invoked, |rounds|), rounds, chats, executed)
  {
    assert chats[..|rounds|] == chats;
    EndedOutput(w, c, false, "", LoopText(w, c, false, "", records), messages, records, |rounds|);
  }

  method RunRounds(w: World, c: Config) returns (r: TurnResult, ghost rounds: seq<Round>, ghost chats: seq<seq<Message>>, ghost executed: seq<ToolCall>)
    requires ValidConfig(c)
    ensures 1 <= r.llmRounds <= c.maxToolRounds && r.invokedTools == OkNames(r.toolRecords)
    ensures LoopResult(w, c, r, rounds, chats, executed)
  {
    var deliver := Delivering(w, c);
    ghost var passes := PassesGuard(w, c);
    var messages, records, invoked, done := w.prompt, [], [], [];
    rounds, chats, executed := [], [], [];
    for index := 0 to c.maxToolRounds
      invariant RoundsDone(w.prompt, deliver, w.llm, passes, rounds, chats, messages, records, invoked, done)
      invariant |rounds| == index && Answered(Executing(w, c), passes, rounds)
    {
      var response := w.llm(messages);
      if response.toolCalls == [] {
        var text := ReportOrOriginal(Strip(response.content), w.report(records), c.reportWhenEmpty);
        r := Ended(w, Completed, text, Strip(response.content), messages + [Assistant(response.content, [])], records, invoked, index + 1);
        CompletedResult(w, c, rounds, chats, messages, records, invoked, done);
        executed, chats := done, chats + [messages];
        return;
      }
      var newRecords, newInvoked, newMessages, done' := ExecuteCalls(w, c, deliver, response.toolCalls, done);
      RoundsStep(w.prompt, deliver, w.llm, passes, rounds, chats, messages, records, invoked, done,
        Round(response, newRecords), newInvoked, newMessages, done');
      AnsweredStep(Executing(w, c), passes, rounds, Round(response, newRecords));
      rounds, chats := rounds + [Round(response, newRecords)], chats + [messages];
      messages := messages + ([Assistant(response.content, response.toolCalls)] + newMessages);
      records, invoked, done := records + newRecords, invoked + newInvoked, done';
    }
    var report := w.report(records);
    var text := if c.reportOnMaxRounds && report.Some?
      then MAX_ROUNDS_TEXT + "\n\nDeterministic tool report: " + report.value
      else MAX_ROUNDS_TEXT;
    r := Ended(w, MaxToolRoundsExceeded, text, text, messages, records, invoked, c.maxToolRounds);
    ExhaustedResult(w, c, rounds, chats, messages, records, invoked, done);
    executed := done;
  }

  // A result given before the model was asked anything.
  ghost predicate GateResult(w: World, r: TurnResult, userMessage: string) {
    && r.llmRounds == 0 && r.messages == [Plain("user", userMessage)]
    && |r.toolRecords| <= 1 && r.invokedTools == OkNames(r.toolRecords)
    && r.grounding == ValidateGrounding(w.grounder, r.rawOutputText, r.invokedTools)
    && r.outputText == r.grounding.outputText
  }

  lemma OkNamesSingle(record: Record)
    ensures OkNames([]) == []
    ensures OkNames([record]) == if record.ok then [record.name] else []
  {
  }

  lemma ForcedGate(w: World, c: Config, userMessage: string)
    ensures var r := HandleForcedCapacity(w, c, userMessage); r.Some? ==> GateResult(w, r.value, userMessage)
  {
    match w.forced
    case NotRouted =>
    case Unexecuted(_, _) =>
      assert OkNames([]) == [];
    case Executed(name, arguments, ok, result, _) =>
      OkNamesSingle(Record("forced_capacity", name, arguments, ForcedRouting, ok, result));
  }

  lemma GatesGrounded(w: World, c: Config, userMessage: string)
    ensures var r := Gates(w, c, userMessage); r.Some? ==> GateResult(w, r.value, userMessage) && Grounded(w, r.value.rawOutputText, r.value)
  {
    ForcedGate(w, c, userMessage);
    assert OkNames([]) == [];
    var r := Gates(w, c, userMessage);
    if r.Some? {
      GroundedBy(w, r.value.rawOutputText, r.value);
    }
  }

  /** The text a turn's output is made from: what the gate said, or what the loop ended with. */
  ghost function FinalText(w: World, c: Config, userMessage: string, r: TurnResult, chats: seq<seq<Message>>): string {
    if Gates(w, c, userMessage).Some? then r.rawOutputText
    else LoopText(w, c, r.status.Completed?, if r.status.Completed? && chats != [] then w.llm(chats[|chats| - 1]).content else "", r.toolRecords)
  }

  /** A blank message is refused; otherwise the first gate that speaks ends the turn, and the rounds run when none does.
      The prompt of `w` is the one built for this message. */
  method RunTurn(w: World, c: Config, userMessage: string)
    returns (r: Result<TurnResult, string>, ghost rounds: seq<Round>, ghost chats: seq<seq<Message>>, ghost executed: seq<ToolCall>)
    requires ValidConfig(c)
    ensures r.Err? <==> Strip(userMessage) == ""
    ensures r.Ok? ==> Grounded(w, FinalText(w, c, userMessage, r.value, chats), r.value)
    ensures r.Ok? && Gates(w, c, userMessage).Some? ==>
      r.value == Gates(w, c, userMessage).value && GateResult(w, r.value, userMessage) && chats == [] && executed == []
    ensures r.Ok? && Gates(w, c, userMessage).None? ==> LoopResult(w, c, r.value, rounds, chats, executed)
  {
    rounds, chats, executed := [], [], [];
    if Strip(userMessage) == "" {
      return Err("user_message must be a non-empty string"), rounds, chats, executed;
    }
    GatesGrounded(w, c, userMessage);
    var gated := Gates(w, c, userMessage);
    if gated.Some? {
      return Ok(gated.value), rounds, chats, executed;
    }
    var result;
    result, rounds, chats, executed := RunRounds(w, c);
    r := Ok(result);
  }

  /** What every record of a turn says. A call the guard refuses leaves the policy's answer and never reaches the registry;
      any other call is the registry's next one, after the calls let through before it, and leaves the registry's answer.
      Its name counts as invoked if that answer is ok. */
  lemma GuardIsRespected(w: World, c: Config, r: TurnResult, rounds: seq<Round>, chats: seq<seq<Message>>, executed: seq<ToolCall>,
                         k: nat, i: nat)
    returns (before: seq<ToolCall>)
    requires ValidConfig(c) && true == LoopResult(w, c, r, rounds, chats, executed)
    requires k < |rounds| && i < |rounds[k].response.toolCalls|
    ensures rounds[k] in rounds && ValidRound(rounds[k]) && rounds[k].records[i] in r.toolRecords
    ensures before <= executed
    ensures var call, record := rounds[k].response.toolCalls[i], rounds[k].records[i];
      if c.policyGuard && w.policy(call).Refused? then
        record == Record(call.id, call.name, call.arguments, PolicyGuard, false, w.policy(call).result) && call !in executed
      else
        var answer := w.registry(before, call);
        && record == Record(call.id, call.name, call.arguments, Requested, answer.ok, answer.result)
        && before + [call] <= executed
        && (answer.ok ==> call.name in r.invokedTools)
  {
    var execute, passes := Executing(w, c), PassesGuard(w, c);
    var calls, record := rounds[k].response.toolCalls, rounds[k].records[i];
    InCallsOf(rounds, k, calls[i]);
    before := Filter(CallsOf(rounds[..k]), passes) + Filter(calls[..i], passes);
    LogBefore(rounds, passes, k, i);
    assert RecordsFollow(execute, passes, Filter(CallsOf(rounds[..k]), passes), calls, rounds[k].records);
    assert record == ExecuteToolCall(w, c, before, calls[i]).0;
    InRecordsOf(rounds, k, record);
    if record.ok {
      OkNameListed(r.toolRecords, record);
    }
  }

  lemma OkNameListed(records: seq<Record>, record: Record)
    requires record in records && record.ok
    ensures record.name in OkNames(records)
  {
    var kept := Filter(records, IsOk);
    var i :| 0 <= i < |kept| && kept[i] == record;
    assert OkNames(records)[i] == record.name;
  }

  // The calls let through before call i of round k are the log's first ones, and the call itself is next if it passes.
  lemma LogBefore(rounds: seq<Round>, passes: ToolCall -> bool, k: nat, i: nat)
    requires k < |rounds| && i < |rounds[k].response.toolCalls|
    ensures var calls := rounds[k].response.toolCalls;
      var before := Filter(CallsOf(rounds[..k]), passes) + Filter(calls[..i], passes);
      && before <= Filter(CallsOf(rounds), passes)
      && (passes(calls[i]) ==> before + [calls[i]] <= Filter(CallsOf(rounds), passes))
  {
    CallsOfPrefix(rounds, k + 1);
    assert rounds[..k + 1][..k] == rounds[..k];
    FilterPrefixAt(CallsOf(rounds[..k]), rounds[k].response.toolCalls, CallsOf(rounds), i, passes);
  }

  lemma PrefixAt<T>(a: seq<T>, b: seq<T>, all: seq<T>, i: nat)
    requires a + b <= all && i < |b|
    ensures |a| + i < |all| && all[..|a| + i] == a + b[..i] && all[|a| + i] == b[i]
  {
    var ab := a + b;
    assert ab[..|a| + i] == a + b[..i] && ab[|a| + i] == b[i];
    assert all[..|a| + i] == ab[..|a| + i];
  }

  lemma FilterPrefixAt<T(!new)>(a: seq<T>, b: seq<T>, all: seq<T>, i: nat, p: T -> bool)
    requires a + b <= all && i < |b|
    ensures var before := Filter(a, p) + Filter(b[..i], p);
      before <= Filter(all, p) && (p(b[i]) ==> before + [b[i]] <= Filter(all, p))
  {
    var n := |a| + i;
    PrefixAt(a, b, all, i);
    FilterAppend(a, b[..i], p);
    assert Filter(all[..n], p) == Filter(a, p) + Filter(b[..i], p);
    FilterAt(all, n, p);
  }

  lemma {:induction false} CallsOfPrefix(rounds: seq<Round>, k: nat)
    requires k <= |rounds|
    ensures CallsOf(rounds[..k]) <= CallsOf(rounds)
  {
    if k == |rounds| {
      assert rounds[..k] == rounds;
    } else {
      var front := rounds[..|rounds| - 1];
      assert front[..k] == rounds[..k];
      CallsOfPrefix(front, k);
    }
  }

  lemma {:induction false} InRecordsOf(rounds: seq<Round>, k: nat, record: Record)
    requires k < |rounds| && record in rounds[k].records
    ensures record in RecordsOf(rounds)
  {
    if k < |rounds| - 1 {
      InRecordsOf(rounds[..|rounds| - 1], k, record);
    }
  }

  lemma {:induction false} RoundOfRecord(rounds: seq<Round>, record: Record) returns (k: nat, i: nat)
    requires record in RecordsOf(rounds)
    ensures k < |rounds| && i < |rounds[k].records| && rounds[k].records[i] == record
  {
    var n := |rounds| - 1;
    if record in RecordsOf(rounds[..n]) {
      k, i := RoundOfRecord(rounds[..n], record);
    } else {
      k := n;
      i :| 0 <= i < |rounds[n].records| && rounds[n].records[i] == record;
    }
  }

  /** A name counts as invoked only if the registry executed a call of that name and answered it with ok. */
  lemma InvokedToolsSucceeded(w: World, c: Config, r: TurnResult, rounds: seq<Round>, chats: seq<seq<Message>>, executed: seq<ToolCall>,
                              name: string)
    returns (call: ToolCall, before: seq<ToolCall>)
    requires ValidConfig(c) && true == LoopResult(w, c, r, rounds, chats, executed) && name in r.invokedTools
    ensures call.name == name && call in CallsOf(rounds) && before + [call] <= executed && w.registry(before, call).ok
  {
    var kept := Filter(r.toolRecords, IsOk);
    var n :| 0 <= n < |kept| && NameOf(kept[n]) == name;
    assert kept[n] in kept;
    var k, i := RoundOfRecord(rounds, kept[n]);
    assert ValidRound(rounds[k]);
    before := GuardIsRespected(w, c, r, rounds, chats, executed, k, i);
    call := rounds[k].response.toolCalls[i];
    InCallsOf(rounds, k, call);
  }

  // ---- the transcript, place by place ----

  /** Where round k starts in the transcript. */
  ghost function StartOf(promptLength: nat, rounds: seq<Round>, k: nat): nat
    requires k <= |rounds|
  {
    if k == 0 then promptLength else StartOf(promptLength, rounds, k - 1) + 1 + |rounds[k - 1].response.toolCalls|
  }

  lemma {:induction false} StartOfFront(promptLength: nat, rounds: seq<Round>, n: nat, k: nat)
    requires k <= n <= |rounds|
    ensures StartOf(promptLength, rounds[..n], k) == StartOf(promptLength, rounds, k)
  {
    if k > 0 {
      StartOfFront(promptLength, rounds, n, k - 1);
    }
  }

  lemma {:induction false} ToolMessageAt(deliver: Delivery, calls: seq<ToolCall>, records: seq<Record>, i: nat)
    requires |calls| == |records| && i < |calls|
    ensures |ToolMessages(deliver, calls, records)| == |calls| && ToolMessages(deliver, calls, records)[i] == deliver(calls[i], records[i])
  {
    var k := |calls| - 1;
    if k > 0 {
      ToolMessageAt(deliver, calls[..k], records[..k], if i < k then i else 0);
    }
  }

  lemma {:induction false} TranscriptLength(prompt: seq<Message>, deliver: Delivery, rounds: seq<Round>)
    requires ValidRounds(rounds)
    ensures |Transcript(prompt, deliver, rounds)| == StartOf(|prompt|, rounds, |rounds|)
    ensures prompt <= Transcript(prompt, deliver, rounds)
  {
    if rounds != [] {
      var n := |rounds| - 1;
      assert ValidRound(rounds[n]);
      TranscriptLength(prompt, deliver, rounds[..n]);
      StartOfFront(|prompt|, rounds, n, n);
      ToolMessageAt(deliver, rounds[n].response.toolCalls, rounds[n].records, 0);
    }
  }

  /** From `start` on: the model's message, then the message of every call, in order. */
  ghost predicate RoundAt(messages: seq<Message>, start: nat, deliver: Delivery, round: Round) {
    var calls := round.response.toolCalls;
    && |round.records| == |calls| && start + |calls| < |messages|
    && messages[start] == Assistant(round.response.content, calls)
    && forall i | 0 <= i < |calls| :: messages[start + 1 + i] == deliver(calls[i], round.records[i])
  }

  lemma RoundMessagesAt(before: seq<Message>, deliver: Delivery, round: Round)
    requires ValidRound(round)
    ensures RoundAt(before + RoundMessages(deliver, round), |before|, deliver, round)
  {
    forall i | 0 <= i < |round.response.toolCalls|
      ensures |ToolMessages(deliver, round.response.toolCalls, round.records)| == |round.response.toolCalls|
      ensures ToolMessages(deliver, round.response.toolCalls, round.records)[i] == deliver(round.response.toolCalls[i], round.records[i])
    {
      ToolMessageAt(deliver, round.response.toolCalls, round.records, i);
    }
    assert round.response.toolCalls[0] in round.response.toolCalls;
  }

  lemma RoundAtPrefix(messages: seq<Message>, rest: seq<Message>, start: nat, deliver: Delivery, round: Round)
    requires RoundAt(messages, start, deliver, round)
    ensures RoundAt(messages + rest, start, deliver, round)
  {
  }

  /** After the prompt, the rounds follow each other at their places. */
  lemma {:induction false} TranscriptAt(prompt: seq<Message>, deliver: Delivery, rounds: seq<Round>, k: nat)
    requires ValidRounds(rounds) && k < |rounds|
    ensures RoundAt(Transcript(prompt, deliver, rounds), StartOf(|prompt|, rounds, k), deliver, rounds[k])
  {
    var n := |rounds| - 1;
    assert ValidRound(rounds[n]);
    var before := Transcript(prompt, deliver, rounds[..n]);
    StartOfFront(|prompt|, rounds, n, k);
    if k < n {
      TranscriptAt(prompt, deliver, rounds[..n], k);
      RoundAtPrefix(before, RoundMessages(deliver, rounds[n]), StartOf(|prompt|, rounds, k), deliver, rounds[k]);
    } else {
      TranscriptLength(prompt, deliver, rounds[..n]);
      RoundMessagesAt(before, deliver, rounds[n]);
    }
  }

  // The answer that ends a completed turn.
  ghost function Closing(r: TurnResult, answer: string): seq<Message> {
    if r.status.Completed? then [Assistant(answer, [])] else []
  }

  lemma MessagesOfLoop(w: World, c: Config, r: TurnResult, rounds: seq<Round>, chats: seq<seq<Message>>, executed: seq<ToolCall>)
    returns (answer: string)
    requires ValidConfig(c) && true == LoopResult(w, c, r, rounds, chats, executed)
    ensures ValidRounds(rounds) && r.messages == Transcript(w.prompt, Delivering(w, c), rounds) + Closing(r, answer)
    ensures r.status.Completed? ==> chats != [] && answer == w.llm(chats[|chats| - 1]).content
  {
    answer := if r.status.Completed? then w.llm(chats[|rounds|]).content else "";
    assert r.messages + [] == r.messages;
  }

  /** The messages of a turn, place by place: the prompt, then for each round what the model said and the message of every
      call; a completed turn ends with the model's answer. */
  lemma MessagesOfTurn(w: World, c: Config, r: TurnResult, rounds: seq<Round>, chats: seq<seq<Message>>, executed: seq<ToolCall>)
    returns (answer: string)
    requires ValidConfig(c) && true == LoopResult(w, c, r, rounds, chats, executed)
    ensures w.prompt <= r.messages
    ensures forall k | 0 <= k < |rounds| :: RoundAt(r.messages, StartOf(|w.prompt|, rounds, k), Delivering(w, c), rounds[k])
    ensures |r.messages| == StartOf(|w.prompt|, rounds, |rounds|) + |Closing(r, answer)|
    ensures r.status.Completed? ==>
      chats != [] && answer == w.llm(chats[|chats| - 1]).content && r.messages[|r.messages| - 1] == Assistant(answer, [])
  {
    answer := MessagesOfLoop(w, c, r, rounds, chats, executed);
    var deliver := Delivering(w, c);
    TranscriptLength(w.prompt, deliver, rounds);
    forall k | 0 <= k < |rounds| ensures RoundAt(r.messages, StartOf(|w.prompt|, rounds, k), deliver, rounds[k]) {
      TranscriptAt(w.prompt, deliver, rounds, k);
      RoundAtPrefix(Transcript(w.prompt, deliver, rounds), Closing(r, answer), StartOf(|w.prompt|, rounds, k), deliver, rounds[k]);
    }
  }

  // ---- the texts ----

  /** An answer with ink in it is never replaced; a blank one is, exactly when that is configured and there is a report. */
  lemma LoopTextMeaning(w: World, c: Config, answer: string, records: seq<Record>)
    ensures var text := LoopText(w, c, true, answer, records);
      if Strip(answer) == "" && c.reportWhenEmpty && w.report(records).Some? then text == w.report(records).value else text == Strip(answer)
    ensures var text := LoopText(w, c, false, answer, records);
      if c.reportOnMaxRounds && w.report(records).Some?
      then text == MAX_ROUNDS_TEXT + "\n\nDeterministic tool report: " + w.report(records).value
      else text == MAX_ROUNDS_TEXT
  {
    StripIdempotent(answer);
  }

  /** Which gate speaks, and what it says: a forced route first, then the limitation, then the readiness question. */
  lemma GatesMeaning(w: World, c: Config, userMessage: string)
    ensures var r := Gates(w, c, userMessage); var routed := c.forcedRouting && !w.forced.NotRouted?;
      && (r.None? <==> !routed && w.limitation.None? && !(c.readinessGate && w.readiness.Some?))
      && (routed && w.forced.Unexecuted? && w.forced.clarification.Some? ==>
            SaysOnly(r, ClarificationRequired, w.forced.clarification.value))
      && (routed && w.forced.Unexecuted? && w.forced.clarification.None? ==> SaysOnly(r, ForcedCapacityError, w.forced.errorText))
      && (routed && w.forced.Executed? ==>
            && r.Some? && r.value.status == (if w.forced.ok then ForcedCapacityExecuted else ForcedCapacityError)
            && r.value.toolRecords ==
                 [Record("forced_capacity", w.forced.toolName, w.forced.arguments, ForcedRouting, w.forced.ok, w.forced.result)]
            && r.value.invokedTools == (if w.forced.ok then [w.forced.toolName] else [])
            && (Strip(w.forced.summary) != "" ==> r.value.rawOutputText == w.forced.summary))
      && (!routed && w.limitation.Some? ==> SaysOnly(r, Completed, w.limitation.value))
      && (!routed && w.limitation.None? && c.readinessGate && w.readiness.Some? ==> SaysOnly(r, ClarificationRequired, w.readiness.value))
  {
  }

  ghost predicate SaysOnly(r: Option<TurnResult>, status: TurnStatus, text: string) {
    r.Some? && r.value.status == status && r.value.rawOutputText == text && r.value.toolRecords == [] && r.value.invokedTools == []
  }

  lemma {:induction false} InCallsOf(rounds: seq<Round>, k: nat, call: ToolCall)
    requires k < |rounds| && call in rounds[k].response.toolCalls
    ensures call in CallsOf(rounds)
  {
    if k < |rounds| - 1 {
      InCallsOf(rounds[..|rounds| - 1], k, call);
    }
  }

  predicate IsRefusal(r: Record) { r.source.PolicyGuard? }

  // The guard's records are those of the calls that do not pass.
  ghost predicate Labels(execute: Execution, passes: ToolCall -> bool) {
    forall executed, call :: IsRefusal(execute(executed, call)) == !passes(call)
  }

  lemma RoundIsConserved(execute: Execution, passes: ToolCall -> bool, executed: seq<ToolCall>, r: Round)
    requires Labels(execute, passes) && RecordsFollow(execute, passes, executed, r.response.toolCalls, r.records)
    ensures |Filter(r.records, IsRefusal)| + |Filter(r.response.toolCalls, passes)| == |r.records|
  {
    var calls := r.response.toolCalls;
    forall i | 0 <= i < |calls| ensures IsRefusal(r.records[i]) == !passes(calls[i]) {
      var before := executed + Filter(calls[..i], passes);
      assert r.records[i] == execute(before, calls[i]);
    }
    FilterOpposites(r.records, calls, IsRefusal, passes);
  }

  ghost predicate Balanced(passes: ToolCall -> bool, rounds: seq<Round>) {
    |Filter(RecordsOf(rounds), IsRefusal)| + |Filter(CallsOf(rounds), passes)| == |RecordsOf(rounds)|
  }

  lemma BalanceStep(passes: ToolCall -> bool, rounds: seq<Round>, k: nat)
    requires k < |rounds| && Balanced(passes, rounds[..k])
    requires |Filter(rounds[k].records, IsRefusal)| + |Filter(rounds[k].response.toolCalls, passes)| == |rounds[k].records|
    ensures Balanced(passes, rounds[..k + 1])
  {
    TakeNext(rounds, k);
    AccountsStep(passes, rounds[..k], rounds[k]);
    FilterAppend(RecordsOf(rounds[..k]), rounds[k].records, IsRefusal);
  }

  lemma {:induction false} ConservedByRounds(execute: Execution, passes: ToolCall -> bool, rounds: seq<Round>, k: nat)
    requires k <= |rounds| && Labels(execute, passes) && Answered(execute, passes, rounds)
    ensures Balanced(passes, rounds[..k])
  {
    if k > 0 {
      ConservedByRounds(execute, passes, rounds, k - 1);
      RoundIsConserved(execute, passes, Filter(CallsOf(rounds[..k - 1]), passes), rounds[k - 1]);
      BalanceStep(passes, rounds, k - 1);
    }
  }

  /** Conservation: the records of a turn are the calls that reached the registry plus the refusals. */
  lemma RecordsAreConserved(w: World, c: Config, r: TurnResult, rounds: seq<Round>, chats: seq<seq<Message>>, executed: seq<ToolCall>)
    requires ValidConfig(c) && true == LoopResult(w, c, r, rounds, chats, executed)
    ensures |r.toolRecords| == |executed| + |Filter(r.toolRecords, IsRefusal)|
  {
    ConservedByRounds(Executing(w, c), PassesGuard(w, c), rounds, |rounds|);
    assert rounds[..|rounds|] == rounds;
  }
}
