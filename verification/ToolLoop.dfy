/** The tool-calling loop between the language model and the tools. */
module ToolLoop {
  import opened Collections
  import Retry

  datatype ToolCall = ToolCall(id: string, name: string, input: string)

  datatype Response = Response(content: string, calls: seq<ToolCall>)

  /** What a tool returns: a string, or something to be serialised, which may fail. */
  datatype ToolValue = Text(text: string) | Structured(serialised: Option<string>) {
    predicate Presentable() {
      Text? || serialised.Some?
    }
  }

  datatype ToolOutput = Output(value: ToolValue) | ErrorReport(toolName: string)

  /** How the attempts to invoke a tool end. */
  type Tool = nat -> Retry.Attempt<ToolValue>

  datatype Message =
    | Given(text: string)
    | Assistant(content: string, calls: seq<ToolCall>)
    | Answer(callId: string, output: ToolOutput)

  datatype LoopResult = LoopResult(
    response: Response, lastTool: Option<ToolCall>, lastOutput: Option<ToolOutput>, iterations: nat)

  datatype LoopError = IterationsExceeded

  const TOOL_RETRY := Retry.RetryPolicy(2, 1.0, 8.0, true)

  /** The tool is invoked at most twice, the second time exactly after a transient failure. */
  ghost predicate InvokedRight(tool: Tool, invocations: nat) {
    1 <= invocations <= 2 && (invocations == 2 <==> tool(0).Transient?)
  }

  /**
   The model is told a presentable value that the tool returned at once, or at the second attempt after a
   transient failure, and of an error of the tool in all other cases.
   */
  ghost predicate AnsweredRight(call: ToolCall, tool: Tool, output: ToolOutput) {
    && (forall v: ToolValue {:trigger Retry.Returned(v)} :: output == Output(v) <==>
          && (v.Text? || v.serialised.Some?)
          && (tool(0) == Retry.Returned(v) || (tool(0).Transient? && tool(1) == Retry.Returned(v))))
    && (output.ErrorReport? ==> output.toolName == call.name)
  }

  ghost predicate IsAnswer(m: Message, call: ToolCall, tool: Tool) {
    m.Answer? && m.callId == call.id && AnsweredRight(call, tool, m.output)
  }

  /**
   The messages of one round: the assistant's request, then for each call in order one message with its id and
   what its tool came to.
   */
  ghost predicate IsRound(ms: seq<Message>, r: Response, tools: nat -> Tool) {
    && |ms| == 1 + |r.calls|
    && ms[0] == Assistant(r.content, r.calls)
    && forall i :: 0 <= i < |r.calls| ==> IsAnswer(ms[i + 1], r.calls[i], tools(i))
  }

  /** `ms` consists of one complete round for each response of `rs`. */
  ghost predicate AreRounds(ms: seq<Message>, rs: seq<Response>, tools: nat -> nat -> Tool) {
    if rs == [] then ms == []
    else
      var k := |rs| - 1;
      var n := |ms| - 1 - |rs[k].calls|;
      n >= 0 && IsRound(ms[n..], rs[k], tools(k)) && AreRounds(ms[..n], rs[..k], tools)
  }

  lemma {:induction false} RoundsSnoc(ms: seq<Message>, rs: seq<Response>, round: seq<Message>, r: Response,
                                      tools: nat -> nat -> Tool)
    requires AreRounds(ms, rs, tools) && IsRound(round, r, tools(|rs|))
    ensures AreRounds(ms + round, rs + [r], tools)
  {
    var all := ms + round;
    assert (rs + [r])[..|rs|] == rs;
    assert all[..|ms|] == ms && all[|ms|..] == round;
  }

  /** The first `n` responses of the model. */
  function Responses(llm: nat -> Response, n: nat): (r: seq<Response>)
    ensures |r| == n
  {
    if n == 0 then [] else Responses(llm, n - 1) + [llm(n - 1)]
  }

  /** What the model is shown at its `k`-th call: the given messages and `k` complete rounds. */
  ghost predicate PromptComplete(given: seq<Message>, llm: nat -> Response, tools: nat -> nat -> Tool,
                                 prompt: seq<Message>, k: nat) {
    given <= prompt && AreRounds(prompt[|given|..], Responses(llm, k), tools)
  }

  /** One tool call with its retry. */
  method CallTool(call: ToolCall, tool: Tool) returns (output: ToolOutput, invocations: nat)
    ensures InvokedRight(tool, invocations) && AnsweredRight(call, tool, output)
  {
    var outcome, calls, slept := Retry.RetryWithBackoff(TOOL_RETRY, null, tool, i => 0, i => 0.0);
    invocations := calls;
    output := ErrorReport(call.name);
    match outcome {
      case Value(v) =>
        if v.Presentable() {
          output := Output(v);
        }
      case _ =>
    }
  }

  /** One entry per call of the response: how often its tool was invoked. */
  ghost predicate Invoked(counts: seq<nat>, r: Response, tools: nat -> Tool) {
    |counts| == |r.calls| && forall i :: 0 <= i < |counts| ==> InvokedRight(tools(i), counts[i])
  }

  /** Execute the calls of one response; `tools(i)` gives how the attempts of call `i` end. */
  method RunRound(r: Response, tools: nat -> Tool) returns (round: seq<Message>, counts: seq<nat>)
    ensures IsRound(round, r, tools)
    ensures Invoked(counts, r, tools)
  {
    hide InvokedRight, AnsweredRight;
    var answers: seq<Message> := [];
    counts := [];
    for i := 0 to |r.calls|
      invariant |answers| == i
      invariant forall j :: 0 <= j < i ==> IsAnswer(answers[j], r.calls[j], tools(j))
      invariant |counts| == i && forall j :: 0 <= j < i ==> InvokedRight(tools(j), counts[j])
    {
      var output, n := CallTool(r.calls[i], tools(i));
      answers := answers + [Answer(r.calls[i].id, output)];
      counts := counts + [n];
    }
    round := [Assistant(r.content, r.calls)] + answers;
  }

  /** After a round the loop remembers the round's last call and what came of it. */
  ghost predicate LastRecorded(llm: nat -> Response, tools: nat -> nat -> Tool, iterations: nat,
                               lastTool: Option<ToolCall>, lastOutput: Option<ToolOutput>) {
    if iterations == 0 then lastTool == None && lastOutput == None
    else
      var calls := llm(iterations - 1).calls;
      var last := |calls| - 1;
      && calls != []
      && lastTool == Some(calls[last])
      && lastOutput.Some? && AnsweredRight(calls[last], tools(iterations - 1)(last), lastOutput.value)
  }

  /** `n` rounds have been run, and the model was shown a complete transcript before each and after the last. */
  ghost predicate Transcript(given: seq<Message>, llm: nat -> Response, tools: nat -> nat -> Tool,
                             prompts: seq<seq<Message>>, invocations: seq<seq<nat>>, n: nat) {
    && |prompts| == n + 1 && |invocations| == n
    && (forall k :: 0 <= k <= n ==> PromptComplete(given, llm, tools, prompts[k], k))
    && (forall k :: 0 <= k < n ==> llm(k).calls != [] && Invoked(invocations[k], llm(k), tools(k)))
  }

  lemma {:induction false} TranscriptSnoc(given: seq<Message>, llm: nat -> Response, tools: nat -> nat -> Tool,
                                          prompts: seq<seq<Message>>, invocations: seq<seq<nat>>, n: nat,
                                          round: seq<Message>, counts: seq<nat>)
    requires Transcript(given, llm, tools, prompts, invocations, n)
    requires llm(n).calls != [] && IsRound(round, llm(n), tools(n)) && Invoked(counts, llm(n), tools(n))
    ensures Transcript(given, llm, tools, prompts + [prompts[n] + round], invocations + [counts], n + 1)
  {
    hide Invoked, IsRound, AreRounds;
    var prompt := prompts[n];
    assert PromptComplete(given, llm, tools, prompt, n);
    RoundsSnoc(prompt[|given|..], Responses(llm, n), round, llm(n), tools);
    assert (prompt + round)[|given|..] == prompt[|given|..] + round;
    assert PromptComplete(given, llm, tools, prompt + round, n + 1);
    var more := prompts + [prompt + round];
    forall k | 0 <= k <= n + 1 ensures PromptComplete(given, llm, tools, more[k], k) {
      if k <= n {
        assert more[k] == prompts[k];
      }
    }
  }

  lemma TranscriptStarts(given: seq<Message>, llm: nat -> Response, tools: nat -> nat -> Tool)
    ensures Transcript(given, llm, tools, [given], [], 0)
  {
    assert given[|given|..] == [];
  }

  /**
   The loop. `llm(k)` is the model's `k`-th response, whatever it makes of its prompt; `tools(k)`
   gives how the tools of round `k` behave. `prompts` records what the model was shown.
   */
  method RunToolLoop(given: seq<Message>, maxIterations: int, llm: nat -> Response, tools: nat -> nat -> Tool)
    returns (result: Result<LoopResult, LoopError>, messages: seq<Message>,
             prompts: seq<seq<Message>>, invocations: seq<seq<nat>>, rounds: nat)
    ensures Transcript(given, llm, tools, prompts, invocations, rounds)
    ensures rounds <= (if maxIterations < 0 then 0 else maxIterations) && messages == prompts[rounds]
    ensures result.Success? <==> llm(rounds).calls == []
    ensures result.Failure? ==> rounds >= maxIterations
    ensures result.Success? ==>
      && result.value.response == llm(rounds)
      && result.value.iterations == rounds
      && LastRecorded(llm, tools, rounds, result.value.lastTool, result.value.lastOutput)
  {
    hide IsRound, AreRounds, Invoked, PromptComplete, AnsweredRight, InvokedRight;
    messages := given;
    var response := llm(0);
    prompts, invocations := [messages], [];
    var lastTool, lastOutput := None, None;
    rounds := 0;
    TranscriptStarts(given, llm, tools);
    while response.calls != [] && rounds < maxIterations
      invariant rounds <= if maxIterations < 0 then 0 else maxIterations
      invariant response == llm(rounds)
      invariant Transcript(given, llm, tools, prompts, invocations, rounds)
      invariant messages == prompts[rounds]
      invariant LastRecorded(llm, tools, rounds, lastTool, lastOutput)
      decreases maxIterations - rounds
    {
      var round, counts := RunRound(response, tools(rounds));
      TranscriptSnoc(given, llm, tools, prompts, invocations, rounds, round, counts);
      RoundEnds(round, response, tools(rounds));
      messages := messages + round;
      lastTool := Some(response.calls[|response.calls| - 1]);
      lastOutput := Some(round[|round| - 1].output);
      rounds := rounds + 1;
      invocations := invocations + [counts];
      response := llm(rounds);
      prompts := prompts + [messages];
    }
    if response.calls != [] {
      result := Failure(IterationsExceeded);
    } else {
      result := Success(LoopResult(response, lastTool, lastOutput, rounds));
    }
  }

  lemma RoundEnds(round: seq<Message>, r: Response, tools: nat -> Tool)
    requires IsRound(round, r, tools) && r.calls != []
    ensures var last := |r.calls| - 1;
            round != [] && IsAnswer(round[|round| - 1], r.calls[last], tools(last))
  {
    var last := |r.calls| - 1;
    assert IsAnswer(round[last + 1], r.calls[last], tools(last));
  }
}
