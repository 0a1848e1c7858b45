/**
 * The interactive chat entry point: its configuration getter, the exit
 * sentinel, and the question loop, with retrieval and the chat model taken
 * as parameters.
 */
module Chat {
  import opened Results
  import opened Environment
  import Ingest
  import Search

  /** `get_chat_model_name`: fails fast when OPENAI_CHAT_MODEL is unset or empty. */
  function GetChatModelName(env: Env): (r: Result<string>)
    ensures r.Ok? <==> "OPENAI_CHAT_MODEL" in env && env["OPENAI_CHAT_MODEL"] != ""
    ensures r.Ok? ==> r.value == env["OPENAI_CHAT_MODEL"]
    ensures r.Err? ==> r.message == "Environment variable OPENAI_CHAT_MODEL is not set!"
  {
    RequireEnv(env, "OPENAI_CHAT_MODEL")
  }

  // ---------------------------------------------------------------------------
  // The exit sentinel.
  // ---------------------------------------------------------------------------

  const Sentinel: string := "SAIR"

  /**
   * Python's `str.upper` on one character, for ASCII letters and for the two
   * other letters whose upper case is an ASCII letter: long s (U+017F) and
   * dotless i (U+0131). Every other character is left as it is.
   */
  function UpperChar(c: char): char
  {
    if 'a' <= c <= 'z' then ((c as int) - 32) as char
    else if c == '\U{17F}' then 'S'
    else if c == '\U{131}' then 'I'
    else c
  }

  function Upper(s: string): (u: string)
    ensures |u| == |s|
  {
    seq(|s|, i requires 0 <= i < |s| => UpperChar(s[i]))
  }

  /** `question.upper() == "SAIR"`: exact, with no trimming of spaces. */
  predicate IsSentinel(input: string)
  {
    Upper(input) == Sentinel
  }

  lemma UpperCharTo(c: char)
    ensures UpperChar(c) == 'S' <==> c in "sS\U{17F}"
    ensures UpperChar(c) == 'A' <==> c in "aA"
    ensures UpperChar(c) == 'I' <==> c in "iI\U{131}"
    ensures UpperChar(c) == 'R' <==> c in "rR"
  {
  }

  /** An input ends the session exactly when it spells SAIR in any mix of cases. */
  lemma SentinelIff(s: string)
    ensures IsSentinel(s) <==>
      |s| == 4 && s[0] in "sS\U{17F}" && s[1] in "aA" && s[2] in "iI\U{131}" && s[3] in "rR"
  {
    if |s| == 4 {
      UpperCharTo(s[0]);
      UpperCharTo(s[1]);
      UpperCharTo(s[2]);
      UpperCharTo(s[3]);
      var u := Upper(s);
      if u[0] == 'S' && u[1] == 'A' && u[2] == 'I' && u[3] == 'R' {
        assert u == Sentinel;
      }
    }
  }

  lemma SentinelExamples()
    ensures IsSentinel("sair") && IsSentinel("Sair") && IsSentinel("SAIR") && IsSentinel("sAiR")
    ensures !IsSentinel(" SAIR") && !IsSentinel("SAIR ") && !IsSentinel("SAIR\n")
    ensures !IsSentinel("") && !IsSentinel("SAI") && !IsSentinel("sairr")
  {
    SentinelIff("sair");
    SentinelIff("Sair");
    SentinelIff("SAIR");
    SentinelIff("sAiR");
    SentinelIff(" SAIR");
    SentinelIff("SAIR ");
    SentinelIff("SAIR\n");
    SentinelIff("");
    SentinelIff("SAI");
    SentinelIff("sairr");
  }

  /** Position of the first sentinel among the inputs, or their number when there is none. */
  function FirstSentinel(inputs: seq<string>): (k: nat)
    ensures k <= |inputs|
    ensures forall i :: 0 <= i < k ==> !IsSentinel(inputs[i])
    ensures k < |inputs| ==> IsSentinel(inputs[k])
  {
    if inputs == [] then 0
    else if IsSentinel(inputs[0]) then 0
    else 1 + FirstSentinel(inputs[1..])
  }

  // ---------------------------------------------------------------------------
  // One turn: retrieve, assemble the context, build the prompt, invoke the model.
  // ---------------------------------------------------------------------------

  /** `similarity_search_with_score`: the results for a question, or the error it raised. */
  type Retriever = string -> Result<seq<Search.SearchResult>>

  /** `ChatOpenAI(model=name).invoke(prompt)`: the answer's text, or the error it raised. */
  type ChatModel = (string, string) -> Result<string>

  datatype Turn = Turn(question: string, results: seq<Search.SearchResult>, prompt: string, answer: string)

  /** How a session ended: the sentinel, end of input (`EOFError`), or an error. */
  datatype SessionEnd = Terminated | InputExhausted | Failed(message: string)

  datatype Session = Session(turns: seq<Turn>, end: SessionEnd)

  /** The prompt of a turn as the loop builds it: `search_prompt(context, question)`. */
  function TurnPrompt(question: string, results: seq<Search.SearchResult>): string
  {
    Search.SearchPrompt(Search.SearchResultToContext(results), question)
  }

  /** The prompt with the arguments in the order `search_prompt(question, context)` declares. */
  function IntendedTurnPrompt(question: string, results: seq<Search.SearchResult>): string
  {
    Search.SearchPrompt(question, Search.SearchResultToContext(results))
  }

  /** One loop iteration for a non-sentinel question. */
  function Step(model: string, question: string, retrieve: Retriever, complete: ChatModel): Result<Turn>
  {
    match retrieve(question)
    case Err(e) => Err(e)
    case Ok(results) =>
      var prompt := TurnPrompt(question, results);
      match complete(model, prompt)
      case Err(e) => Err(e)
      case Ok(answer) => Ok(Turn(question, results, prompt, answer))
  }

  /**
   * The control of the `while True` loop of `main` over a finite sequence of
   * inputs: stop at the sentinel, at the end of input or at the first failing
   * turn; `step` runs one turn.
   */
  function Converse(inputs: seq<string>, step: string -> Result<Turn>): Session
  {
    if inputs == [] then Session([], InputExhausted)
    else if IsSentinel(inputs[0]) then Session([], Terminated)
    else match step(inputs[0])
      case Err(e) => Session([], Failed(e))
      case Ok(turn) =>
        var rest := Converse(inputs[1..], step);
        Session([turn] + rest.turns, rest.end)
  }

  /** `main`: the model name is read before any input; a missing one ends it at once. */
  function ChatSession(env: Env, inputs: seq<string>, retrieve: Retriever, complete: ChatModel): Session
  {
    match GetChatModelName(env)
    case Err(e) => Session([], Failed(e))
    case Ok(model) => Converse(inputs, q => Step(model, q, retrieve, complete))
  }

  /**
   * `main`, step by step: read the model name, then read questions until the
   * sentinel, running one retrieve/context/prompt/invoke turn per question.
   */
  method RunChat(env: Env, inputs: seq<string>, retrieve: Retriever, complete: ChatModel)
    returns (session: Session)
    ensures session == ChatSession(env, inputs, retrieve, complete)
  {
    var modelName := GetChatModelName(env);
    if modelName.Err? {
      return Session([], Failed(modelName.message));
    }
    var model := modelName.value;
    ghost var step := q => Step(model, q, retrieve, complete);
    ghost var whole := Converse(inputs, step);
    var turns: seq<Turn> := [];
    var i := 0;
    while i < |inputs|
      invariant 0 <= i <= |inputs|
      invariant whole.turns == turns + Converse(inputs[i..], step).turns
      invariant whole.end == Converse(inputs[i..], step).end
    {
      var question := inputs[i];
      assert inputs[i..][1..] == inputs[i + 1..];
      if IsSentinel(question) {
        return Session(turns, Terminated);
      }
      var retrieved := retrieve(question);
      if retrieved.Err? {
        return Session(turns, Failed(retrieved.message));
      }
      var context := Search.SearchResultToContext(retrieved.value);
      var prompt := Search.SearchPrompt(context, question);
      var response := complete(model, prompt);
      if response.Err? {
        return Session(turns, Failed(response.message));
      }
      turns := turns + [Turn(question, retrieved.value, prompt, response.value)];
      i := i + 1;
    }
    assert whole.turns == turns;
    return Session(turns, InputExhausted);
  }

  // ---------------------------------------------------------------------------
  // Properties of the session.
  // ---------------------------------------------------------------------------

  /**
   * Turn k answers input k alone, no turn runs at or after the first
   * sentinel, and the end says why the loop stopped.
   */
  lemma {:induction false} ConverseShape(inputs: seq<string>, step: string -> Result<Turn>)
    ensures var s := Converse(inputs, step);
      && |s.turns| <= FirstSentinel(inputs)
      && (forall k :: 0 <= k < |s.turns| ==> step(inputs[k]) == Ok(s.turns[k]))
      && (s.end == Terminated <==> |s.turns| < |inputs| && IsSentinel(inputs[|s.turns|]))
      && (s.end == InputExhausted ==> |s.turns| == |inputs|)
      && (s.end.Failed? ==>
            |s.turns| < |inputs| && step(inputs[|s.turns|]) == Err(s.end.message))
      && (!s.end.Failed? ==> |s.turns| == FirstSentinel(inputs))
    decreases |inputs|
  {
    if inputs != [] && !IsSentinel(inputs[0]) && step(inputs[0]).Ok? {
      var rest := inputs[1..];
      ConverseShape(rest, step);
      var s := Converse(inputs, step);
      var r := Converse(rest, step);
      assert s.turns == [step(inputs[0]).value] + r.turns;
      forall k | 1 <= k < |s.turns|
        ensures step(inputs[k]) == Ok(s.turns[k])
      {
        assert inputs[k] == rest[k - 1] && s.turns[k] == r.turns[k - 1];
      }
    }
  }

  /**
   * When neither retrieval nor the model fails, exactly one turn runs for each
   * input before the first sentinel, each built from its own question and
   * retrieval result, and the session ends by the sentinel iff one was typed.
   */
  lemma ReliableSession(env: Env, inputs: seq<string>, retrieve: Retriever, complete: ChatModel)
    requires GetChatModelName(env).Ok?
    requires forall q :: retrieve(q).Ok?
    requires forall m, p :: complete(m, p).Ok?
    ensures var s := ChatSession(env, inputs, retrieve, complete);
      var model := env["OPENAI_CHAT_MODEL"];
      && |s.turns| == FirstSentinel(inputs)
      && (s.end == Terminated <==> exists k :: 0 <= k < |inputs| && IsSentinel(inputs[k]))
      && (s.end == InputExhausted <==> forall k :: 0 <= k < |inputs| ==> !IsSentinel(inputs[k]))
      && (forall k :: 0 <= k < |s.turns| ==>
            && s.turns[k].question == inputs[k]
            && s.turns[k].results == retrieve(inputs[k]).value
            && s.turns[k].prompt == TurnPrompt(inputs[k], s.turns[k].results)
            && s.turns[k].answer == complete(model, s.turns[k].prompt).value)
  {
    var model := env["OPENAI_CHAT_MODEL"];
    ConverseShape(inputs, q => Step(model, q, retrieve, complete));
  }

  /**
   * No history carries across turns: a run of ordinary questions followed by
   * more input behaves as the two parts run separately, one after the other.
   */
  lemma {:induction false} ConverseAppend(first: seq<string>, later: seq<string>, step: string -> Result<Turn>)
    requires Converse(first, step).end == InputExhausted
    ensures Converse(first + later, step)
         == Session(Converse(first, step).turns + Converse(later, step).turns, Converse(later, step).end)
    decreases |first|
  {
    if first == [] {
      assert first + later == later;
    } else {
      var both := first + later;
      var tail := Converse(first[1..], step);
      var after := Converse(later, step);
      ConverseAppend(first[1..], later, step);
      assert both[0] == first[0];
      TailOfConcat(first, later);
      var turn := step(first[0]).value;
      assert [turn] + (tail.turns + after.turns) == ([turn] + tail.turns) + after.turns;
    }
  }

  lemma TailOfConcat(a: seq<string>, b: seq<string>)
    requires a != []
    ensures (a + b)[1..] == a[1..] + b
  {
  }

  /** The loop passes the question into the `{contexto}` slot and the context into `{pergunta}`. */
  lemma TurnPromptSwapsSlots(question: string, results: seq<Search.SearchResult>)
    ensures TurnPrompt(question, results)
         == Search.TemplatePrefix + question + Search.TemplateMiddle
            + Search.SearchResultToContext(results) + Search.TemplateSuffix
  {
  }

  /** With the declared argument order the context fills `{contexto}` and the question `{pergunta}`. */
  lemma IntendedTurnPromptSlots(question: string, results: seq<Search.SearchResult>)
    ensures IntendedTurnPrompt(question, results)
         == Search.TemplatePrefix + Search.SearchResultToContext(results) + Search.TemplateMiddle
            + question + Search.TemplateSuffix
  {
  }

  /** The two differ whenever question and context start differently, e.g. for any one-result search. */
  lemma SwappedPromptDiffers(question: string, results: seq<Search.SearchResult>)
    requires var context := Search.SearchResultToContext(results);
      question != "" && context != "" && question[0] != context[0]
    ensures TurnPrompt(question, results) != IntendedTurnPrompt(question, results)
  {
    var context := Search.SearchResultToContext(results);
    var p, m, x := Search.TemplatePrefix, Search.TemplateMiddle, Search.TemplateSuffix;
    FirstOfSecond(p, question, m, context, x);
    FirstOfSecond(p, context, m, question, x);
  }

  lemma FirstOfSecond(a: string, b: string, c: string, d: string, e: string)
    requires b != []
    ensures (a + b + c + d + e)[|a|] == b[0]
  {
  }

  /** A concrete question whose prompt shows the swap: the question sits under CONTEXTO. */
  lemma SwappedPromptExample(m: map<string, Ingest.Value>, score: real)
    ensures var question := "Qual o faturamento?";
      var results := [Search.SearchResult(Ingest.Document("2.090.439,49", m), score)];
      && TurnPrompt(question, results)
         == Search.TemplatePrefix + question + Search.TemplateMiddle
            + "2.090.439,49" + Search.TemplateSuffix
      && TurnPrompt(question, results) != IntendedTurnPrompt(question, results)
  {
    var question := "Qual o faturamento?";
    var results := [Search.SearchResult(Ingest.Document("2.090.439,49", m), score)];
    var content := "2.090.439,49";
    assert Search.SearchResultToContext(results) == content;
    assert question[0] == 'Q' && content[0] == '2';
    SwappedPromptDiffers(question, results);
  }
}
