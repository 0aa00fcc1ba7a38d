/** Decoding a model reply: the light textual repair, the parse / repair /
    validate sequence, and the chat completion request retried once. The JSON
    parser is a function parameter and the chat client a scripted object. */
module Decode {
  import opened Wrappers
  import opened Strings
  import opened JsonValue
  import Schema
  import PromptTemplates

  // ---------------------------------------------------------------------------
  // _repair_common
  // ---------------------------------------------------------------------------

  /** Strip, then turn single quotes into double quotes (the source does this
      twice, `"\'"` and `"'"` being the same string) and the Python constants into
      their JSON spellings. */
  function RepairCommon(text: string): string {
    var fixed := Strip(text);
    var fixed1 := ReplaceAll(ReplaceAll(fixed, "'", "\""), "'", "\"");
    ReplaceAll(ReplaceAll(ReplaceAll(fixed1, "True", "true"), "False", "false"), "None", "null")
  }

  // The later replacements cannot re-create the words removed earlier.
  lemma QuoteCannotForm()
    ensures CannotForm("'", "\"") && CannotForm("'", "true") && CannotForm("'", "false") && CannotForm("'", "null")
  {
  }

  lemma TrueCannotForm()
    ensures CannotForm("True", "true") && CannotForm("True", "false") && CannotForm("True", "null")
  {
    assert "True"[1..] == "rue" && "True"[2..] == "ue" && "True"[3..] == "e";
    DifferAt("rue", "true", 0); DifferAt("ue", "true", 0); DifferAt("e", "true", 0);
    DifferAt("rue", "false", 0); DifferAt("ue", "false", 0); DifferAt("e", "false", 0);
    DifferAt("rue", "null", 0); DifferAt("ue", "null", 0); DifferAt("e", "null", 0);
  }

  lemma FalseCannotForm()
    ensures CannotForm("False", "false") && CannotForm("False", "null")
  {
    assert "False"[1..] == "alse" && "False"[2..] == "lse" && "False"[3..] == "se" && "False"[4..] == "e";
    DifferAt("alse", "false", 0); DifferAt("lse", "false", 0); DifferAt("se", "false", 0); DifferAt("e", "false", 0);
    DifferAt("alse", "null", 0); DifferAt("lse", "null", 0); DifferAt("se", "null", 0); DifferAt("e", "null", 0);
  }

  lemma NoneCannotForm()
    ensures CannotForm("None", "null")
  {
    assert "None"[1..] == "one" && "None"[2..] == "ne" && "None"[3..] == "e";
    DifferAt("one", "null", 0);
    DifferAt("ne", "null", 1);
    DifferAt("e", "null", 0);
  }

  /** The repaired text has no single quote and none of the words `True`,
      `False` and `None`. */
  lemma RepairRemovesPythonisms(text: string)
    ensures !Contains(RepairCommon(text), "'")
    ensures !Contains(RepairCommon(text), "True")
    ensures !Contains(RepairCommon(text), "False")
    ensures !Contains(RepairCommon(text), "None")
  {
    QuoteCannotForm();
    TrueCannotForm();
    FalseCannotForm();
    NoneCannotForm();
    var s0 := Strip(text);
    var s1 := ReplaceAll(s0, "'", "\"");
    var s2 := ReplaceAll(s1, "'", "\"");
    var s3 := ReplaceAll(s2, "True", "true");
    var s4 := ReplaceAll(s3, "False", "false");
    ReplaceLeavesNo(s0, "'", "\"", "'");
    ReplaceLeavesNo(s1, "'", "\"", "'");
    ReplaceLeavesNo(s2, "True", "true", "'");
    ReplaceLeavesNo(s2, "True", "true", "True");
    ReplaceLeavesNo(s3, "False", "false", "'");
    ReplaceLeavesNo(s3, "False", "false", "True");
    ReplaceLeavesNo(s3, "False", "false", "False");
    ReplaceLeavesNo(s4, "None", "null", "'");
    ReplaceLeavesNo(s4, "None", "null", "True");
    ReplaceLeavesNo(s4, "None", "null", "False");
    ReplaceLeavesNo(s4, "None", "null", "None");
  }

  /** Every replacement is length-preserving: the repaired text is exactly as
      long as the stripped input. */
  lemma RepairLength(text: string)
    ensures |RepairCommon(text)| == |Strip(text)|
  {
  }

  /** The replacements change no character's whitespace status, so the repaired
      text, like the stripped one, has no whitespace at either end. */
  lemma RepairIsTrimmed(text: string)
    ensures var r := RepairCommon(text); r == [] || (!IsSpace(r[0]) && !IsSpace(r[|r| - 1]))
  {
    var s0 := Strip(text);
    var s1 := ReplaceAll(s0, "'", "\"");
    var s2 := ReplaceAll(s1, "'", "\"");
    var s3 := ReplaceAll(s2, "True", "true");
    var s4 := ReplaceAll(s3, "False", "false");
    var s5 := ReplaceAll(s4, "None", "null");
    assert s5 == RepairCommon(text);
    RepairWordsSolid();
    KeepsEnds(s0, "'", "\"");
    KeepsEnds(s1, "'", "\"");
    KeepsEnds(s2, "True", "true");
    KeepsEnds(s3, "False", "false");
    KeepsEnds(s4, "None", "null");
  }

  /** The patterns and replacements of the repair hold no whitespace. */
  lemma RepairWordsSolid()
    ensures Solid("'") && Solid("\"") && Solid("True") && Solid("true")
    ensures Solid("False") && Solid("false") && Solid("None") && Solid("null")
  {
  }

  /** One replacement step keeps the whitespace status of both ends. */
  lemma KeepsEnds(s: string, pat: string, rep: string)
    requires |pat| > 0 && |pat| == |rep| && Solid(pat) && Solid(rep)
    ensures var r := ReplaceAll(s, pat, rep);
      && |r| == |s|
      && (r != [] ==> (IsSpace(r[0]) <==> IsSpace(s[0])) && (IsSpace(r[|r| - 1]) <==> IsSpace(s[|s| - 1])))
  {
    ReplaceKeepsSpaces(s, pat, rep);
  }

  /** Repairing an already repaired text returns it unchanged. */
  lemma RepairIdempotent(text: string)
    ensures RepairCommon(RepairCommon(text)) == RepairCommon(text)
  {
    var r := RepairCommon(text);
    RepairIsTrimmed(text);
    StripOfTrimmed(r);
    RepairRemovesPythonisms(text);
    ReplaceAbsent(r, "'", "\"");
    ReplaceAbsent(r, "True", "true");
    ReplaceAbsent(r, "False", "false");
    ReplaceAbsent(r, "None", "null");
  }

  // The example `{'a': True}`, built from pieces so that each step stays small.
  const Quote: string := "'"
  const DoubleQuote: string := "\""
  const ExampleInput: string := "{" + Quote + "a" + Quote + ": " + "True" + "}"
  const HalfRepaired: string := "{" + DoubleQuote + "a" + DoubleQuote + ": " + "True" + "}"
  const Repaired: string := "{" + DoubleQuote + "a" + DoubleQuote + ": " + "true" + "}"

  lemma ExampleStrip()
    ensures Strip(ExampleInput) == ExampleInput
  {
    assert ExampleInput[0] == '{';
    assert ExampleInput[|ExampleInput| - 1] == '}';
    StripOfTrimmed(ExampleInput);
  }

  /** Replacing a one-character pattern around a word that does not contain it. */
  lemma ReplaceAround(pre: string, w: string, t: string, pat: string, rep: string)
    requires |pat| == 1 && pat[0] !in pre && pat[0] !in w && pat[0] !in t
    ensures ReplaceAll(pre + pat + w + pat + t, pat, rep) == pre + rep + w + rep + t
  {
    var u, v, x := pat + t, w + (pat + t), pat + (w + (pat + t));
    NotContainsFirst(t, pat);
    ReplaceAbsent(t, pat, rep);
    ReplaceAtHead(t, pat, rep);
    assert ReplaceAll(u, pat, rep) == rep + t;
    ReplacePlainPrefix(w, u, pat, rep);
    assert ReplaceAll(v, pat, rep) == w + (rep + t);
    ReplaceAtHead(v, pat, rep);
    assert ReplaceAll(x, pat, rep) == rep + (w + (rep + t));
    ReplacePlainPrefix(pre, x, pat, rep);
    assert ReplaceAll(pre + x, pat, rep) == pre + (rep + (w + (rep + t)));
    Regroup(pre, pat, w, t);
    Regroup(pre, rep, w, t);
  }

  /** `a + b + c + b + d`, grouped from the right. */
  lemma Regroup(a: string, b: string, c: string, d: string)
    ensures a + b + c + b + d == a + (b + (c + (b + d)))
  {
  }

  lemma ExampleQuotes()
    ensures ReplaceAll(ExampleInput, Quote, DoubleQuote) == HalfRepaired
  {
    var t := ": " + "True" + "}";
    assert Quote[0] !in t && Quote[0] !in "{" && Quote[0] !in "a";
    ReplaceAround("{", "a", t, Quote, DoubleQuote);
    assert ExampleInput == "{" + Quote + "a" + Quote + t;
    assert HalfRepaired == "{" + DoubleQuote + "a" + DoubleQuote + t;
  }

  lemma ExampleTrue()
    ensures ReplaceAll(HalfRepaired, "True", "true") == Repaired
  {
    var h := "{" + DoubleQuote + "a" + DoubleQuote + ": ";
    assert HalfRepaired == h + ("True" + "}");
    assert Repaired == h + ("true" + "}");
    ReplacePlainPrefix(h, "True" + "}", "True", "true");
    ReplaceAtHead("}", "True", "true");
    ReplaceShort("}", "True", "true");
  }

  lemma ExampleNoQuote()
    ensures ReplaceAll(HalfRepaired, Quote, DoubleQuote) == HalfRepaired
  {
    NotContainsFirst(HalfRepaired, Quote);
    ReplaceAbsent(HalfRepaired, Quote, DoubleQuote);
  }

  lemma ExampleNoFalseOrNone()
    ensures ReplaceAll(Repaired, "False", "false") == Repaired
    ensures ReplaceAll(Repaired, "None", "null") == Repaired
  {
    NotContainsFirst(Repaired, "False");
    ReplaceAbsent(Repaired, "False", "false");
    NotContainsFirst(Repaired, "None");
    ReplaceAbsent(Repaired, "None", "null");
  }

  lemma ExampleSpelling()
    ensures ExampleInput == "{'a': True}" && Repaired == "{\"a\": true}"
  {
  }

  /** `{'a': True}` is repaired to `{"a": true}`. */
  lemma RepairExample()
    ensures RepairCommon("{'a': True}") == "{\"a\": true}"
  {
    ExampleSpelling();
    ExampleStrip();
    ExampleQuotes();
    ExampleNoQuote();
    ExampleNoFalseOrNone();
    ExampleTrue();
  }

  // ---------------------------------------------------------------------------
  // coerce_and_validate
  // ---------------------------------------------------------------------------

  /** Why decoding a reply failed: the client call raised, the text did not
      parse even after the repair, or the object failed JSON Schema validation. */
  datatype DecodeError = ClientFailure | InvalidJson | SchemaViolation

  /** Parse the text; only when that fails, parse its repair; then validate.
      `parse` is `json.loads`, `None` standing for a raised decoding error. */
  function CoerceAndValidate(parse: string -> Option<Json>, text: string): (r: Result<Json, DecodeError>)
    ensures parse(text).Some? ==>
      (r.Success? <==> Schema.Conforms(parse(text).value)) && (r.Success? ==> r.value == parse(text).value)
    ensures parse(text).None? && parse(RepairCommon(text)).Some? ==>
      (r.Success? <==> Schema.Conforms(parse(RepairCommon(text)).value))
      && (r.Success? ==> r.value == parse(RepairCommon(text)).value)
    ensures r == Failure(InvalidJson) <==> parse(text).None? && parse(RepairCommon(text)).None?
    ensures r.Failure? ==> r.error != ClientFailure
    ensures r.Success? ==> Schema.Conforms(r.value)
  {
    var first := parse(text);
    var obj := if first.Some? then first else parse(RepairCommon(text));
    if obj.None? then Failure(InvalidJson)
    else if !Schema.Conforms(obj.value) then Failure(SchemaViolation)
    else Success(obj.value)
  }

  /** Input that parses as it is never reaches the repair: two parsers that
      agree on it give the same outcome, whatever they do on the repaired text. */
  lemma StrictInputNotRepaired(p: string -> Option<Json>, q: string -> Option<Json>, text: string)
    requires p(text).Some? && p(text) == q(text)
    ensures CoerceAndValidate(p, text) == CoerceAndValidate(q, text)
  {
  }

  /** The repaired text is parsed at most once, and only when the original
      failed: two parsers that agree on both texts give the same outcome. */
  lemma RepairParsedOnce(p: string -> Option<Json>, q: string -> Option<Json>, text: string)
    requires p(text) == q(text) && p(RepairCommon(text)) == q(RepairCommon(text))
    ensures CoerceAndValidate(p, text) == CoerceAndValidate(q, text)
  {
  }

  /** With a parser that rejects `{'a': True}` and reads `{"a": true}`, the
      repair succeeds and validation then rejects the object, which has no
      summary or lesions. */
  lemma CoerceExample(parse: string -> Option<Json>)
    requires parse("{'a': True}").None?
    requires parse("{\"a\": true}") == Some(Obj(map["a" := Bool(true)]))
    ensures CoerceAndValidate(parse, "{'a': True}") == Failure(SchemaViolation)
  {
    var obj := Obj(map["a" := Bool(true)]);
    RepairExample();
    assert parse(RepairCommon("{'a': True}")) == Some(obj);
    assert "summary" !in obj.fields;
    assert !Schema.Conforms(obj);
  }

  // ---------------------------------------------------------------------------
  // constrained_json_completion
  // ---------------------------------------------------------------------------

  /** The prompt dictionary that `build_prompt` produces. */
  datatype Prompt = Prompt(system: string, fewshot: seq<PromptTemplates.Message>, user: string)

  datatype ResponseFormat = ResponseFormat(kind: string, name: string, schema: Json)

  /** The arguments of one `client.chat.completions.create` call. */
  datatype ChatRequest = ChatRequest(
    model: string,
    messages: seq<PromptTemplates.Message>,
    temperature: Json,
    maxTokens: Json,
    responseFormat: ResponseFormat)

  /** The default temperature 0.0; numbers are integers in this model. */
  const DefaultTemperature: Json := Int(0)
  const DefaultMaxTokens: Json := Int(1200)

  /** `gen_kwargs.get(k, default)`. */
  function KwargOr(kwargs: map<string, Json>, k: string, default: Json): Json {
    if k in kwargs then kwargs[k] else default
  }

  /** The request that every attempt sends. */
  function RequestFor(prompt: Prompt, model: string, kwargs: map<string, Json>, schema: Json): ChatRequest {
    ChatRequest(
      model,
      [PromptTemplates.Message("system", prompt.system)] + prompt.fewshot + [PromptTemplates.Message("user", prompt.user)],
      KwargOr(kwargs, "temperature", DefaultTemperature),
      KwargOr(kwargs, "max_tokens", DefaultMaxTokens),
      ResponseFormat("json_schema", "ReportExtraction", schema))
  }

  /** The request's messages are the system message, the few-shot messages in
      order and the user message; the sampling settings default to the integer 0
      (standing for 0.0) and 1200;
      the response format always names the `ReportExtraction` schema. */
  lemma RequestShape(prompt: Prompt, model: string, kwargs: map<string, Json>, schema: Json)
    ensures var r := RequestFor(prompt, model, kwargs, schema);
      && r.model == model
      && |r.messages| == |prompt.fewshot| + 2
      && r.messages[0] == PromptTemplates.Message("system", prompt.system)
      && r.messages[1..|r.messages| - 1] == prompt.fewshot
      && r.messages[|r.messages| - 1] == PromptTemplates.Message("user", prompt.user)
      && ("temperature" !in kwargs ==> r.temperature == Int(0))
      && ("temperature" in kwargs ==> r.temperature == kwargs["temperature"])
      && ("max_tokens" !in kwargs ==> r.maxTokens == Int(1200))
      && ("max_tokens" in kwargs ==> r.maxTokens == kwargs["max_tokens"])
      && r.responseFormat.kind == "json_schema" && r.responseFormat.name == "ReportExtraction"
      && r.responseFormat.schema == schema
  {
    var r := RequestFor(prompt, model, kwargs, schema);
    assert r.messages[1..|r.messages| - 1] == prompt.fewshot;
  }

  /** The reply a scripted client gives to its `i`-th call from now; `None`
      stands for a call that raises. */
  function ReplyAt(replies: seq<Option<string>>, i: nat): Option<string> {
    if i < |replies| then replies[i] else None
  }

  function Drop(replies: seq<Option<string>>, n: nat): seq<Option<string>> {
    if n <= |replies| then replies[n..] else []
  }

  lemma DropAt(replies: seq<Option<string>>, n: nat, i: nat)
    ensures ReplyAt(Drop(replies, n), i) == ReplyAt(replies, n + i)
  {
  }

  lemma DropDrop(replies: seq<Option<string>>, m: nat, n: nat)
    ensures Drop(Drop(replies, m), n) == Drop(replies, m + n)
  {
  }

  /** An OpenAI-compatible client that answers from a script and records every
      request it receives. */
  class ChatClient {
    var replies: seq<Option<string>>
    var requests: seq<ChatRequest>

    constructor (script: seq<Option<string>>)
      ensures replies == script && requests == []
    {
      replies := script;
      requests := [];
    }

    /** `client.chat.completions.create(...)`: the content of the first choice. */
    method Create(request: ChatRequest) returns (content: Option<string>)
      modifies this
      ensures requests == old(requests) + [request]
      ensures content == ReplyAt(old(replies), 0)
      ensures replies == Drop(old(replies), 1)
    {
      requests := requests + [request];
      content := ReplyAt(replies, 0);
      replies := Drop(replies, 1);
    }
  }

  /** One attempt: the client call followed by `coerce_and_validate`. */
  function Attempt(parse: string -> Option<Json>, content: Option<string>): (r: Result<Json, DecodeError>)
    ensures content.None? ==> r == Failure(ClientFailure)
    ensures content.Some? ==> r == CoerceAndValidate(parse, content.value)
  {
    if content.None? then Failure(ClientFailure) else CoerceAndValidate(parse, content.value)
  }

  /** What the retry decorator raises once both attempts have failed: it wraps
      the error of the last attempt. */
  datatype CompletionError = RetryError(last: DecodeError)

  /** The body the retry decorator wraps: one `create` call, then
      `coerce_and_validate` of the reply. */
  method TryOnce(request: ChatRequest, client: ChatClient, parse: string -> Option<Json>)
    returns (outcome: Result<Json, DecodeError>)
    modifies client
    ensures outcome == Attempt(parse, ReplyAt(old(client.replies), 0))
    ensures client.requests == old(client.requests) + [request]
    ensures client.replies == Drop(old(client.replies), 1)
    ensures outcome.Success? ==> Schema.Conforms(outcome.value)
  {
    var content := client.Create(request);
    outcome := Attempt(parse, content);
  }

  /** `constrained_json_completion`: at most two attempts with the same request.
      The first success is returned; after two failures the last error is
      wrapped. The 0.2 s wait between attempts is not modelled. */
  method ConstrainedJsonCompletion(prompt: Prompt, client: ChatClient, model: string,
                                   kwargs: map<string, Json>, schema: Json,
                                   parse: string -> Option<Json>)
    returns (r: Result<Json, CompletionError>)
    modifies client
    ensures var request := RequestFor(prompt, model, kwargs, schema);
      var first := Attempt(parse, ReplyAt(old(client.replies), 0));
      var second := Attempt(parse, ReplyAt(old(client.replies), 1));
      && (first.Success? ==> r == Success(first.value) && client.requests == old(client.requests) + [request])
      && (first.Success? ==> client.replies == Drop(old(client.replies), 1))
      && (first.Failure? ==> client.requests == old(client.requests) + [request, request])
      && (first.Failure? ==> client.replies == Drop(old(client.replies), 2))
      && (first.Failure? && second.Success? ==> r == Success(second.value))
      && (first.Failure? && second.Failure? ==> r == Failure(RetryError(second.error)))
    ensures r.Success? ==> Schema.Conforms(r.value)
  {
    var request := RequestFor(prompt, model, kwargs, schema);
    ghost var script := client.replies;
    var attempt := 0;
    var last := ClientFailure;
    while attempt < 2
      invariant 0 <= attempt <= 2
      invariant client.replies == Drop(script, attempt)
      invariant client.requests == old(client.requests) + seq(attempt, _ => request)
      invariant attempt > 0 ==> Attempt(parse, ReplyAt(script, 0)).Failure?
      invariant attempt > 1 ==> Attempt(parse, ReplyAt(script, 1)).Failure?
      invariant attempt > 0 ==> last == Attempt(parse, ReplyAt(script, attempt - 1)).error
    {
      var outcome := TryOnce(request, client, parse);
      DropAt(script, attempt, 0);
      DropDrop(script, attempt, 1);
      if outcome.Success? {
        assert seq(attempt + 1, _ => request) == seq(attempt, _ => request) + [request];
        r := Success(outcome.value);
        return;
      }
      last := outcome.error;
      assert seq(attempt + 1, _ => request) == seq(attempt, _ => request) + [request];
      attempt := attempt + 1;
    }
    assert seq(2, _ => request) == [request, request];
    r := Failure(RetryError(last));
  }
}
