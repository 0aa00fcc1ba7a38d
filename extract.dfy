/** The extraction pipeline: building the prompt, decoding one report and
    post-processing it, and choosing and renaming the files of a batch. */
module Extract {
  import opened Wrappers
  import opened Strings
  import opened JsonValue
  import PromptTemplates
  import Prompts
  import Decode
  import Postprocess
  import Schema

  type Message = PromptTemplates.Message

  // ---------------------------------------------------------------------------
  // build_prompt
  // ---------------------------------------------------------------------------

  /** The few-shot messages for a list of exemplars: for each, the report as a
      user message and the serialised JSON (`dumps`, standing for
      `json.dumps`) as an assistant message. */
  function FewShotMessages(exs: seq<Prompts.Exemplar>, dumps: Json -> string): (r: seq<Message>)
    ensures |r| == 2 * |exs|
    decreases |exs|
  {
    if exs == [] then []
    else
      var ex := exs[|exs| - 1];
      FewShotMessages(exs[..|exs| - 1], dumps)
        + [PromptTemplates.Message("user", ex.report), PromptTemplates.Message("assistant", dumps(ex.json))]
  }

  /** Two messages per exemplar, user then assistant, in exemplar order; the
      user content is exactly the report text. */
  lemma {:induction false} FewShotLayout(exs: seq<Prompts.Exemplar>, dumps: Json -> string)
    ensures forall i :: 0 <= i < |exs| ==>
      && FewShotMessages(exs, dumps)[2 * i] == PromptTemplates.Message("user", exs[i].report)
      && FewShotMessages(exs, dumps)[2 * i + 1] == PromptTemplates.Message("assistant", dumps(exs[i].json))
    decreases |exs|
  {
    if exs != [] {
      var init := exs[..|exs| - 1];
      FewShotLayout(init, dumps);
      forall i | 0 <= i < |init| ensures init[i] == exs[i] {}
    }
  }

  const VersionTag: string := "\nPROMPT_VERSION="

  const UserHead: string := "Extract structured JSON conforming to the following JSON Schema:\n"

  const ReportTag: string := "\nReport:\n"

  /** The loop of `build_prompt` that accumulates the few-shot list. */
  method CollectFewShot(exemplars: seq<Prompts.Exemplar>, dumps: Json -> string) returns (few: seq<Message>)
    ensures few == FewShotMessages(exemplars, dumps)
  {
    few := [];
    for i := 0 to |exemplars|
      invariant few == FewShotMessages(exemplars[..i], dumps)
    {
      assert exemplars[..i + 1][..i] == exemplars[..i];
      var ex := exemplars[i];
      few := few + [PromptTemplates.Message("user", ex.report)];
      few := few + [PromptTemplates.Message("assistant", dumps(ex.json))];
    }
    assert exemplars[..|exemplars|] == exemplars;
  }

  /** `build_prompt`: the few-shot messages for `FEW_SHOT`, the system prompt
      tagged with the version, and the user instruction around the schema
      text and the report; `schemaText` stands for
      `json.dumps(get_json_schema(), indent=2)`. */
  method BuildPrompt(reportText: string, version: string, dumps: Json -> string, schemaText: string)
    returns (p: Decode.Prompt)
    ensures p.system == SystemFor(version)
    ensures p.fewshot == FewShotMessages(Prompts.FewShot, dumps)
    ensures p.user == UserFor(schemaText, reportText)
  {
    var few := CollectFewShot(Prompts.FewShot, dumps);
    return Decode.Prompt(SystemFor(version), few, UserFor(schemaText, reportText));
  }

  /** The system string of `build_prompt`. */
  function SystemFor(version: string): string {
    Prompts.SystemPrompt + VersionTag + version
  }

  /** The user string of `build_prompt`. */
  function UserFor(schemaText: string, reportText: string): string {
    UserHead + schemaText + ReportTag + reportText + "\n"
  }

  /** The prompt `build_prompt` returns. */
  function PromptFor(reportText: string, version: string, dumps: Json -> string, schemaText: string): Decode.Prompt {
    Decode.Prompt(SystemFor(version), FewShotMessages(Prompts.FewShot, dumps), UserFor(schemaText, reportText))
  }

  /** The system text is the system prompt followed by the version tag. */
  lemma SystemText(version: string)
    ensures StartsWith(SystemFor(version), Prompts.SystemPrompt)
    ensures EndsWith(SystemFor(version), VersionTag + version)
  {
    AppendEnds(Prompts.SystemPrompt, VersionTag + version);
    assert SystemFor(version) == Prompts.SystemPrompt + (VersionTag + version);
  }

  /** The user text starts with the instruction and the schema, and ends with
      the report block after the schema. */
  lemma UserText(schemaText: string, reportText: string)
    ensures StartsWith(UserFor(schemaText, reportText), UserHead + schemaText)
    ensures EndsWith(UserFor(schemaText, reportText), ReportTag + reportText + "\n")
  {
    assert UserFor(schemaText, reportText) == (UserHead + schemaText) + (ReportTag + reportText + "\n");
    AppendEnds(UserHead + schemaText, ReportTag + reportText + "\n");
  }

  /** With the one exemplar, the few-shot list is its report as a user message
      and its serialised JSON as an assistant message. */
  lemma PromptFewShot(dumps: Json -> string)
    ensures FewShotMessages(Prompts.FewShot, dumps) ==
      [PromptTemplates.Message("user", Prompts.ExemplarReport),
       PromptTemplates.Message("assistant", dumps(Obj(Prompts.ExemplarFields)))]
  {
    FewShotLayout(Prompts.FewShot, dumps);
    assert Prompts.FewShot[0] == Prompts.Exemplar(Prompts.ExemplarReport, Obj(Prompts.ExemplarFields));
  }

  lemma AppendEnds(a: string, b: string)
    ensures StartsWith(a + b, a) && EndsWith(a + b, b)
  {
    assert (a + b)[..|a|] == a;
    assert (a + b)[|a + b| - |b|..] == b;
  }

  // ---------------------------------------------------------------------------
  // extract_from_text
  // ---------------------------------------------------------------------------

  /** What `constrained_json_completion` returns for a client whose next replies
      are `script`: the first attempt's object if it decodes, else the
      second's, else the retry error wrapping the second failure. */
  function CompletionOutcome(parse: string -> Option<Json>, script: seq<Option<string>>): (r: Result<Json, Decode.CompletionError>)
    ensures r.Success? ==> Schema.Conforms(r.value)
  {
    var first := Decode.Attempt(parse, Decode.ReplyAt(script, 0));
    if first.Success? then Success(first.value)
    else
      var second := Decode.Attempt(parse, Decode.ReplyAt(script, 1));
      if second.Success? then Success(second.value) else Failure(Decode.RetryError(second.error))
  }

  /** The requests a completion sends: one when the first attempt succeeds,
      otherwise two. */
  function Sent(parse: string -> Option<Json>, script: seq<Option<string>>, request: Decode.ChatRequest): (r: seq<Decode.ChatRequest>)
    ensures |r| == Used(parse, script) && forall k :: 0 <= k < |r| ==> r[k] == request
  {
    if Decode.Attempt(parse, Decode.ReplyAt(script, 0)).Success? then [request] else [request, request]
  }

  /** How many scripted replies a completion consumes: one when the first
      attempt succeeds, otherwise two. */
  function Used(parse: string -> Option<Json>, script: seq<Option<string>>): (n: nat)
    ensures n == 1 <==> Decode.Attempt(parse, Decode.ReplyAt(script, 0)).Success?
    ensures n == 2 <==> Decode.Attempt(parse, Decode.ReplyAt(script, 0)).Failure?
  {
    if Decode.Attempt(parse, Decode.ReplyAt(script, 0)).Success? then 1 else 2
  }

  /** `extract_from_text`: build the prompt with version "v1", decode, then
      post-process the decoded object in place. `read`-free: the report text
      is given. */
  method ExtractFromText(reportText: string, client: Decode.ChatClient, model: string,
                         kwargs: map<string, Json>, parse: string -> Option<Json>,
                         dumps: Json -> string, schemaText: string, schema: Json)
    returns (r: Result<Dict, Decode.CompletionError>)
    modifies client
    ensures var outcome := CompletionOutcome(parse, old(client.replies));
      && (r.Failure? <==> outcome.Failure?)
      && (r.Failure? ==> r.error == outcome.error)
      && (r.Success? ==>
            fresh(r.value) && Postprocess.Normalizable(outcome.value.fields) &&
            r.value.fields == Postprocess.Normalized(outcome.value.fields))
    ensures client.requests == old(client.requests) +
      Sent(parse, old(client.replies), Decode.RequestFor(PromptFor(reportText, "v1", dumps, schemaText), model, kwargs, schema))
    ensures client.replies == Remaining(parse, old(client.replies))
  {
    var prompt := BuildPrompt(reportText, "v1", dumps, schemaText);
    assert prompt == PromptFor(reportText, "v1", dumps, schemaText);
    ghost var request := Decode.RequestFor(prompt, model, kwargs, schema);
    ghost var script := client.replies;
    var raw := Decode.ConstrainedJsonCompletion(prompt, client, model, kwargs, schema, parse);
    assert client.requests == old(client.requests) + Sent(parse, script, request);
    if raw.Failure? {
      return Failure(raw.error);
    }
    var post := Normalize(raw.value, reportText);
    return Success(post);
  }

  /** The decoded object as the mutable dictionary `json.loads` returns,
      post-processed in place. */
  method Normalize(raw: Json, reportText: string) returns (post: Dict)
    requires Schema.Conforms(raw)
    ensures fresh(post) && Postprocess.Normalizable(raw.fields)
    ensures post.fields == Postprocess.Normalized(raw.fields)
  {
    Postprocess.ConformsIsNormalizable(raw);
    var obj := new Dict(raw.fields);
    post := Postprocess.NormalizeUnitsAndCleanup(obj, reportText);
  }

  // ---------------------------------------------------------------------------
  // batch_extract: which files, in which order, under which names
  // ---------------------------------------------------------------------------

  /** `f.lower().endswith(".txt")`. */
  predicate IsReport(name: string) {
    EndsWith(Lower(name), ".txt")
  }

  function Reports(names: seq<string>): (r: seq<string>)
    ensures forall f :: f in r <==> f in names && IsReport(f)
    ensures multiset(r) <= multiset(names)
    decreases |names|
  {
    if names == [] then []
    else
      var rest := Reports(names[1..]);
      assert names == [names[0]] + names[1..];
      if IsReport(names[0]) then [names[0]] + rest else rest
  }

  /** The files a batch processes: the directory listing filtered to report
      names, then sorted. */
  function SelectReports(listing: seq<string>): (r: seq<string>)
    ensures Sorted(r)
    ensures forall f :: f in r <==> f in listing && IsReport(f)
    ensures multiset(r) == multiset(Reports(listing))
  {
    var r := Sort(Reports(listing));
    assert forall f :: f in r <==> f in multiset(r);
    r
  }

  /** The order of the listing does not matter: two listings with the same
      names give the same batch. */
  lemma SelectionIgnoresOrder(a: seq<string>, b: seq<string>)
    requires forall i, j :: 0 <= i < j < |a| ==> a[i] != a[j]
    requires forall i, j :: 0 <= i < j < |b| ==> b[i] != b[j]
    requires forall f :: f in a <==> f in b
    ensures SelectReports(a) == SelectReports(b)
  {
    var ra, rb := SelectReports(a), SelectReports(b);
    NoDuplicates(a);
    NoDuplicates(b);
    SortedDistinct(ra);
    SortedDistinct(rb);
    StrictlySortedUnique(ra, rb);
  }

  /** A listing without repeated names gives a batch without repeated names. */
  lemma NoDuplicates(a: seq<string>)
    requires forall i, j :: 0 <= i < j < |a| ==> a[i] != a[j]
    ensures forall i, j :: 0 <= i < j < |SelectReports(a)| ==> SelectReports(a)[i] != SelectReports(a)[j]
  {
    var r := SelectReports(a);
    forall x ensures multiset(a)[x] <= 1 {
      DistinctCount(a, x);
    }
    forall i, j | 0 <= i < j < |r| ensures r[i] != r[j] {
      assert multiset(r)[r[i]] <= multiset(a)[r[i]];
      SingleOccurrence(r, i, j);
    }
  }

  lemma {:induction false} DistinctCount(a: seq<string>, x: string)
    requires forall i, j :: 0 <= i < j < |a| ==> a[i] != a[j]
    ensures multiset(a)[x] <= 1
    decreases |a|
  {
    if a != [] {
      assert a == [a[0]] + a[1..];
      DistinctCount(a[1..], a[0]);
      DistinctCount(a[1..], x);
      if x == a[0] {
        assert x !in a[1..];
      }
    }
  }

  /** An element that occurs at most once is at no two positions. */
  lemma SingleOccurrence(r: seq<string>, i: nat, j: nat)
    requires i < j < |r| && multiset(r)[r[i]] <= 1
    ensures r[i] != r[j]
  {
    assert r == r[..j] + [r[j]] + r[j + 1..];
    assert r[i] in r[..j];
    assert multiset(r) == multiset(r[..j]) + multiset{r[j]} + multiset(r[j + 1..]);
  }

  /** `fname.replace(".txt", ".json")`: every lowercase ".txt" is replaced. */
  function OutputName(name: string): string {
    ReplaceAll(name, ".txt", ".json")
  }

  /** A report name `stem + ".txt"` whose stem holds no ".txt" becomes
      `stem + ".json"`. */
  lemma RenameReport(stem: string)
    requires !Contains(stem, ".txt")
    ensures OutputName(stem + ".txt") == stem + ".json"
  {
    assert ".txt"[1..] == "txt";
    ReplaceAtEnd(stem, ".txt", ".json");
  }

  /** The replacement is case-sensitive: "A.TXT" is selected as a report but
      keeps its name. */
  lemma UpperCaseName()
    ensures IsReport("A.TXT")
    ensures OutputName("A.TXT") == "A.TXT"
  {
    assert Lower("A.TXT") == ".txt"[..0] + "a.txt";
    assert Lower("A.TXT")[|"A.TXT"| - 4..] == ".txt";
    assert "A.TXT"[2] == 'T';
    assert !Contains("A.TXT", ".txt") by {
      assert !StartsWith("A.TXT", ".txt");
      assert "A.TXT"[1..] == ".TXT";
      assert !StartsWith(".TXT", ".txt") by { assert ".TXT"[1] != ".txt"[1]; }
      assert "A.TXT"[1..][1..] == "TXT";
      NotContainsFirst("TXT", ".txt");
    }
    ReplaceAbsent("A.TXT", ".txt", ".json");
  }

  /** The fields `batch_extract` writes after post-processing. */
  function Stamp(data: map<string, Json>, model: string): map<string, Json> {
    data["model_name" := Str(model)]["prompt_version" := Str("v1")]
  }

  /** A written document: a schema-valid decoded object, post-processed, then
      stamped with the model name and the prompt version. */
  ghost predicate FromDecoded(data: map<string, Json>, model: string) {
    exists raw: Json :: Schema.Conforms(raw) && Postprocess.Normalizable(raw.fields)
      && data == Stamp(Postprocess.Normalized(raw.fields), model)
  }

  /** The document written for a decoded object. */
  function DocumentOf(raw: Json, model: string): (data: map<string, Json>)
    requires Schema.Conforms(raw)
    ensures FromDecoded(data, model)
  {
    Postprocess.ConformsIsNormalizable(raw);
    Stamp(Postprocess.Normalized(raw.fields), model)
  }

  /** One iteration of `batch_extract`'s loop: read, extract, stamp, and
      name the output. */
  method ProcessFile(fname: string, read: string -> string, client: Decode.ChatClient, model: string,
                     kwargs: map<string, Json>, parse: string -> Option<Json>,
                     dumps: Json -> string, schemaText: string, schema: Json)
    returns (r: Result<(string, map<string, Json>), Decode.CompletionError>)
    modifies client
    ensures var outcome := CompletionOutcome(parse, old(client.replies));
      && (r.Failure? <==> outcome.Failure?)
      && (r.Failure? ==> r.error == outcome.error)
      && (r.Success? ==> r.value == (OutputName(fname), DocumentOf(outcome.value, model)))
    ensures r.Success? ==> FromDecoded(r.value.1, model)
    ensures client.requests == old(client.requests) +
      Sent(parse, old(client.replies), Decode.RequestFor(PromptFor(read(fname), "v1", dumps, schemaText), model, kwargs, schema))
    ensures client.replies == Remaining(parse, old(client.replies))
  {
    var reportText := read(fname);
    ghost var script := client.replies;
    var data := ExtractFromText(reportText, client, model, kwargs, parse, dumps, schemaText, schema);
    if data.Failure? {
      return Failure(data.error);
    }
    ghost var raw := CompletionOutcome(parse, script).value;
    var doc := data.value;
    doc.Set("model_name", Str(model));
    doc.Set("prompt_version", Str("v1"));
    assert doc.fields == DocumentOf(raw, model);
    return Success((OutputName(fname), doc.fields));
  }

  /** The replies a completion leaves to the next one. */
  function Remaining(parse: string -> Option<Json>, script: seq<Option<string>>): seq<Option<string>> {
    Decode.Drop(script, Used(parse, script))
  }

  /** The writes of the first `|written|` files: `pending[k]` are the replies
      the client still has when file `k` is processed; its completion
      succeeds, leaves `pending[k + 1]`, and the write is named after the
      file and holds the document of the decoded object. */
  ghost predicate Processed(files: seq<string>, written: seq<(string, map<string, Json>)>,
                            pending: seq<seq<Option<string>>>, parse: string -> Option<Json>, model: string) {
    && |pending| == |written| + 1 && |written| <= |files|
    && forall k :: 0 <= k < |written| ==>
         && CompletionOutcome(parse, pending[k]).Success?
         && pending[k + 1] == Remaining(parse, pending[k])
         && written[k] == (OutputName(files[k]), DocumentOf(CompletionOutcome(parse, pending[k]).value, model))
  }

  /** One more file written. */
  lemma ProcessedSnoc(files: seq<string>, written: seq<(string, map<string, Json>)>,
                      pending: seq<seq<Option<string>>>, parse: string -> Option<Json>, model: string)
    requires Processed(files, written, pending, parse, model) && |written| < |files|
    requires CompletionOutcome(parse, pending[|written|]).Success?
    ensures var script := pending[|written|];
      Processed(files, written + [(OutputName(files[|written|]), DocumentOf(CompletionOutcome(parse, script).value, model))],
                pending + [Remaining(parse, script)], parse, model)
  {
    var n := |written|;
    var script := pending[n];
    var w := written + [(OutputName(files[n]), DocumentOf(CompletionOutcome(parse, script).value, model))];
    var p := pending + [Remaining(parse, script)];
    forall k | 0 <= k < |w|
      ensures CompletionOutcome(parse, p[k]).Success? && p[k + 1] == Remaining(parse, p[k])
      ensures w[k] == (OutputName(files[k]), DocumentOf(CompletionOutcome(parse, p[k]).value, model))
    {
      assert p[k] == pending[k];
      if k < n {
        assert w[k] == written[k] && p[k + 1] == pending[k + 1];
      }
    }
  }

  /** The writes and the pending replies are determined by the first
      script: two runs over the same files that write as many files agree. */
  lemma ProcessedDeterministic(files: seq<string>, parse: string -> Option<Json>, model: string,
                               w1: seq<(string, map<string, Json>)>, p1: seq<seq<Option<string>>>,
                               w2: seq<(string, map<string, Json>)>, p2: seq<seq<Option<string>>>)
    requires Processed(files, w1, p1, parse, model) && Processed(files, w2, p2, parse, model)
    requires p1[0] == p2[0] && |w1| == |w2|
    ensures w1 == w2 && p1 == p2
  {
    forall n | 0 <= n < |p1| ensures p1[n] == p2[n] {
      SamePending(files, parse, model, w1, p1, w2, p2, n);
    }
  }

  lemma {:induction false} SamePending(files: seq<string>, parse: string -> Option<Json>, model: string,
                                       w1: seq<(string, map<string, Json>)>, p1: seq<seq<Option<string>>>,
                                       w2: seq<(string, map<string, Json>)>, p2: seq<seq<Option<string>>>, n: nat)
    requires Processed(files, w1, p1, parse, model) && Processed(files, w2, p2, parse, model)
    requires p1[0] == p2[0] && |w1| == |w2| && n < |p1|
    ensures p1[n] == p2[n]
  {
    if n > 0 {
      SamePending(files, parse, model, w1, p1, w2, p2, n - 1);
      assert p1[n] == Remaining(parse, p1[n - 1]);
      assert p2[n] == Remaining(parse, p2[n - 1]);
    }
  }

  /** Every written document is stamped with the batch's model and comes
      from a validated, post-processed object. */
  lemma ProcessedDocuments(files: seq<string>, written: seq<(string, map<string, Json>)>,
                           pending: seq<seq<Option<string>>>, parse: string -> Option<Json>, model: string)
    requires Processed(files, written, pending, parse, model)
    ensures forall k :: 0 <= k < |written| ==> written[k].0 == OutputName(files[k]) && FromDecoded(written[k].1, model)
  {
  }

  /** `batch_extract` without the file system: `listing` is the input
      directory's listing and `read` its contents. The result is the list of
      (output name, document) writes in order, with `pending` the replies
      left before each file; the loop has no `try`, so the first failed
      completion ends it, after the earlier files have been written. */
  method BatchExtract(listing: seq<string>, read: string -> string, client: Decode.ChatClient, model: string,
                      kwargs: map<string, Json>, parse: string -> Option<Json>,
                      dumps: Json -> string, schemaText: string, schema: Json)
    returns (written: seq<(string, map<string, Json>)>, failure: Option<Decode.CompletionError>,
             ghost pending: seq<seq<Option<string>>>)
    modifies client
    ensures var files := SelectReports(listing);
      && Processed(files, written, pending, parse, model) && pending[0] == old(client.replies)
      && (failure.None? ==> |written| == |files| && client.replies == pending[|written|])
      && (failure.Some? ==>
            && |written| < |files|
            && CompletionOutcome(parse, pending[|written|]).Failure?
            && failure.value == CompletionOutcome(parse, pending[|written|]).error
            && client.replies == Remaining(parse, pending[|written|]))
  {
    var files := SelectReports(listing);
    written, pending := [], [client.replies];
    for i := 0 to |files|
      invariant |written| == i && Processed(files, written, pending, parse, model)
      invariant pending[0] == old(client.replies) && client.replies == pending[i]
    {
      var out := ProcessFile(files[i], read, client, model, kwargs, parse, dumps, schemaText, schema);
      if out.Failure? {
        return written, Some(out.error), pending;
      }
      ProcessedSnoc(files, written, pending, parse, model);
      written, pending := written + [out.value], pending + [client.replies];
    }
    failure := None;
  }

  /** `model_name` and `prompt_version` are written after post-processing, so
      they always carry the batch's values. */
  lemma StampedFields(data: map<string, Json>, model: string)
    requires FromDecoded(data, model)
    ensures "model_name" in data && data["model_name"] == Str(model)
    ensures "prompt_version" in data && data["prompt_version"] == Str("v1")
  {
    assert "model_name"[0] != "prompt_version"[0];
  }
}
