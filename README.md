# storymode in Dafny

A verified model of the deterministic core of *storymode*. storymode is a radiology-report
extraction pipeline. It asks a chat model for a JSON record that follows the
`ReportExtraction` schema: a study summary plus a list of lesions. It then repairs and
validates the reply and post-processes it, and it can score a directory of
predictions against a directory of references.

The model covers eight parts of the pipeline:

- **`Schema`** (`schema.dfy`): the `Lesion`, `Summary` and `ReportExtraction` records. It
  also covers their enumerations, what JSON Schema validation of a decoded object admits
  (`Conforms`), and record construction from a decoded dictionary, including the
  `non_negative` validator.
- **`Decode`** (`decode.dfy`):
  - the textual repair `_repair_common`;
  - `coerce_and_validate`: parse, else repair and parse once more, then validate;
  - `constrained_json_completion`: one request, tried at most twice.

  The JSON parser is a function parameter. The OpenAI-compatible client is a scripted
  object that records every request it receives.
- **`Postprocess`** (`postprocess.dfy`): `normalize_units_and_cleanup` on a mutable dictionary.
  It reads centimetre sizes as millimetres and clamps negative sizes to 0. It fills in
  the lesion count if it is missing and recomputes the metastasis flag.
- **`Prompts`** and **`Extract`** (`prompts.dfy`, `extract.dfy`):
  - the system prompt and the one few-shot exemplar;
  - `build_prompt`, `extract_from_text`;
  - `batch_extract`, over a directory listing and a file reader.
- **`PromptTemplates`** (`prompt_templates.dfy`): the four chat serialisers (Mistral, Qwen,
  Llama, generic) as loops, each proved equal to one `Render` function. It also models the
  formatter registry.
- **`Models`** (`models.dfy`):
  - the registry of model configurations;
  - sampling-parameter merging;
  - the two backends' prompt building and `close`;
  - the `ModelManager` cache of backends.
- **`Eval`** (`eval.dfy`):
  - `_safe_get` and the match key;
  - the greedy lesion pairing;
  - the size error and tolerance counts;
  - `collect_slots`, and `evaluate` over in-memory collections.
- **`Strings`**, **`JsonValue`**, **`Wrappers`** (`strings.dfy`, `json.dfy`,
  `wrappers.dfy`): the parts of Python's `str`, of decoded JSON values and of mutable
  dictionaries that the rest uses.

Decoded JSON is the datatype `Json`, and its numbers are integers. Sizes are whole
millimetres, as the schema declares (`MM = int`). So `_cm_to_mm(v)` is exactly `10 * v`,
and the mean error is an exact fraction; the overflow of `float(v)` on huge integers is not
modelled (see "Floating point" below).

Where the documented behaviour and the code disagree, the model follows the code:

- The `non_negative` validator of `Lesion` is not part of the JSON Schema that
  `get_json_schema` produces (pydantic does not export validators). A reply with a
  negative `size_mm` therefore passes `coerce_and_validate`, and the post-processor then
  clamps the size to 0. `Schema.Conforms` admits negative sizes, and only
  `Schema.LesionFromJson` (building the record) rejects them.
- `_repair_common` promises in a comment to repair trailing commas. It replaces only
  quotes and the three Python constants. `Decode.RepairCommon` models what it does.
- `fname.replace(".txt", ".json")` is case-sensitive, while the selection of report files
  is not. So `A.TXT` is processed and written under its own name
  (`Extract.UpperCaseName`).

## Model

| member | source | states |
|---|---|---|
| Strings.Strip | src/storymode/decode.py:21 | `str.strip()`: the input is the result with some whitespace before it and some after it, and the result has no whitespace at either end |
| Strings.StripTrailingSpace | src/storymode/prompts.py:13-18 | stripping a trimmed text followed only by whitespace gives back the trimmed text (how the triple-quoted report literal is stripped) |
| Strings.Lower | src/storymode/eval.py:25-26 | `str.lower()` on ASCII letters: same length, each ASCII capital replaced by its small letter and every other character kept |
| Strings.LowerIdempotent | src/storymode/eval.py:25-26 | lowercasing twice is lowercasing once |
| Strings.ReplaceAll | src/storymode/decode.py:22-23 | `str.replace`: a replacement of the same length as the pattern keeps the length of the text |
| Strings.ReplaceAbsent | src/storymode/decode.py:22-23 | replacing a pattern that does not occur leaves the text unchanged |
| Strings.ReplaceLeavesNo | src/storymode/decode.py:22-23 | after a replacement, a word that the replacement text cannot form is absent wherever it was absent before, and the pattern itself is always absent |
| Strings.ContainsAt | src/storymode/postprocess.py:13 | Python's `w in s` holds exactly when `w` occurs at some offset of `s` |
| Strings.Sort | src/storymode/extract.py:41 | `sort()`: the result is ordered by Python's string order and is a permutation of the input |
| Strings.StrictlySortedUnique | src/storymode/eval.py:73 | two strictly sorted sequences with the same elements are equal, so `sorted(keys)` has one result |
| Strings.BelowTotal | src/storymode/eval.py:73 | Python's string `<` is total on distinct strings |
| Strings.BelowTransitive | src/storymode/eval.py:73 | Python's string `<` is transitive |
| JsonValue.TextOr | src/storymode/postprocess.py:12 | `v or ""`: a truthy value is the string itself, and a falsy one gives `""` |
| JsonValue.NumValue | src/storymode/postprocess.py:13 | the number Python uses for an `int`, `True` or `False` |
| JsonValue.Dict.Set | src/storymode/postprocess.py:18 | `d[k] = v` updates that entry only |
| Schema.ParseFindingType | src/storymode/schema.py:10 | a `finding_type` literal is accepted exactly when it is one of the five names, and it names the value it parses to |
| Schema.ParseLaterality | src/storymode/schema.py:15 | a `laterality` literal is accepted exactly when it is one of the five names |
| Schema.ParseMeasureAxis | src/storymode/schema.py:16 | a `measure_axis` literal is accepted exactly when it is one of the four names |
| Schema.ParseCertainty | src/storymode/schema.py:18 | a `certainty` literal is accepted exactly when it is one of the three names |
| Schema.ParseModality | src/storymode/schema.py:32 | a `modality` literal is accepted exactly when it is one of the six names |
| Schema.ParseBodyRegion | src/storymode/schema.py:33 | a `body_region` literal is accepted exactly when it is one of the six names |
| Schema.ParseSchemaVersion | src/storymode/schema.py:48 | a `schema_version` literal is accepted exactly when it is `"1.0"` |
| Schema.EnumNamesRoundTrip | src/storymode/schema.py:10-18 | every enumeration value's name parses back to that value |
| Schema.ReqText | src/storymode/schema.py:9 | a required `str` field converts exactly when it is present and a string |
| Schema.OptText | src/storymode/schema.py:12 | an `Optional[str] = None` field converts exactly when the schema admits it (absent, null or a string) |
| Schema.OptInt | src/storymode/schema.py:17 | an `Optional[int]` field converts exactly when it is absent, null or an integer |
| Schema.OptFlag | src/storymode/schema.py:35 | an `Optional[bool]` field converts exactly when it is absent, null or a boolean |
| Schema.BoolField | src/storymode/schema.py:13 | a `bool` field with a default converts exactly when it is absent or a boolean |
| Schema.Enum | src/storymode/schema.py:10 | a `Literal` field with a default converts exactly when it is absent or one of the literals |
| Schema.OptEnum | src/storymode/schema.py:15-18 | an optional `Literal` field converts exactly when it is absent, null or one of the literals |
| Schema.LesionFromJson | src/storymode/schema.py:8-28 | `Lesion(**m)` succeeds exactly when every field is admitted and an integer size is not negative; every lesion built is valid |
| Schema.SummaryFromJson | src/storymode/schema.py:31-36 | `Summary(**m)` succeeds exactly when every field is admitted |
| Schema.LesionsFromJson | src/storymode/schema.py:43 | a lesion list builds exactly when every element is an object that builds, and the result holds those lesions in order |
| Schema.ExtractionFromJson | src/storymode/schema.py:39-48 | `ReportExtraction(**m)` succeeds exactly when the object passes JSON Schema validation and no lesion size is negative; the record built is valid |
| Schema.LesionBuilt | src/storymode/schema.py:8-28 | a dictionary that holds every field of a valid lesion builds exactly that lesion |
| Schema.LesionRoundTrip | src/storymode/schema.py:8-28 | a valid lesion dumped to a dictionary builds back unchanged, and its dump passes validation |
| Schema.SummaryRoundTrip | src/storymode/schema.py:31-36 | every summary dumped to a dictionary builds back unchanged, and its dump passes validation |
| Schema.LesionsRoundTrip | src/storymode/schema.py:43 | a list of valid lesions dumped element by element builds back to the same list, every element passes validation and no dumped size is negative |
| Schema.ExtractionBuilt | src/storymode/schema.py:39-48 | a dictionary holding an extraction's scalar fields, a summary that builds and a lesion list that builds builds exactly that extraction |
| Schema.ExtractionRoundTrip | src/storymode/schema.py:39-48 | every valid extraction's `model_dump()` passes JSON Schema validation and builds back unchanged |
| Schema.NegativeSizeRejected | src/storymode/schema.py:23-28 | a size of -1 makes lesion construction fail |
| Schema.ZeroSizeAccepted | src/storymode/schema.py:23-28 | a size of 0 is accepted and kept |
| Schema.NoSizeAccepted | src/storymode/schema.py:17 | a null size and an absent size both build a lesion with no size |
| Schema.RequiredLesionFields | src/storymode/schema.py:9-11 | without `lesion_id` or `body_site` a lesion neither validates nor builds |
| Schema.ValidationExample | tests/test_validation.py:3-12 | the extraction of the validation test validates and builds, with a lesion count of 2 |
| Schema.ExampleLesion1Builds | tests/test_validation.py:7 | the test's first lesion builds the record with its stated fields and defaults elsewhere |
| Schema.ExampleLesion2Builds | tests/test_validation.py:8 | the test's second lesion builds the record with its stated fields and defaults elsewhere |
| Decode.RepairRemovesPythonisms | src/storymode/decode.py:19-24 | the repaired text holds no single quote and none of the words `True`, `False`, `None` |
| Decode.RepairLength | src/storymode/decode.py:19-24 | the repaired text is exactly as long as the stripped input |
| Decode.RepairIsTrimmed | src/storymode/decode.py:19-24 | the repaired text has no whitespace at either end |
| Decode.RepairIdempotent | src/storymode/decode.py:19-24 | repairing repaired text changes nothing |
| Decode.RepairExample | src/storymode/decode.py:19-24 | `{'a': True}` is repaired to `{"a": true}` |
| Decode.CoerceAndValidate | src/storymode/decode.py:26-33 | text that parses is validated as it is; only text that does not parse is repaired; the result is an invalid-JSON error exactly when neither parses; a success always passes validation |
| Decode.StrictInputNotRepaired | src/storymode/decode.py:28-31 | when the text parses, the outcome does not depend on how the repaired text would parse |
| Decode.RepairParsedOnce | src/storymode/decode.py:26-33 | the outcome depends only on how the text and its repair parse |
| Decode.CoerceExample | src/storymode/decode.py:26-33 | `{'a': True}` is repaired, parses and is then rejected by validation |
| Decode.RequestShape | src/storymode/decode.py:42-55 | the request carries the system message, the few-shot messages in order and the user message; temperature and `max_tokens` default to 0 and 1200; the response format names the schema |
| Decode.ChatClient.Create | src/storymode/decode.py:42-56 | a call records its request and returns the next scripted reply |
| Decode.Attempt | src/storymode/decode.py:42-57 | a failed client call is a client failure; otherwise the reply goes through `coerce_and_validate` |
| Decode.TryOnce | src/storymode/decode.py:42-57 | one attempt records the request, consumes one reply and gives that reply's outcome; a success passes validation |
| Decode.ConstrainedJsonCompletion | src/storymode/decode.py:35-57 | the first successful attempt wins; one request is sent and one reply consumed if the first attempt succeeds, and two of each otherwise; after two failures the second error is wrapped; a success passes validation |
| Postprocess.NormalizeEntry | src/storymode/postprocess.py:12-21 | one pass of the loop body computes the lesion's normal form |
| Postprocess.NormalizeUnitsAndCleanup | src/storymode/postprocess.py:8-27 | the same dictionary is returned, and it now holds the normal form of its old contents |
| Postprocess.NormalizedLesions | src/storymode/postprocess.py:11-21 | the output lesions are the input lesions, each normalised, in order; a summary object is always present |
| Postprocess.CmRule | src/storymode/postprocess.py:13-18 | with " cm" evidence and a numeric size of at most 10, the size becomes ten times its value, clamped at 0 |
| Postprocess.LargeSizeKept | src/storymode/postprocess.py:17 | a size above 10 is kept whatever the evidence says |
| Postprocess.NoCmRule | src/storymode/postprocess.py:20-21 | without " cm" evidence only a negative size changes, to 0 |
| Postprocess.NoNegativeSize | src/storymode/postprocess.py:19-21 | after normalisation every size is null or non-negative |
| Postprocess.LesionOnlySizeChanges | src/storymode/postprocess.py:11-21 | a lesion keeps its keys and every value except `size_mm` |
| Postprocess.MetastasisFlag | src/storymode/postprocess.py:25-26 | `metastasis_present` is set to whether some lesion has finding type "met" |
| Postprocess.TotalCountSetDefault | src/storymode/postprocess.py:23 | `total_lesion_count` keeps any value it had, and otherwise becomes the number of lesions |
| Postprocess.NothingElseChanges | src/storymode/postprocess.py:8-27 | apart from the lesion sizes and the two summary keys, the other top-level keys, summary keys and lesion fields are unchanged; the only key that can be added is `summary` |
| Postprocess.NormalizeLesionStaysNormalizable | src/storymode/postprocess.py:11-21 | a normalised lesion can be normalised again and still has " cm" evidence exactly when it had it before |
| Postprocess.LesionIdempotent | src/storymode/postprocess.py:11-21 | normalising a lesion twice equals normalising it once exactly when it does not have " cm" evidence with a size of 1 (1 becomes 10, and 10 becomes 100 on a second pass) |
| Postprocess.NormalizedIdempotent | src/storymode/postprocess.py:8-27 | the post-processor is idempotent on an object exactly when none of its lesions has " cm" evidence with a size of 1 |
| Postprocess.FixedPoint | src/storymode/postprocess.py:8-27 | an object is left unchanged if its lesions are stable, its count is present and its flag already agrees |
| Postprocess.ConformsIsNormalizable | src/storymode/postprocess.py:11-26 | everything that passes validation can be post-processed without raising, apart from the `float(v)` overflow left out below |
| Postprocess.CmEvidence | src/storymode/postprocess.py:12-13 | any evidence containing " cm" triggers the centimetre rule |
| Postprocess.CentimetreExample | src/storymode/postprocess.py:13-18 | a size of 2 with evidence "2 cm" becomes 20 |
| Postprocess.MillimetreExample | src/storymode/postprocess.py:17 | a size of 15 with evidence "15 mm nodule" is kept |
| Prompts.ReportText | src/storymode/prompts.py:13-18 | the stripped exemplar report is the literal without its final newline, and it contains each evidence span verbatim |
| Prompts.ExemplarValid | src/storymode/prompts.py:11-60 | the exemplar's JSON passes validation and builds the typed extraction it describes |
| Prompts.LesionsBuild | src/storymode/prompts.py:24-57 | the three exemplar lesions build the three records |
| Prompts.SummaryBuilds | src/storymode/prompts.py:20-23 | the exemplar summary builds a CT, CAP summary with metastases and a count of 3 |
| Prompts.ExemplarCounts | src/storymode/prompts.py:20-57 | the exemplar's lesion count equals its number of lesions, 3, and its metastasis flag is set |
| Prompts.ExemplarOneMet | src/storymode/prompts.py:47-56 | the third lesion, and only it, is a "met", which agrees with the flag |
| Prompts.ExemplarIdsAndSizes | src/storymode/prompts.py:24-57 | the lesion ids are distinct and every size is a non-negative integer |
| Prompts.ExemplarHasNoCm | src/storymode/prompts.py:24-57 | no exemplar lesion has " cm" evidence or a negative size |
| Prompts.ExemplarNormalized | src/storymode/prompts.py:11-60 | the post-processor leaves the exemplar exactly as it is |
| PromptTemplates.FormatMistral | src/storymode/prompt_templates.py:7-22 | the Mistral serialiser's loop produces the Mistral rendering of the messages |
| PromptTemplates.FormatQwen | src/storymode/prompt_templates.py:24-40 | the Qwen serialiser's loop produces the Qwen rendering |
| PromptTemplates.FormatLlama | src/storymode/prompt_templates.py:42-57 | the Llama serialiser's loop produces the Llama rendering |
| PromptTemplates.FormatGeneric | src/storymode/prompt_templates.py:59-75 | the generic serialiser's loop produces the generic rendering |
| PromptTemplates.Format | src/storymode/prompt_templates.py:7-75 | calling the formatter of a family gives that family's rendering |
| PromptTemplates.GetFormatter | src/storymode/prompt_templates.py:89-91 | a registered name gets its registered formatter, and any other name gets the generic one |
| PromptTemplates.RegisteredFormatters | src/storymode/prompt_templates.py:77-87 | the eight registered names, the four Mistral ones and the two Qwen ones, each as a set membership in both directions |
| PromptTemplates.ChunksConcat | src/storymode/prompt_templates.py:11-21 | serialisation distributes over concatenation of message lists |
| PromptTemplates.RenderConcat | src/storymode/prompt_templates.py:7-75 | the prompt for `a + b` is the prefix, `a`'s messages, `b`'s messages and the suffix |
| PromptTemplates.UnknownRoleIgnored | src/storymode/prompt_templates.py:15-20 | a message with any other role than system, user or assistant leaves the prompt unchanged |
| PromptTemplates.ContentVerbatim | src/storymode/prompt_templates.py:15-20 | a message with a known role has its content copied verbatim right after its opening marker |
| PromptTemplates.GenericEmpty | src/storymode/prompt_templates.py:59-75 | with no messages the generic prompt is only the opening of the assistant's turn |
| PromptTemplates.QwenIsGeneric | src/storymode/prompt_templates.py:24-75 | the Qwen and generic serialisers agree on every input |
| PromptTemplates.MistralShape | src/storymode/prompt_templates.py:7-22 | the Mistral prompt is `<s>` followed by its messages; system and user messages are rendered alike, and an assistant message as its content after a space |
| Extract.FewShotMessages | src/storymode/extract.py:13-16 | two messages per exemplar |
| Extract.FewShotLayout | src/storymode/extract.py:13-16 | the `2i`-th message is exemplar `i`'s report from the user and the next is its JSON dump from the assistant |
| Extract.CollectFewShot | src/storymode/extract.py:13-16 | the loop builds the few-shot messages |
| Extract.BuildPrompt | src/storymode/extract.py:11-29 | the prompt's system text, few-shot list and user text are those of the exemplars, version and report |
| Extract.SystemText | src/storymode/extract.py:26 | the system text starts with the system prompt and ends with the version tag |
| Extract.UserText | src/storymode/extract.py:20-24 | the user text starts with the instruction and the schema and ends with the report and a newline |
| Extract.PromptFewShot | src/storymode/extract.py:13-16 | with the one exemplar, the few-shot list is its report as a user message and its dump as an assistant message |
| Extract.CompletionOutcome | src/storymode/decode.py:35-57 | what a completion returns for a scripted client; a success passes validation |
| Extract.Sent | src/storymode/decode.py:35-57 | a completion sends one copy of the request per reply it consumes, all equal to that request |
| Extract.Used | src/storymode/decode.py:35-57 | a completion consumes one reply exactly when the first attempt succeeds, and two exactly when it fails |
| Extract.ExtractFromText | src/storymode/extract.py:31-35 | it fails exactly when the completion fails, with the same error; otherwise it gives a new dictionary holding the post-processed decoded object; the requests recorded are the completion's requests for the "v1" prompt, and the replies left are those the completion did not consume |
| Extract.Normalize | src/storymode/extract.py:34 | a validated object can be post-processed, and the result is its normal form |
| Extract.Reports | src/storymode/extract.py:40 | exactly the listed names that end in ".txt" in any case, with no name repeated more often than in the listing |
| Extract.SelectReports | src/storymode/extract.py:40-41 | the report names of the listing, sorted, as a permutation of the filtered list |
| Extract.SelectionIgnoresOrder | src/storymode/extract.py:40-41 | two listings without repeats that hold the same names give the same batch |
| Extract.NoDuplicates | src/storymode/extract.py:40-41 | a listing without repeats gives a batch without repeats |
| Extract.RenameReport | src/storymode/extract.py:50 | `stem.txt` is written as `stem.json` when the stem holds no ".txt" |
| Extract.UpperCaseName | src/storymode/extract.py:40-50 | `A.TXT` is selected but keeps its name on output |
| Extract.DocumentOf | src/storymode/extract.py:47-49 | the document for a validated object is that object post-processed and stamped |
| Extract.ProcessFile | src/storymode/extract.py:44-50 | the file fails exactly when its completion fails, with that error; otherwise it is written under its output name holding the stamped, post-processed decoded object; the requests sent are those for the "v1" prompt of the file's text, and the replies left are the unconsumed ones |
| Extract.BatchExtract | src/storymode/extract.py:37-51 | the `k`-th write is `files[k]`'s output name and the document of `files[k]`'s completion, each completion starting from the replies the previous one left; with no failure every sorted report file is written; a failure is the error of the first file whose completion fails, after every earlier file has been written |
| Extract.ProcessedSnoc | src/storymode/extract.py:43-50 | a successful completion of the next file extends the writes by that file's document |
| Extract.ProcessedDeterministic | src/storymode/extract.py:43-50 | the writes and the replies left before each file are determined by the client's first replies |
| Extract.ProcessedDocuments | src/storymode/extract.py:48-50 | every write is named after its file and holds a stamped, post-processed document of a validated object |
| Extract.StampedFields | src/storymode/extract.py:48-49 | every written document has `model_name` set to the model and `prompt_version` set to "v1" |
| Models.DefaultConfig | src/storymode/models.py:20-37 | every field not given takes the dataclass default |
| Models.GetModelConfig | src/storymode/models.py:248-252 | a registered name gets its configuration, which carries that name; any other name is an unknown-model error |
| Models.RegistryConsistent | src/storymode/models.py:165-243 | every registry key is its configuration's name; every entry uses the transformers backend and has a registered formatter; the Mistral-formatted entries do not require a system prompt and the Qwen ones do |
| Models.MergeSampling | src/storymode/models.py:73-81 | with no keyword arguments the backend's own parameters are used; otherwise each parameter comes from the arguments when given and from the backend's own when not |
| Models.UnrelatedKwargsKeepParams | src/storymode/models.py:75-81 | keyword arguments naming none of the four parameters change nothing |
| Models.MergeIdempotent | src/storymode/models.py:73-81 | merging the same arguments twice is merging them once |
| Models.FullKwargsOverride | src/storymode/models.py:75-81 | giving all four parameters replaces the backend's own entirely |
| Models.FormatterName | src/storymode/models.py:89 | a non-empty model name is used as it is; no name or the empty name falls back to "mistral-7b-instruct" |
| Models.UnnamedVllmIsMistral | src/storymode/models.py:86-90 | a vLLM backend without a model name formats with the Mistral serialiser |
| Models.Backend.constructor | src/storymode/models.py:57-67 | a new backend holds its engine's resources; a vLLM backend, and only it, carries the default sampling parameters (temperature 0.0, top_p 1.0, 1200 tokens, two stop strings) |
| Models.Backend.Close | src/storymode/models.py:92-94 | closing removes exactly the engine's resources, and closing twice does nothing more |
| Models.Backend.TransformersPrompt | src/storymode/models.py:138-153 | the transformers backend's prompt is the generic rendering, whatever the model |
| Models.Backend.VllmPrompt | src/storymode/models.py:86-90 | the vLLM backend's prompt is the rendering of the formatter registered for its model name |
| Models.Backend.VllmGenerate | src/storymode/models.py:69-84 | the engine gets the formatted prompt and the merged parameters, and its text comes back stripped; a closed backend fails |
| Models.ModelManager.constructor | src/storymode/models.py:245-246 | the cache starts empty |
| Models.ModelManager.GetBackend | src/storymode/models.py:254-271 | a cached name returns the cached backend and changes nothing; otherwise it succeeds exactly for a registered name whose backend can be built, caches the new backend under that name, and leaves the cache unchanged on failure; an unregistered name is an unknown-model error |
| Models.ModelManager.CloseAll | src/storymode/models.py:273-277 | every cached backend is closed and the cache is emptied |
| Models.RegisteredNamesBuild | src/storymode/models.py:165-271 | for a name not yet cached, building succeeds exactly for the registered names, whether or not vLLM is installed |
| Eval.SafeGet | src/storymode/eval.py:15-20 | the loop walks the keys and stops at the first `None` |
| Eval.PathConcat | src/storymode/eval.py:15-20 | walking `a + b` is walking `a` and then `b` from where `a` ended |
| Eval.NullPath | src/storymode/eval.py:17-18 | every walk from `None` ends at `None` |
| Eval.KeyIgnoresCase | src/storymode/eval.py:22-27 | the match key compares body site and node station without regard to ASCII case: a slot and its lowercased form give the same key |
| Eval.KeyMissingSlot | src/storymode/eval.py:25-26 | a missing, null or empty site or station gives the same match key |
| Eval.FindFree | src/storymode/eval.py:36-41 | the inner loop finds the lowest unused reference index with the same key, or none |
| Eval.FirstFree | src/storymode/eval.py:36-41 | the index found is unused and has the key, and every unused index before it has a different key; with no result, that holds for all |
| Eval.PairLesions | src/storymode/eval.py:29-45 | the loop computes the greedy pairing |
| Eval.GreedyStep | src/storymode/eval.py:33-44 | each prediction pairs with the lowest unused reference that has its key, or stays unpaired when none has |
| Eval.Pick | src/storymode/eval.py:44 | each pair is the prediction and reference at its indices |
| Eval.AssignUsed | src/storymode/eval.py:31-44 | the used set is exactly the set of paired reference indices and has one element per pair |
| Eval.AssignInjective | src/storymode/eval.py:33-44 | no reference index is paired twice, and prediction indices increase |
| Eval.AssignKeys | src/storymode/eval.py:39 | every paired prediction and reference have equal keys |
| Eval.PairCount | src/storymode/eval.py:29-45 | there are no more pairs than predictions or references |
| Eval.PairsMatch | src/storymode/eval.py:29-45 | every pair is a listed prediction and a listed reference with equal match keys |
| Eval.PairsOrdered | src/storymode/eval.py:29-45 | pairs follow prediction order and never reuse a reference |
| Eval.Errors | src/storymode/eval.py:49-52 | at most one error per pair |
| Eval.ErrorsConcat | src/storymode/eval.py:49-52 | the error list distributes over concatenation of pair lists |
| Eval.ErrorsSingle | src/storymode/eval.py:50-52 | a pair contributes its absolute error exactly when both sizes are present |
| Eval.ErrorsEmpty | src/storymode/eval.py:49-53 | there are no errors exactly when no pair has both sizes |
| Eval.NumericMaeMm | src/storymode/eval.py:47-53 | the loop computes the mean absolute error, or NaN without errors |
| Eval.WithinTolerance | src/storymode/eval.py:55-63 | the total is the number of pairs with both sizes, and the hits are the errors within the tolerance |
| Eval.HitsAtMostTotal | src/storymode/eval.py:55-63 | there are never more hits than sized pairs |
| Eval.HitsMonotone | src/storymode/eval.py:55-63 | raising the tolerance never lowers the hits |
| Eval.AllHits | src/storymode/eval.py:55-63 | with a tolerance at least every error, every sized pair is a hit |
| Eval.ZeroErrorIffExact | src/storymode/eval.py:47-63 | the summed error is zero exactly when every sized pair is a hit at tolerance 0 |
| Eval.CollectSlots | src/storymode/eval.py:85-87 | the filled count is at most the number of lesions, which is the total |
| Eval.SlotCounts | src/storymode/eval.py:85-87 | all lesions count exactly when all fill the slot, and none counts exactly when none does |
| Eval.FlagValue | src/storymode/eval.py:76-77 | `int(x or 0)` is 0 exactly for a falsy value, 1 for `True`, and the integer itself otherwise |
| Eval.DocFlag | src/storymode/eval.py:76-77 | the loop reading a document's metastasis flag computes its `int(... or 0)` value |
| Eval.FlagDefaults | src/storymode/eval.py:76-77 | a missing summary, a missing flag, a null flag and `False` all count as 0 |
| Eval.DocLesions | src/storymode/eval.py:81 | the lesions a document yields all have a computable match key |
| Eval.DocCounts | src/storymode/eval.py:73-78 | one document is counted per name, with at most one correct flag each |
| Eval.PairsWithinFiles | src/storymode/eval.py:73-82 | every collected pair comes from the prediction and reference of one file |
| Eval.SortedKeys | src/storymode/eval.py:73 | the names in Python's order, each once |
| Eval.ScoreDocument | src/storymode/eval.py:74-93 | one loop iteration updates the counters as one document pair prescribes and yields that pair's lesion pairing |
| Eval.ScoreAll | src/storymode/eval.py:73-93 | the loop accumulates the counters and pairs of all files in sorted order |
| Eval.Evaluate | src/storymode/eval.py:65-105 | differing name sets fail the assertion; no documents fail with a division by zero; otherwise the report of the pooled counts and pairs is returned |
| Eval.ReportCounts | src/storymode/eval.py:99-100 | the document accuracy is a fraction over the number of files with the numerator at most the denominator |
| Eval.ReportSizes | src/storymode/eval.py:95-102 | `size_within_2mm` is `None` exactly when no pair has both sizes, which is exactly when the mean error is NaN; otherwise it is a fraction at most 1 |
| Eval.PairingExample | src/storymode/eval.py:29-45 | a 28 mm node prediction against 25 mm and 30 mm node references pairs with the first |
| Eval.ExampleError | src/storymode/eval.py:47-53 | that pair's mean error is 3 mm over one pair |

## Left out

- File and network I/O: directory listings, file reads and writes, `load_dotenv`, the OpenAI client
  and `dump_json`. Listings and file contents are parameters, and the client is a scripted object.
  `utils.py` (`make_openai_client`, `read_txt`, `dump_json`, `Timer`) and `cli.py` are not part of
  this model.
- `load_dir_json` in `eval.py`: `Eval.Evaluate` takes the two collections already loaded and keyed by
  file name.
- `json.loads` and `json.dumps` are function parameters. The JSON Schema that pydantic generates is
  an opaque value and its text a parameter; `Schema.Conforms` states what validation admits.
- Model inference: torch, transformers tokenisation and generation, vLLM's engine and its
  construction keyword arguments, and device selection. `Models.Backend.VllmGenerate` takes the
  engine's generation as a function. `TransformersBackend.generate` is not modelled, beyond its
  prompt (`Models.Backend.TransformersPrompt`) and `close`.
- `Models.Backend`: one class with an engine tag instead of one class per backend. Its state is
  the engine tag, the model path it was loaded from, the vLLM sampling parameters (absent for
  transformers) and the attributes `close` deletes; the device, the tokenizer's pad token and the
  engines themselves are not kept.
- Floating point: sizes are integers, as the schema declares them. `_cm_to_mm` on an integer is
  exactly ten times it, and the mean error and rates are exact fractions, with NaN as a value of
  its own. The source's `float(v)` in `normalize_units_and_cleanup` raises for an integer of
  magnitude 2^1024 or more and rounds above 2^53; the model captures neither. Sampling parameters
  are reals, and the request's default temperature 0.0 is the integer `0`.
- The 0.2 second wait of the retry decorator, and the `Timer` and `print` in `batch_extract`.
- `hits10p, tot10p` in `evaluate` are computed (`hits0, tot0` in `Eval.Evaluate`) and never used;
  the report does not carry them.
- Python's `1 == True` equality of dictionary keys and values: the match key keeps the raw
  finding type, and booleans and integers are distinct values.
- Aliasing between lesion dictionaries: a lesion list is a sequence of values, so a dictionary
  listed twice is normalised once per entry rather than twice.
- Non-list iterables for `lesions` and non-dictionary lesion entries: inputs the source would make
  raise are excluded by preconditions
  (`Postprocess.Normalizable`, `Eval.DocOk`).
- Models.MergeSampling: requires the keyword arguments to have the types `SamplingParams` accepts;
  vLLM's own checks on ill-typed values are not modelled.
- Eval.PairLesions: stricter than the source: it requires every lesion's body site and node
  station to be a string or falsy (`KeyOk`). The source computes a reference lesion's key only
  when the inner loop reaches it, so an ill-typed reference lesion that is never reached does
  not make it raise.
- Eval.Evaluate: requires every sized pair's sizes to be numbers (`Measurable`), where
  `abs(pv - rv)` would raise otherwise. It is stricter than the source in requiring every document
  to be processable (`DocOk`): the source reads a document's flag and lesions only when it reaches
  that file, and it computes reference keys only as the pairing reaches them.
- Eval.FlagValue: stricter than the source: `FlagOk` admits only falsy values, booleans and
  integers, while `int()` also reads a digit string such as `"1"`; such flags are excluded.
- Strings.Lower: only ASCII letters are folded. Python's `str.lower` also folds other letters
  (`É` to `é`) and can change the length (`İ` becomes two characters), so `Eval.MatchKey` and
  `Eval.KeyIgnoresCase` may keep apart keys that Python treats as equal.
- Schema.OptInt: accepts only JSON integers; pydantic's lax coercions (a numeric string such as
  `"12"`, a boolean or an integral float) are not modelled.
- Schema.OptFlag: accepts only JSON booleans; pydantic's lax coercions (`0`, `1`, `"true"`,
  `"yes"`, `"false"` and the like) are not modelled.
- Schema.BoolField: accepts only JSON booleans; pydantic's lax coercions of numbers and strings
  are not modelled.
- Schema.LesionFromJson: built on the strict field conversions above, so it rejects inputs that
  pydantic's lax mode would coerce. The pipeline's own check, JSON Schema validation
  (`Schema.Conforms`), is strict and is modelled as it is.
- Schema.SummaryFromJson: strict field types, as for `Schema.LesionFromJson`; lax coercions are
  not modelled.
- Schema.ExtractionFromJson: strict field types, as for `Schema.LesionFromJson`; lax coercions are
  not modelled.
- Extract.BatchExtract: the requests sent for each file are stated by `Extract.ProcessFile`; the
  batch's contract does not collect the sequence of all requests sent.
- Postprocess.NormalizeUnitsAndCleanup: requires the object to be processable without raising
  (`Normalizable`); every validated object is (`Postprocess.ConformsIsNormalizable`).
- Decode.ConstrainedJsonCompletion: an exception raised by the client is modelled as a missing
  reply; the exception's type is not kept.
- Models.ModelManager.CloseAll: closes backends in insertion order; the order is recorded but not
  part of its contract.
