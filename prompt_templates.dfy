/** The chat-template serialisers: each turns a list of role-tagged messages into
    one prompt string for a model family, and a registry picks the serialiser for
    a model name. */
module PromptTemplates {
  import opened Strings

  /** `{"role": ..., "content": ...}`. */
  datatype Message = Message(role: string, content: string)

  /** The four serialisers of `PromptFormatter`. */
  datatype Family = Mistral | Qwen | Llama | Generic

  predicate KnownRole(role: string) {
    role == "system" || role == "user" || role == "assistant"
  }

  /** The text a family writes before the content of a message with a known role. */
  function Open(f: Family, role: string): string {
    match f
    case Mistral => if role == "assistant" then " " else "[INST] "
    case Llama =>
      if role == "system" then "<s>[INST] <<SYS>>\n"
      else if role == "user" then ""
      else " "
    case _ =>
      if role == "system" then "<|im_start|>system\n"
      else if role == "user" then "<|im_start|>user\n"
      else "<|im_start|>assistant\n"
  }

  /** The text a family writes after the content of a message with a known role. */
  function Close(f: Family, role: string): string {
    match f
    case Mistral => if role == "assistant" then "" else " [/INST]"
    case Llama =>
      if role == "system" then "\n<</SYS>>\n\n"
      else if role == "user" then " [/INST]"
      else " </s><s>[INST] "
    case _ => "<|im_end|>\n"
  }

  /** What one message contributes; a message with any other role contributes nothing. */
  function Chunk(f: Family, m: Message): string {
    if KnownRole(m.role) then Open(f, m.role) + m.content + Close(f, m.role) else ""
  }

  /** The contribution of each message, in message order. */
  function Pieces(f: Family, ms: seq<Message>): (r: seq<string>)
    ensures |r| == |ms|
  {
    seq(|ms|, i requires 0 <= i < |ms| => Chunk(f, ms[i]))
  }

  /** The strings of a list, joined left to right. */
  function Concat(parts: seq<string>): string
    decreases |parts|
  {
    if parts == [] then "" else Concat(parts[..|parts| - 1]) + parts[|parts| - 1]
  }

  /** Everything the messages contribute, in message order. */
  function Chunks(f: Family, ms: seq<Message>): string {
    Concat(Pieces(f, ms))
  }

  /** The text written before any message. */
  function Prefix(f: Family): string {
    if f == Mistral then "<s>" else ""
  }

  /** The text written after the last message: the opening of the assistant's turn. */
  function Suffix(f: Family): string {
    if f == Qwen || f == Generic then "<|im_start|>assistant\n" else ""
  }

  /** The prompt a family's serialiser produces. */
  function Render(f: Family, ms: seq<Message>): string {
    Prefix(f) + Chunks(f, ms) + Suffix(f)
  }

  // ---------------------------------------------------------------------------
  // The serialisers, each a loop that appends one message at a time
  // ---------------------------------------------------------------------------

  /** One more message appends its chunk to what was written so far. */
  lemma ChunksSnoc(f: Family, pre: string, ms: seq<Message>, i: nat)
    requires i < |ms|
    ensures pre + Chunks(f, ms[..i + 1]) == pre + Chunks(f, ms[..i]) + Chunk(f, ms[i])
  {
    var p := Pieces(f, ms[..i + 1]);
    assert p[..i] == Pieces(f, ms[..i]);
  }

  method FormatMistral(messages: seq<Message>) returns (prompt: string)
    ensures prompt == Render(Mistral, messages)
  {
    prompt := "<s>";
    var i := 0;
    while i < |messages|
      invariant 0 <= i <= |messages|
      invariant prompt == "<s>" + Chunks(Mistral, messages[..i])
    {
      var role, content := messages[i].role, messages[i].content;
      if role == "system" {
        prompt := prompt + ("[INST] " + content + " [/INST]");
      } else if role == "user" {
        prompt := prompt + ("[INST] " + content + " [/INST]");
      } else if role == "assistant" {
        prompt := prompt + (" " + content);
      }
      ChunksSnoc(Mistral, "<s>", messages, i);
      i := i + 1;
    }
    assert messages[..i] == messages;
  }

  method FormatQwen(messages: seq<Message>) returns (prompt: string)
    ensures prompt == Render(Qwen, messages)
  {
    prompt := "";
    var i := 0;
    while i < |messages|
      invariant 0 <= i <= |messages|
      invariant prompt == "" + Chunks(Qwen, messages[..i])
    {
      var role, content := messages[i].role, messages[i].content;
      if role == "system" {
        prompt := prompt + ("<|im_start|>system\n" + content + "<|im_end|>\n");
      } else if role == "user" {
        prompt := prompt + ("<|im_start|>user\n" + content + "<|im_end|>\n");
      } else if role == "assistant" {
        prompt := prompt + ("<|im_start|>assistant\n" + content + "<|im_end|>\n");
      }
      ChunksSnoc(Qwen, "", messages, i);
      i := i + 1;
    }
    assert messages[..i] == messages;
    prompt := prompt + "<|im_start|>assistant\n";
  }

  method FormatLlama(messages: seq<Message>) returns (prompt: string)
    ensures prompt == Render(Llama, messages)
  {
    prompt := "";
    var i := 0;
    while i < |messages|
      invariant 0 <= i <= |messages|
      invariant prompt == "" + Chunks(Llama, messages[..i])
    {
      var role, content := messages[i].role, messages[i].content;
      if role == "system" {
        prompt := prompt + ("<s>[INST] <<SYS>>\n" + content + "\n<</SYS>>\n\n");
      } else if role == "user" {
        prompt := prompt + (content + " [/INST]");
      } else if role == "assistant" {
        prompt := prompt + (" " + content + " </s><s>[INST] ");
      }
      ChunksSnoc(Llama, "", messages, i);
      i := i + 1;
    }
    assert messages[..i] == messages;
  }

  method FormatGeneric(messages: seq<Message>) returns (prompt: string)
    ensures prompt == Render(Generic, messages)
  {
    prompt := "";
    var i := 0;
    while i < |messages|
      invariant 0 <= i <= |messages|
      invariant prompt == "" + Chunks(Generic, messages[..i])
    {
      var role, content := messages[i].role, messages[i].content;
      if role == "system" {
        prompt := prompt + ("<|im_start|>system\n" + content + "<|im_end|>\n");
      } else if role == "user" {
        prompt := prompt + ("<|im_start|>user\n" + content + "<|im_end|>\n");
      } else if role == "assistant" {
        prompt := prompt + ("<|im_start|>assistant\n" + content + "<|im_end|>\n");
      }
      ChunksSnoc(Generic, "", messages, i);
      i := i + 1;
    }
    assert messages[..i] == messages;
    prompt := prompt + "<|im_start|>assistant\n";
  }

  /** Calling the serialiser a family stands for. */
  method Format(f: Family, messages: seq<Message>) returns (prompt: string)
    ensures prompt == Render(f, messages)
  {
    match f
    case Mistral => prompt := FormatMistral(messages);
    case Qwen => prompt := FormatQwen(messages);
    case Llama => prompt := FormatLlama(messages);
    case Generic => prompt := FormatGeneric(messages);
  }

  // ---------------------------------------------------------------------------
  // The registry
  // ---------------------------------------------------------------------------

  /** `MODEL_FORMATTERS`. */
  const ModelFormatters: map<string, Family> := map[
    "mistral-7b-instruct" := Mistral,
    "mixtral-8x7b-instruct" := Mistral,
    "biomistral-7b" := Mistral,
    "meditron-7b" := Mistral,
    "qwen2.5-7b-instruct" := Qwen,
    "qwen2.5-14b-instruct" := Qwen,
    "gpt-4o-mini" := Generic,
    "gpt-4o" := Generic]

  /** `get_formatter`: the registered serialiser, or the generic one for any other name. */
  function GetFormatter(name: string): (f: Family)
    ensures name in ModelFormatters ==> f == ModelFormatters[name]
    ensures name !in ModelFormatters ==> f == Generic
  {
    if name in ModelFormatters then ModelFormatters[name] else Generic
  }

  /** The eight registered names, with the family each maps to. */
  lemma RegisteredFormatters(name: string)
    ensures name in ModelFormatters <==>
      name in {"mistral-7b-instruct", "mixtral-8x7b-instruct", "biomistral-7b", "meditron-7b",
               "qwen2.5-7b-instruct", "qwen2.5-14b-instruct", "gpt-4o-mini", "gpt-4o"}
    ensures GetFormatter(name) == Mistral <==>
      name in {"mistral-7b-instruct", "mixtral-8x7b-instruct", "biomistral-7b", "meditron-7b"}
    ensures GetFormatter(name) == Qwen <==> name in {"qwen2.5-7b-instruct", "qwen2.5-14b-instruct"}
    ensures GetFormatter(name) != Llama
  {
  }

  // ---------------------------------------------------------------------------
  // Properties of the serialisers
  // ---------------------------------------------------------------------------

  lemma {:induction false} ConcatAppend(p: seq<string>, q: seq<string>)
    ensures Concat(p + q) == Concat(p) + Concat(q)
    decreases |q|
  {
    if q == [] {
      assert p + q == p;
    } else {
      var q' := q[..|q| - 1];
      assert (p + q)[..|p + q| - 1] == p + q';
      ConcatAppend(p, q');
      assert Concat(p) + Concat(q') + q[|q| - 1] == Concat(p) + (Concat(q') + q[|q| - 1]);
    }
  }

  /** Serialising a concatenation appends the second list's chunks to the first's:
      no message is dropped and the order is kept. */
  lemma ChunksConcat(f: Family, a: seq<Message>, b: seq<Message>)
    ensures Chunks(f, a + b) == Chunks(f, a) + Chunks(f, b)
  {
    assert Pieces(f, a + b) == Pieces(f, a) + Pieces(f, b);
    ConcatAppend(Pieces(f, a), Pieces(f, b));
  }

  lemma RenderConcat(f: Family, a: seq<Message>, b: seq<Message>)
    ensures Render(f, a + b) == Prefix(f) + Chunks(f, a) + Chunks(f, b) + Suffix(f)
  {
    ChunksConcat(f, a, b);
    Regroup4(Prefix(f), Chunks(f, a), Chunks(f, b), Suffix(f));
  }

  lemma Regroup4(p: string, x: string, y: string, sf: string)
    ensures p + (x + y) + sf == p + x + y + sf
  {
  }

  /** A message whose role is not system, user or assistant changes nothing. */
  lemma UnknownRoleIgnored(f: Family, a: seq<Message>, m: Message, b: seq<Message>)
    requires !KnownRole(m.role)
    ensures Render(f, a + [m] + b) == Render(f, a + b)
  {
    ChunksUnknown(f, a, m, b);
  }

  lemma ChunksUnknown(f: Family, a: seq<Message>, m: Message, b: seq<Message>)
    requires !KnownRole(m.role)
    ensures Chunks(f, a + [m] + b) == Chunks(f, a + b)
  {
    ChunksConcat(f, a + [m], b);
    ChunksConcat(f, a, [m]);
    ChunksConcat(f, a, b);
    assert Pieces(f, [m]) == [""];
    assert Concat([""]) == Concat([""][..0]) + "";
  }

  /** The content of a message with a known role appears verbatim in the prompt,
      right after everything written for the messages before it. */
  lemma ContentVerbatim(f: Family, a: seq<Message>, m: Message, b: seq<Message>)
    requires KnownRole(m.role)
    ensures OccursAt(Render(f, a + [m] + b), m.content, |Prefix(f) + Chunks(f, a) + Open(f, m.role)|)
  {
    ChunksWithMessage(f, a, m, b);
    var before := Prefix(f) + Chunks(f, a) + Open(f, m.role);
    var after := Close(f, m.role) + Chunks(f, b) + Suffix(f);
    Regroup(Prefix(f), Chunks(f, a), Open(f, m.role), m.content, Close(f, m.role), Chunks(f, b), Suffix(f));
    OccursInMiddle(before, m.content, after);
  }

  lemma Regroup(p: string, ca: string, o: string, c: string, cl: string, cb: string, sf: string)
    ensures p + (ca + (o + c + cl) + cb) + sf == (p + ca + o) + c + (cl + cb + sf)
  {
  }

  lemma ChunksWithMessage(f: Family, a: seq<Message>, m: Message, b: seq<Message>)
    ensures Chunks(f, a + [m] + b) == Chunks(f, a) + Chunk(f, m) + Chunks(f, b)
  {
    ChunksConcat(f, a + [m], b);
    ChunksConcat(f, a, [m]);
    ChunksOne(f, m);
  }

  lemma ChunksOne(f: Family, m: Message)
    ensures Chunks(f, [m]) == Chunk(f, m)
  {
    var p := Pieces(f, [m]);
    assert p == [p[0]];
    ConcatOne(p[0]);
  }

  lemma ConcatOne(x: string)
    ensures Concat([x]) == x
  {
    assert [x][..0] == [];
  }

  /** With no messages, the generic prompt is exactly the opening of the assistant's turn. */
  lemma GenericEmpty()
    ensures Render(Generic, []) == "<|im_start|>assistant\n"
  {
  }

  /** The Qwen and generic serialisers agree on every input. */
  lemma QwenIsGeneric(ms: seq<Message>)
    ensures Render(Qwen, ms) == Render(Generic, ms)
  {
    assert Pieces(Qwen, ms) == Pieces(Generic, ms);
  }

  /** The Mistral prompt starts with `<s>`, has no closing marker, and renders a
      system message exactly like a user message with the same content. */
  lemma MistralShape(ms: seq<Message>, c: string)
    ensures StartsWith(Render(Mistral, ms), "<s>")
    ensures Render(Mistral, ms) == "<s>" + Chunks(Mistral, ms)
    ensures Chunk(Mistral, Message("system", c)) == Chunk(Mistral, Message("user", c)) == "[INST] " + c + " [/INST]"
    ensures Chunk(Mistral, Message("assistant", c)) == " " + c
  {
    assert Render(Mistral, ms)[..3] == "<s>";
  }
}
