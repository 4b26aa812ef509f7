/** Text and tool calls written the way each provider writes them: exactly these are read back. */
module WrittenCalls {
  import opened Options
  import opened Json
  import opened Usage
  import opened SseTally

  datatype Part = Said(text: string) | Called(name: string, input: Value)

  function CallsOf(parts: seq<Part>): seq<ToolCall> {
    if parts == [] then []
    else
      CallsOf(parts[..|parts| - 1]) +
      match parts[|parts| - 1] case Called(name, input) => [ToolCall(name, input)] case Said(_) => []
  }

  function TextOfAll(parts: seq<Part>): string {
    if parts == [] then ""
    else TextOfAll(parts[..|parts| - 1]) + match parts[|parts| - 1] case Said(text) => text case Called(_, _) => ""
  }

  lemma OneField(key: string, v: Value)
    ensures Get(Obj([(key, v)]), key) == Some(v) && forall k :: k != key ==> Get(Obj([(key, v)]), k) == None
  {
    FieldIs([(key, v)], 0);
  }

  lemma TwoFields(a: string, x: Value, b: string, y: Value)
    requires a != b
    ensures Get(Obj([(a, x), (b, y)]), a) == Some(x) && Get(Obj([(a, x), (b, y)]), b) == Some(y)
    ensures forall k :: k != a && k != b ==> Get(Obj([(a, x), (b, y)]), k) == None
  {
    FieldIs([(a, x), (b, y)], 0);
    FieldIs([(a, x), (b, y)], 1);
  }

  lemma ThreeFields(a: string, x: Value, b: string, y: Value, c: string, z: Value)
    requires a != b && a != c && b != c
    ensures var j := Obj([(a, x), (b, y), (c, z)]);
            Get(j, a) == Some(x) && Get(j, b) == Some(y) && Get(j, c) == Some(z)
  {
    var fields := [(a, x), (b, y), (c, z)];
    FieldIs(fields, 0);
    FieldIs(fields, 1);
    FieldIs(fields, 2);
  }

  // ----- Anthropic

  function AnthropicBlock(part: Part): Value {
    match part
    case Said(text) => Obj([("type", Str("text")), ("text", Str(text))])
    case Called(name, input) => Obj([("type", Str("tool_use")), ("name", Str(name)), ("input", input)])
  }

  function AnthropicMessage(parts: seq<Part>): Value {
    Obj([("content", Arr(Written(parts, AnthropicBlock)))])
  }

  function Written(parts: seq<Part>, write: Part -> Value): seq<Value> {
    seq(|parts|, i requires 0 <= i < |parts| => write(parts[i]))
  }

  lemma AnthropicBlockReads(part: Part)
    ensures CallOf(AnthropicBlock(part)) == CallsOf([part])
  {
    assert [part][..0] == [];
    match part
    case Said(text) => TwoFields("type", Str("text"), "text", Str(text));
    case Called(name, input) => ThreeFields("type", Str("tool_use"), "name", Str(name), "input", input);
  }

  lemma CallsOfMore(parts: seq<Part>, part: Part)
    ensures CallsOf(parts + [part]) == CallsOf(parts) + CallsOf([part])
  {
    assert (parts + [part])[..|parts|] == parts && [part][..0] == [];
  }

  /** Parts that are read one by one are read all together. */
  lemma {:induction false} AllRead(parts: seq<Part>, write: Part -> Value, read: Value -> seq<ToolCall>)
    requires forall p :: p in parts ==> read(write(p)) == CallsOf([p])
    ensures CallsIn(read, Written(parts, write)) == CallsOf(parts)
  {
    if parts != [] {
      var n := |parts| - 1;
      AllRead(parts[..n], write, read);
      assert Written(parts, write)[..n] == Written(parts[..n], write);
      assert parts == parts[..n] + [parts[n]];
      CallsOfMore(parts[..n], parts[n]);
    }
  }

  /** An Anthropic message has exactly the calls written into it. */
  lemma AnthropicCallsComeBack(codec: Codec, parts: seq<Part>)
    ensures CallsFromResponse(Anthropic, codec, AnthropicMessage(parts)) == CallsOf(parts)
  {
    var blocks := Written(parts, AnthropicBlock);
    OneField("content", Arr(blocks));
    forall p | p in parts ensures CallOf(AnthropicBlock(p)) == CallsOf([p]) {
      AnthropicBlockReads(p);
    }
    AllRead(parts, AnthropicBlock, CallOf);
  }

  // ----- Google

  function GooglePart(part: Part): Value {
    match part
    case Said(text) => Obj([("text", Str(text))])
    case Called(name, input) => Obj([("functionCall", Obj([("name", Str(name)), ("args", input)]))])
  }

  function GoogleMessage(parts: seq<Part>): Value {
    Obj([("candidates", Arr([Obj([("content", Obj([("parts", Arr(Written(parts, GooglePart)))]))])]))])
  }

  lemma GooglePartReads(part: Part)
    ensures PartCallOf(GooglePart(part)) == CallsOf([part])
    ensures AsStr(Get(GooglePart(part), "text")).GetOr("") == TextOfAll([part])
  {
    assert [part][..0] == [];
    match part
    case Said(text) => OneField("text", Str(text));
    case Called(name, input) =>
      TwoFields("name", Str(name), "args", input);
      OneField("functionCall", Obj([("name", Str(name)), ("args", input)]));
  }

  lemma GoogleMessageReads(parts: seq<Part>)
    ensures Parts(GoogleMessage(parts)) == Written(parts, GooglePart)
  {
    var content := Obj([("parts", Arr(Written(parts, GooglePart)))]);
    var candidate := Obj([("content", content)]);
    var all := Arr([candidate]);
    var j := GoogleMessage(parts);
    OneField("parts", Arr(Written(parts, GooglePart)));
    OneField("content", content);
    OneField("candidates", all);
    assert PARTS_PATH == ["candidates", "0"] + ["content", "parts"];
    assert ["candidates", "0"][1..] == ["0"] && ["0"][1..] == [];
    assert Child(j, "candidates") == Some(all) && Child(all, "0") == Some(candidate);
    assert Pointer(candidate, []) == Some(candidate);
    assert Pointer(all, ["0"]) == Some(candidate);
    assert Pointer(j, ["candidates", "0"]) == Some(candidate);
    PointerThrough(j, ["candidates", "0"], ["content", "parts"]);
    PointerTwo(candidate, "content", content, "parts");
  }

  lemma {:induction false} GoogleTexts(parts: seq<Part>)
    ensures TextOfParts(Written(parts, GooglePart)) == TextOfAll(parts)
  {
    if parts != [] {
      var n := |parts| - 1;
      GoogleTexts(parts[..n]);
      assert Written(parts, GooglePart)[..n] == Written(parts[..n], GooglePart);
      GooglePartReads(parts[n]);
      assert [parts[n]][..0] == [];
    }
  }

  /** A Google response, or an event of a Google stream, has exactly the calls and the text written into it. */
  lemma GooglePartsComeBack(codec: Codec, parts: seq<Part>)
    ensures CallsFromResponse(Google, codec, GoogleMessage(parts)) == CallsOf(parts)
    ensures TextOf(Google, GoogleMessage(parts)) == TextOfAll(parts)
  {
    GoogleMessageReads(parts);
    forall p | p in parts ensures PartCallOf(GooglePart(p)) == CallsOf([p]) {
      GooglePartReads(p);
    }
    AllRead(parts, GooglePart, PartCallOf);
    GoogleTexts(parts);
  }

  // ----- OpenAI

  /** The arguments of a call are printed JSON. */
  function OpenaiItem(show: Value -> string, part: Part): Value {
    match part
    case Said(_) => Obj([])
    case Called(name, input) =>
      Obj([("type", Str("function")), ("function", Obj([("name", Str(name)), ("arguments", Str(show(input)))]))])
  }

  function OpenaiMessage(show: Value -> string, parts: seq<Part>): Value {
    Obj([("choices", Arr([Obj([("message", Obj([("tool_calls", Arr(Written(parts, p => OpenaiItem(show, p))))]))])]))])
  }

  /** Every input is a JSON value. */
  ghost predicate Inputs(parts: seq<Part>) {
    forall p :: p in parts ==> p.Called? && WellFormed(p.input)
  }

  lemma OpenaiItemReads(codec: Codec, part: Part)
    requires codec.Sound() && part.Called? && WellFormed(part.input)
    ensures ItemCallOf(codec, OpenaiItem(codec.show, part)) == CallsOf([part])
  {
    var f := Obj([("name", Str(part.name)), ("arguments", Str(codec.show(part.input)))]);
    var c := OpenaiItem(codec.show, part);
    TwoFields("name", Str(part.name), "arguments", Str(codec.show(part.input)));
    TwoFields("type", Str("function"), "function", f);
    PointerTwo(c, "function", f, "name");
    PointerTwo(c, "function", f, "arguments");
    assert [part][..0] == [];
  }

  lemma OpenaiMessageReads(show: Value -> string, parts: seq<Part>)
    ensures CallItems(OpenaiMessage(show, parts)) == Written(parts, p => OpenaiItem(show, p))
  {
    var items := Written(parts, p => OpenaiItem(show, p));
    var message := Obj([("tool_calls", Arr(items))]);
    var choice := Obj([("message", message)]);
    var all := Arr([choice]);
    var j := OpenaiMessage(show, parts);
    OneField("tool_calls", Arr(items));
    OneField("message", message);
    OneField("choices", all);
    assert CALLS_PATH == ["choices", "0"] + ["message", "tool_calls"];
    assert ["choices", "0"][1..] == ["0"] && ["0"][1..] == [];
    assert Child(j, "choices") == Some(all) && Child(all, "0") == Some(choice);
    assert Pointer(choice, []) == Some(choice);
    assert Pointer(all, ["0"]) == Some(choice);
    assert Pointer(j, ["choices", "0"]) == Some(choice);
    PointerThrough(j, ["choices", "0"], ["message", "tool_calls"]);
    PointerTwo(choice, "message", message, "tool_calls");
  }

  /** An OpenAI response has exactly the calls written into it, whose arguments are printed and parsed. */
  lemma OpenaiCallsComeBack(codec: Codec, parts: seq<Part>)
    requires codec.Sound() && Inputs(parts)
    ensures CallsFromResponse(Openai, codec, OpenaiMessage(codec.show, parts)) == CallsOf(parts)
  {
    OpenaiMessageReads(codec.show, parts);
    var write, read := p => OpenaiItem(codec.show, p), c => ItemCallOf(codec, c);
    forall p | p in parts ensures read(write(p)) == CallsOf([p]) {
      OpenaiItemReads(codec, p);
    }
    AllRead(parts, write, read);
  }

  // ----- text in streams

  function AnthropicTextEvent(text: string): Value {
    Obj([("type", Str("content_block_delta")), ("index", Int(0)),
      ("delta", Obj([("type", Str("text_delta")), ("text", Str(text))]))])
  }

  function OpenaiTextEvent(text: string): Value {
    Obj([("choices", Arr([Obj([("index", Int(0)), ("delta", Obj([("content", Str(text))]))])]))])
  }

  /** The text a stream carries in each dialect. */
  lemma TextComesBack(text: string)
    ensures TextOf(Anthropic, AnthropicTextEvent(text)) == text
    ensures TextOf(Openai, OpenaiTextEvent(text)) == text
  {
    var delta := Obj([("type", Str("text_delta")), ("text", Str(text))]);
    TwoFields("type", Str("text_delta"), "text", Str(text));
    ThreeFields("type", Str("content_block_delta"), "index", Int(0), "delta", delta);
    var choice := Obj([("index", Int(0)), ("delta", Obj([("content", Str(text))]))]);
    OneField("content", Str(text));
    TwoFields("index", Int(0), "delta", Obj([("content", Str(text))]));
    OneField("choices", Arr([choice]));
    assert [choice][..0] == [] && TextOfChoices([]) == "" && "" + text == text;
    assert TextOfChoices([choice]) == DeltaText(choice, "content");
  }
}
