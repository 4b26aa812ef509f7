/** Token usage and tool calls as the providers report them, read from whole JSON values. */
module Usage {
  import opened Options
  import opened Json

  datatype Provider = Anthropic | Openai | Google

  datatype Usage = Usage(input: int, output: int, cacheCreation: int, cacheRead: int) {
    function Plus(u: Usage): Usage {
      Usage(input + u.input, output + u.output, cacheCreation + u.cacheCreation, cacheRead + u.cacheRead)
    }

    predicate NonNegative() {
      input >= 0 && output >= 0 && cacheCreation >= 0 && cacheRead >= 0
    }
  }

  const ZERO := Usage(0, 0, 0, 0)

  datatype ToolCall = ToolCall(name: string, input: Value)

  function Max0(n: int): int {
    if n > 0 then n else 0
  }

  /** Usage from a provider's `usage` object. */
  function UsageFromObj(p: Provider, u: Value): Usage {
    match p
    case Anthropic =>
      Usage(IntOr0(Get(u, "input_tokens")), IntOr0(Get(u, "output_tokens")),
        IntOr0(Get(u, "cache_creation_input_tokens")), IntOr0(Get(u, "cache_read_input_tokens")))
    case Google =>
      var cached := IntOr0(Get(u, "cachedContentTokenCount"));
      Usage(Max0(IntOr0(Get(u, "promptTokenCount")) - cached),
        IntOr0(Get(u, "candidatesTokenCount")) + IntOr0(Get(u, "thoughtsTokenCount")), 0, cached)
    case Openai =>
      var details := Get(u, "prompt_tokens_details");
      var cached := if details.Some? then IntOr0(Get(details.value, "cached_tokens")) else 0;
      Usage(Max0(IntOr0(Get(u, "prompt_tokens")) - cached), IntOr0(Get(u, "completion_tokens")), 0, cached)
  }

  /** Usage of a complete response. */
  function UsageFromResponse(p: Provider, body: Value): Usage {
    match Get(body, if p == Google then "usageMetadata" else "usage")
    case Some(u) => UsageFromObj(p, u)
    case None => ZERO
  }

  function ContentBlocks(message: Value): seq<Value> {
    AsArr(Get(message, "content")).GetOr([])
  }

  predicate IsToolUse(block: Value) {
    AsStr(Get(block, "type")) == Some("tool_use")
  }

  function CallOf(block: Value): seq<ToolCall> {
    if !IsToolUse(block) then []
    else match AsStr(Get(block, "name"))
      case Some(name) => [ToolCall(name, Get(block, "input").GetOr(Null))]
      case None => []
  }

  /** The calls of several items, in order. */
  function CallsIn(f: Value -> seq<ToolCall>, items: seq<Value>): seq<ToolCall> {
    if items == [] then [] else CallsIn(f, items[..|items| - 1]) + f(items[|items| - 1])
  }

  const PARTS_PATH: seq<string> := ["candidates", "0", "content", "parts"]
  const CALLS_PATH: seq<string> := ["choices", "0", "message", "tool_calls"]

  /** Google: the parts of the first candidate. */
  function Parts(j: Value): seq<Value> {
    AsArr(Pointer(j, PARTS_PATH)).GetOr([])
  }

  function PartCallOf(part: Value): seq<ToolCall> {
    match Get(part, "functionCall")
    case None => []
    case Some(fc) => match AsStr(Get(fc, "name"))
      case Some(name) => [ToolCall(name, Get(fc, "args").GetOr(Null))]
      case None => []
  }

  /** OpenAI: the calls of the first choice. */
  function CallItems(j: Value): seq<Value> {
    AsArr(Pointer(j, CALLS_PATH)).GetOr([])
  }

  function ItemName(c: Value): Option<string> {
    AsStr(Pointer(c, ["function", "name"]))
  }

  /** The arguments are a string that holds JSON. */
  function ItemArgs(codec: Codec, c: Value): Value {
    match AsStr(Pointer(c, ["function", "arguments"]))
    case Some(s) => codec.fromStr(s).GetOr(Null)
    case None => Null
  }

  function ItemCallOf(codec: Codec, c: Value): seq<ToolCall> {
    match ItemName(c)
    case Some(name) => [ToolCall(name, ItemArgs(codec, c))]
    case None => []
  }

  /** The tool calls of a complete response, in order. */
  function CallsFromResponse(p: Provider, codec: Codec, json: Value): seq<ToolCall> {
    match p
    case Anthropic => CallsIn(CallOf, ContentBlocks(json))
    case Google => CallsIn(PartCallOf, Parts(json))
    case Openai => CallsIn(c => ItemCallOf(codec, c), CallItems(json))
  }

  method CollectIn(f: Value -> seq<ToolCall>, items: seq<Value>) returns (out: seq<ToolCall>)
    ensures out == CallsIn(f, items)
  {
    out := [];
    for i := 0 to |items|
      invariant out == CallsIn(f, items[..i])
    {
      assert items[..i + 1][..i] == items[..i];
      out := out + f(items[i]);
    }
    assert items[..|items|] == items;
  }

  method ToolCallsFromResponse(p: Provider, codec: Codec, json: Value) returns (out: seq<ToolCall>)
    ensures out == CallsFromResponse(p, codec, json)
  {
    match p
    case Anthropic => out := CollectIn(CallOf, ContentBlocks(json));
    case Google => out := CollectIn(PartCallOf, Parts(json));
    case Openai => out := CollectIn(c => ItemCallOf(codec, c), CallItems(json));
  }
}
