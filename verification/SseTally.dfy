/**
  The running tally of a streamed response: what each event adds to the usage counts, the text
  and the tool calls, for three dialects.
*/
module SseTally {
  import opened Options
  import opened Text
  import opened Json
  import opened Usage
  import opened Utf8
  import opened SseFraming
  import opened Keys

  type ToolBuffer = map<int, (string, string)>

  datatype Tally = Tally(usage: Usage, text: string, tools: ToolBuffer)

  const EMPTY := Tally(ZERO, "", map[])

  // ----- one event

  /** Keeps the latest positive count of each kind. */
  function Merge(old_: Usage, u: Usage): Usage {
    Usage(
      if u.input > 0 then u.input else old_.input,
      if u.output > 0 then u.output else old_.output,
      if u.cacheCreation > 0 then u.cacheCreation else old_.cacheCreation,
      if u.cacheRead > 0 then u.cacheRead else old_.cacheRead)
  }

  function MergeIf(p: Provider, old_: Usage, u: Option<Value>): Usage {
    match u case Some(v) => Merge(old_, UsageFromObj(p, v)) case None => old_
  }

  function NonNull(v: Option<Value>): Option<Value> {
    if v == Some(Null) then None else v
  }

  function MessageUsage(j: Value): Option<Value> {
    match Get(j, "message") case Some(m) => Get(m, "usage") case None => None
  }

  function UsageAfter(p: Provider, old_: Usage, j: Value): Usage {
    var u1 := MergeIf(p, old_, MessageUsage(j));
    var u2 := MergeIf(p, u1, NonNull(Get(j, "usage")));
    MergeIf(p, u2, NonNull(Get(j, "usageMetadata")))
  }

  function TextOfParts(parts: seq<Value>): string {
    if parts == [] then ""
    else TextOfParts(parts[..|parts| - 1]) + AsStr(Get(parts[|parts| - 1], "text")).GetOr("")
  }

  function DeltaText(ch: Value, key: string): string {
    match Get(ch, "delta") case Some(d) => AsStr(Get(d, key)).GetOr("") case None => ""
  }

  function TextOfChoices(choices: seq<Value>): string {
    if choices == [] then ""
    else TextOfChoices(choices[..|choices| - 1]) + DeltaText(choices[|choices| - 1], "content")
  }

  /** The assistant text one event carries. */
  function TextOf(p: Provider, j: Value): string {
    match p
    case Anthropic => if AsStr(Get(j, "type")) == Some("content_block_delta") then DeltaText(j, "text") else ""
    case Google => TextOfParts(Parts(j))
    case Openai => TextOfChoices(AsArr(Get(j, "choices")).GetOr([]))
  }

  /** Google: a whole call per part, numbered by the size of the buffer. */
  function PartCall(show: Value -> string, tools: ToolBuffer, part: Value): ToolBuffer {
    match Get(part, "functionCall")
    case None => tools
    case Some(fc) =>
      match AsStr(Get(fc, "name"))
      case None => tools
      case Some(name) =>
        tools[|tools| as int := (name, match Get(fc, "args") case Some(a) => show(a) case None => "null")]
  }

  function PartCalls(show: Value -> string, tools: ToolBuffer, parts: seq<Value>): ToolBuffer {
    if parts == [] then tools
    else PartCall(show, PartCalls(show, tools, parts[..|parts| - 1]), parts[|parts| - 1])
  }

  /** OpenAI: fragments of the call with the given index. */
  function CallFragment(tools: ToolBuffer, tc: Value): ToolBuffer {
    var index := IntOr0(Get(tc, "index"));
    var (name, args) := if index in tools then tools[index] else ("", "");
    var newName := AsStr(Pointer(tc, ["function", "name"])).GetOr("");
    var frag := AsStr(Pointer(tc, ["function", "arguments"])).GetOr("");
    tools[index := (if newName != "" then newName else name, args + frag)]
  }

  function CallFragments(tools: ToolBuffer, tcs: seq<Value>): ToolBuffer {
    if tcs == [] then tools
    else CallFragment(CallFragments(tools, tcs[..|tcs| - 1]), tcs[|tcs| - 1])
  }

  function ChoiceCalls(tools: ToolBuffer, choices: seq<Value>): ToolBuffer {
    if choices == [] then tools
    else CallFragments(ChoiceCalls(tools, choices[..|choices| - 1]),
      AsArr(Pointer(choices[|choices| - 1], ["delta", "tool_calls"])).GetOr([]))
  }

  /** Anthropic: a block start opens a call, input deltas of the same index extend it. */
  function BlockCall(tools: ToolBuffer, j: Value): ToolBuffer {
    var index := IntOr0(Get(j, "index"));
    match AsStr(Get(j, "type"))
    case Some("content_block_start") =>
      (match Get(j, "content_block")
       case Some(b) => if IsToolUse(b) then tools[index := (AsStr(Get(b, "name")).GetOr(""), "")] else tools
       case None => tools)
    case Some("content_block_delta") =>
      if AsStr(Pointer(j, ["delta", "type"])) == Some("input_json_delta") then
        match AsStr(Pointer(j, ["delta", "partial_json"]))
        case Some(frag) =>
          if index in tools then tools[index := (tools[index].0, tools[index].1 + frag)] else tools
        case None => tools
      else tools
    case _ => tools
  }

  function ToolsAfter(p: Provider, show: Value -> string, tools: ToolBuffer, j: Value): ToolBuffer {
    match p
    case Anthropic => BlockCall(tools, j)
    case Google => PartCalls(show, tools, Parts(j))
    case Openai => ChoiceCalls(tools, AsArr(Get(j, "choices")).GetOr([]))
  }

  /** The effect of one parsed event. */
  function Apply(p: Provider, show: Value -> string, t: Tally, j: Value): Tally {
    Tally(UsageAfter(p, t.usage, j), t.text + TextOf(p, j), ToolsAfter(p, show, t.tools, j))
  }

  // ----- one line

  datatype Reader = Reader(provider: Provider, codec: Codec) {
    /** One decoded, trimmed line. */
    function FeedLine(t: Tally, line: string): Tally {
      if !("data:" <= line) then t else
      var data := Trim(line[5..]);
      if data == "[DONE]" || data == "" then t else
      match codec.fromStr(data)
      case Some(j) => Apply(provider, codec.show, t, j)
      case None => t
    }

    function Read(): LineReader<Tally> {
      (t: Tally, line: seq<byte>) => FeedLine(t, Trim(codec.lossy(line)))
    }

    lemma EmptyLineIsIgnored(t: Tally)
      requires codec.lossy([]) == ""
      ensures Read()(t, []) == t
    {
    }
  }

  // ----- reading the calls back

  function CallFrom(codec: Codec, entry: (string, string)): ToolCall {
    ToolCall(entry.0, codec.fromStr(entry.1).GetOr(Null))
  }

  /** The buffered calls in ascending index order. */
  ghost function ToolCalls(codec: Codec, tools: ToolBuffer): seq<ToolCall> {
    if tools == map[] then []
    else
      var k := MaxKey(tools.Keys);
      assert |tools - {k}| < |tools|;
      ToolCalls(codec, tools - {k}) + [CallFrom(codec, tools[k])]
  }

  lemma CallsWithLargest(codec: Codec, tools: ToolBuffer, k: int, e: (string, string))
    requires forall j :: j in tools ==> j < k
    ensures ToolCalls(codec, tools[k := e]) == ToolCalls(codec, tools) + [CallFrom(codec, e)]
  {
    var more := tools[k := e];
    assert k in more.Keys;
    assert MaxKey(more.Keys) == k;
    assert more - {k} == tools;
  }

  lemma LastCall(codec: Codec, tools: ToolBuffer)
    requires tools != map[]
    ensures var k := MaxKey(tools.Keys);
            k in tools && |tools - {k}| < |tools| &&
            ToolCalls(codec, tools) == ToolCalls(codec, tools - {k}) + [CallFrom(codec, tools[k])]
  {
  }

  lemma {:induction false} CallCount(codec: Codec, tools: ToolBuffer)
    ensures |ToolCalls(codec, tools)| == |tools| == |tools.Keys|
    decreases |tools|
  {
    if tools != map[] {
      LastCall(codec, tools);
      CallCount(codec, tools - {MaxKey(tools.Keys)});
    }
  }

  /** The calls come out in the order of the keys. */
  lemma {:induction false} CallAtPlace(codec: Codec, tools: ToolBuffer, p: nat)
    requires p < |tools.Keys|
    ensures |ToolCalls(codec, tools)| == |tools.Keys| && SortedKeys(tools.Keys)[p] in tools
    ensures ToolCalls(codec, tools)[p] == CallFrom(codec, tools[SortedKeys(tools.Keys)[p]])
    decreases |tools|
  {
    var k := MaxKey(tools.Keys);
    var less := tools - {k};
    LastCall(codec, tools);
    CallCount(codec, tools);
    CallCount(codec, less);
    assert less.Keys == tools.Keys - {k};
    if p < |less| {
      CallAtPlace(codec, less, p);
    }
  }
}
