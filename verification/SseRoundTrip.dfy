/** What the tally reads back from a synthesised stream. */
module SseRoundTrip {
  import opened Options
  import opened Text
  import opened Json
  import opened Usage
  import opened Utf8
  import opened SseFraming
  import opened SseTally
  import opened SseSynth

  // ----- the effect of each kind of event

  /** An event without the three usage places leaves the usage alone. */
  predicate CarriesNoUsage(j: Value) {
    Get(j, "message").None? && Get(j, "usage").None? && Get(j, "usageMetadata").None?
  }

  lemma BlockEventReads(kind: string, i: nat, key: string, v: Value)
    requires key == "content_block" || key == "delta"
    ensures var e := BlockEvent(kind, i, key, v);
            Get(e, "type") == Some(Str(kind)) && Get(e, "index") == Some(Int(i)) && Get(e, key) == Some(v) &&
            CarriesNoUsage(e)
  {
    var fields := BlockEvent(kind, i, key, v).fields;
    FieldIs(fields, 0);
    FieldIs(fields, 1);
    FieldIs(fields, 2);
  }

  lemma StopEventReads(i: nat)
    ensures Get(StopEvent(i), "type") == Some(Str(BLOCK_STOP)) && CarriesNoUsage(StopEvent(i))
  {
    FieldIs(StopEvent(i).fields, 0);
  }

  lemma DeltaReads(kind: string, key: string, text: string)
    requires key != "type"
    ensures var d := Obj([("type", Str(kind)), (key, Str(text))]);
            Get(d, "type") == Some(Str(kind)) && Get(d, key) == Some(Str(text)) &&
            forall k :: k != "type" && k != key ==> Get(d, k) == None
  {
    var fields := [("type", Str(kind)), (key, Str(text))];
    FieldIs(fields, 0);
    FieldIs(fields, 1);
  }

  lemma OpenedEffect(show: Value -> string, t: Tally, i: nat, block: Value)
    requires i <= I64_MAX
    ensures Apply(Anthropic, show, t, Opened(i, block).1)
         == t.(tools := if IsToolUse(block) then t.tools[i as int := (StrField(block, "name"), "")] else t.tools)
  {
    BlockEventReads(BLOCK_START, i, "content_block", block);
    assert t.text + "" == t.text;
  }

  lemma DeltaEffect(show: Value -> string, t: Tally, i: nat, kind: string, key: string, text: string)
    requires i <= I64_MAX && key != "type" && (key == "partial_json" <==> kind == "input_json_delta")
    ensures Apply(Anthropic, show, t, Delta(i, kind, key, text).1)
         == t.(text := t.text + (if key == "text" then text else ""),
               tools := if key == "partial_json" && i in t.tools
                        then t.tools[i as int := (t.tools[i].0, t.tools[i].1 + text)] else t.tools)
  {
    var d := Obj([("type", Str(kind)), (key, Str(text))]);
    var j := BlockEvent(BLOCK_DELTA, i, "delta", d);
    BlockEventReads(BLOCK_DELTA, i, "delta", d);
    DeltaReads(kind, key, text);
    DeltaOnTools(t.tools, j, d, i);
    DeltaOnText(j, d);
  }

  lemma DeltaOnTools(tools: ToolBuffer, j: Value, d: Value, i: nat)
    requires AsStr(Get(j, "type")) == Some(BLOCK_DELTA) && Get(j, "delta") == Some(d) && IntOr0(Get(j, "index")) == i
    ensures BlockCall(tools, j) ==
            if AsStr(Get(d, "type")) == Some("input_json_delta") && AsStr(Get(d, "partial_json")).Some? && i in tools
            then tools[i as int := (tools[i].0, tools[i].1 + AsStr(Get(d, "partial_json")).value)] else tools
  {
    PointerTwo(j, "delta", d, "type");
    PointerTwo(j, "delta", d, "partial_json");
  }

  lemma DeltaOnText(j: Value, d: Value)
    requires AsStr(Get(j, "type")) == Some(BLOCK_DELTA) && Get(j, "delta") == Some(d)
    ensures TextOf(Anthropic, j) == AsStr(Get(d, "text")).GetOr("")
  {
  }

  lemma StoppedEffect(show: Value -> string, t: Tally, i: nat)
    ensures Apply(Anthropic, show, t, Stopped(i).1) == t
  {
    StopEventReads(i);
    assert t.text + "" == t.text;
  }

  // ----- the effect of one content block

  function BlockText(block: Value): string {
    if BlockType(block) == "text" then StrField(block, "text") else ""
  }

  function BlockTools(show: Value -> string, tools: ToolBuffer, i: nat, block: Value): ToolBuffer {
    if IsToolUse(block) then tools[i as int := (StrField(block, "name"), show(ToolInput(block)))] else tools
  }

  function Step(show: Value -> string, t: Tally, e: Event): Tally {
    Apply(Anthropic, show, t, e.1)
  }

  lemma ApplyFew(show: Value -> string, t: Tally, a: Event, b: Event, c: Event, d: Event)
    ensures ApplyAll(show, t, [a, b]) == Step(show, Step(show, t, a), b)
    ensures ApplyAll(show, t, [a, b, c]) == Step(show, Step(show, Step(show, t, a), b), c)
    ensures ApplyAll(show, t, [a, b, c, d]) == Step(show, Step(show, Step(show, Step(show, t, a), b), c), d)
  {
    assert [a][..0] == [] && [a, b][..1] == [a];
    assert [a, b, c][..2] == [a, b] && [a, b, c, d][..3] == [a, b, c];
    assert ApplyAll(show, t, [a]) == Step(show, t, a);
    assert ApplyAll(show, t, [a, b]) == Step(show, ApplyAll(show, t, [a]), b);
    assert ApplyAll(show, t, [a, b, c]) == Step(show, ApplyAll(show, t, [a, b]), c);
  }

  lemma TextBlockEffect(show: Value -> string, t: Tally, i: nat, text: string)
    requires i <= I64_MAX
    ensures ApplyAll(show, t, [Opened(i, Obj([("type", Str("text")), ("text", Str(""))])),
              Delta(i, "text_delta", "text", text), Stopped(i)])
         == t.(text := t.text + text)
  {
    var stub := Obj([("type", Str("text")), ("text", Str(""))]);
    DeltaReads("text", "text", "");
    ApplyFew(show, t, Opened(i, stub), Delta(i, "text_delta", "text", text), Stopped(i), Stopped(i));
    OpenedEffect(show, t, i, stub);
    DeltaEffect(show, t, i, "text_delta", "text", text);
    StoppedEffect(show, t.(text := t.text + text), i);
  }

  lemma ToolStubReads(block: Value)
    ensures IsToolUse(ToolStub(block)) && StrField(ToolStub(block), "name") == StrField(block, "name")
  {
    FieldIs(ToolStub(block).fields, 0);
    FieldIs(ToolStub(block).fields, 2);
  }

  lemma InputEffect(show: Value -> string, t: Tally, i: nat, name: string, shown: string)
    requires i <= I64_MAX && i in t.tools && t.tools[i] == (name, "")
    ensures Step(show, t, Delta(i, "input_json_delta", "partial_json", shown))
         == t.(tools := t.tools[i as int := (name, shown)])
  {
    DeltaEffect(show, t, i, "input_json_delta", "partial_json", shown);
    assert "" + shown == shown && t.text + "" == t.text;
  }

  lemma Chain(show: Value -> string, t: Tally, t1: Tally, t2: Tally, a: Event, b: Event, c: Event)
    requires Step(show, t, a) == t1 && Step(show, t1, b) == t2 && Step(show, t2, c) == t2
    ensures ApplyAll(show, t, [a, b, c]) == t2
  {
    ApplyFew(show, t, a, b, c, c);
  }

  lemma ToolBlockEffect(show: Value -> string, t: Tally, i: nat, stub: Value, name: string, shown: string)
    requires i <= I64_MAX && IsToolUse(stub) && StrField(stub, "name") == name
    ensures ApplyAll(show, t, [Opened(i, stub), Delta(i, "input_json_delta", "partial_json", shown), Stopped(i)])
         == t.(tools := t.tools[i as int := (name, shown)])
  {
    var t1 := t.(tools := t.tools[i as int := (name, "")]);
    var t2 := t.(tools := t.tools[i as int := (name, shown)]);
    assert t1.tools[i as int := (name, shown)] == t2.tools;
    OpenedEffect(show, t, i, stub);
    InputEffect(show, t1, i, name, shown);
    StoppedEffect(show, t2, i);
    Chain(show, t, t1, t2, Opened(i, stub), Delta(i, "input_json_delta", "partial_json", shown), Stopped(i));
  }

  lemma ThinkingBlockEffect(show: Value -> string, t: Tally, i: nat, thinking: string, signature: string)
    requires i <= I64_MAX
    ensures ApplyAll(show, t, [Opened(i, Obj([("type", Str("thinking")), ("thinking", Str(""))])),
              Delta(i, "thinking_delta", "thinking", thinking),
              Delta(i, "signature_delta", "signature", signature), Stopped(i)])
         == t
  {
    var stub := Obj([("type", Str("thinking")), ("thinking", Str(""))]);
    DeltaReads("thinking", "thinking", "");
    ApplyFew(show, t, Opened(i, stub), Delta(i, "thinking_delta", "thinking", thinking),
      Delta(i, "signature_delta", "signature", signature), Stopped(i));
    OpenedEffect(show, t, i, stub);
    DeltaEffect(show, t, i, "thinking_delta", "thinking", thinking);
    DeltaEffect(show, t, i, "signature_delta", "signature", signature);
    StoppedEffect(show, t, i);
    assert t.text + "" == t.text;
  }

  lemma OtherBlockEffect(show: Value -> string, t: Tally, i: nat, block: Value)
    requires i <= I64_MAX && !IsToolUse(block)
    ensures ApplyAll(show, t, [Opened(i, block), Stopped(i)]) == t
  {
    ApplyFew(show, t, Opened(i, block), Stopped(i), Stopped(i), Stopped(i));
    OpenedEffect(show, t, i, block);
    StoppedEffect(show, t, i);
  }

  lemma BlockEffect(show: Value -> string, t: Tally, i: nat, block: Value)
    requires i <= I64_MAX
    ensures ApplyAll(show, t, BlockEvents(show, i, block))
         == Tally(t.usage, t.text + BlockText(block), BlockTools(show, t.tools, i, block))
  {
    assert t.text + "" == t.text;
    var kind := BlockType(block);
    if kind == "text" {
      TextBlockEffect(show, t, i, StrField(block, "text"));
    } else if kind == "tool_use" {
      ToolStubReads(block);
      ToolBlockEffect(show, t, i, ToolStub(block), StrField(block, "name"), show(ToolInput(block)));
    } else if kind == "thinking" {
      ThinkingBlockEffect(show, t, i, StrField(block, "thinking"), StrField(block, "signature"));
    } else {
      OtherBlockEffect(show, t, i, block);
    }
  }

  // ----- all blocks

  function BlocksText(blocks: seq<Value>): string {
    if blocks == [] then "" else BlocksText(blocks[..|blocks| - 1]) + BlockText(blocks[|blocks| - 1])
  }

  function BlocksTools(show: Value -> string, blocks: seq<Value>): ToolBuffer {
    if blocks == [] then map[]
    else BlockTools(show, BlocksTools(show, blocks[..|blocks| - 1]), |blocks| - 1, blocks[|blocks| - 1])
  }

  lemma LastBlockEffect(show: Value -> string, t: Tally, blocks: seq<Value>, n: nat, t1: Tally)
    requires n + 1 == |blocks| <= I64_MAX && ApplyAll(show, t, BlocksEvents(show, blocks[..n])) == t1
    ensures ApplyAll(show, t, BlocksEvents(show, blocks))
         == Tally(t1.usage, t1.text + BlockText(blocks[n]), BlockTools(show, t1.tools, n, blocks[n]))
  {
    ApplyConcat(show, t, BlocksEvents(show, blocks[..n]), BlockEvents(show, n, blocks[n]));
    BlockEffect(show, t1, n, blocks[n]);
  }

  function BlocksTally(show: Value -> string, t: Tally, blocks: seq<Value>): Tally {
    if blocks == [] then t
    else
      var n := |blocks| - 1;
      var p := BlocksTally(show, t, blocks[..n]);
      Tally(p.usage, p.text + BlockText(blocks[n]), BlockTools(show, p.tools, n, blocks[n]))
  }

  lemma {:induction false} BlocksAreTallied(show: Value -> string, t: Tally, blocks: seq<Value>)
    requires |blocks| <= I64_MAX
    ensures ApplyAll(show, t, BlocksEvents(show, blocks)) == BlocksTally(show, t, blocks)
  {
    if blocks != [] {
      var n := |blocks| - 1;
      BlocksAreTallied(show, t, blocks[..n]);
      LastBlockEffect(show, t, blocks, n, BlocksTally(show, t, blocks[..n]));
    }
  }

  lemma {:induction false} BlocksTallyIs(show: Value -> string, t: Tally, blocks: seq<Value>)
    requires t.tools == map[] && t.text == ""
    ensures BlocksTally(show, t, blocks) == Tally(t.usage, BlocksText(blocks), BlocksTools(show, blocks))
  {
    if blocks != [] {
      BlocksTallyIs(show, t, blocks[..|blocks| - 1]);
    }
  }

  // ----- message start and end

  lemma StartReads(msg: Value)
    ensures var e := StartEvent(msg);
            MessageUsage(e) == Get(msg, "usage") && Get(e, "usage").None? && Get(e, "usageMetadata").None? &&
            Get(e, "type") == Some(Str("message_start"))
  {
    FieldIs(StartEvent(msg).fields, 0);
    FieldIs(StartEvent(msg).fields, 1);
  }

  lemma EndReads(msg: Value)
    ensures var e := DeltaEvent(msg);
            Get(e, "message").None? && Get(e, "usageMetadata").None? &&
            Get(e, "usage") == Some(Get(msg, "usage").GetOr(Obj([]))) &&
            Get(e, "type") == Some(Str("message_delta"))
  {
    FieldIs(DeltaEvent(msg).fields, 0);
    FieldIs(DeltaEvent(msg).fields, 2);
  }

  lemma StopReads()
    ensures var e := Obj([("type", Str("message_stop"))]);
            Get(e, "type") == Some(Str("message_stop")) && CarriesNoUsage(e)
  {
    FieldIs([("type", Str("message_stop"))], 0);
  }

  /** Only the usage can change on an event that is not about a content block. */
  lemma FrameEvent(show: Value -> string, t: Tally, j: Value, kind: string)
    requires Get(j, "type") == Some(Str(kind)) && kind != BLOCK_START && kind != BLOCK_DELTA
    ensures Apply(Anthropic, show, t, j) == t.(usage := UsageAfter(Anthropic, t.usage, j))
  {
    assert t.text + "" == t.text;
  }

  lemma StartEffect(show: Value -> string, t: Tally, msg: Value)
    requires t.usage == ZERO
    ensures Apply(Anthropic, show, t, StartEvent(msg))
         == t.(usage := Merge(ZERO, UsageFromResponse(Anthropic, msg)))
  {
    StartReads(msg);
    FrameEvent(show, t, StartEvent(msg), "message_start");
  }

  lemma EndEffect(show: Value -> string, t: Tally, msg: Value)
    ensures ApplyAll(show, t, EndEvents(msg)) == t.(usage := Merge(t.usage, UsageFromResponse(Anthropic, msg)))
  {
    var stop := Obj([("type", Str("message_stop"))]);
    UsageEffect(show, t, msg);
    StopEffect(show, t.(usage := Merge(t.usage, UsageFromResponse(Anthropic, msg))), stop);
    var a, b := ("message_delta", DeltaEvent(msg)), ("message_stop", stop);
    ApplyFew(show, t, a, b, b, b);
  }

  lemma UsageEffect(show: Value -> string, t: Tally, msg: Value)
    ensures Apply(Anthropic, show, t, DeltaEvent(msg)) == t.(usage := Merge(t.usage, UsageFromResponse(Anthropic, msg)))
  {
    EndReads(msg);
    FrameEvent(show, t, DeltaEvent(msg), "message_delta");
  }

  lemma StopEffect(show: Value -> string, t: Tally, stop: Value)
    requires stop == Obj([("type", Str("message_stop"))])
    ensures Apply(Anthropic, show, t, stop) == t
  {
    StopReads();
    FrameEvent(show, t, stop, "message_stop");
  }

  // ----- the buffered calls

  predicate KeysBelow(tools: ToolBuffer, n: nat) {
    forall k :: k in tools ==> k < n
  }

  lemma {:induction false} ToolsBelow(show: Value -> string, blocks: seq<Value>)
    ensures KeysBelow(BlocksTools(show, blocks), |blocks|)
  {
    if blocks != [] {
      ToolsBelow(show, blocks[..|blocks| - 1]);
    }
  }

  /** A tool block as the tally reports it. */
  function Tallied(block: Value): seq<ToolCall> {
    if IsToolUse(block) then [ToolCall(StrField(block, "name"), ToolInput(block))] else []
  }

  function TalliedCalls(blocks: seq<Value>): seq<ToolCall> {
    if blocks == [] then [] else TalliedCalls(blocks[..|blocks| - 1]) + Tallied(blocks[|blocks| - 1])
  }

  lemma {:induction false} BufferedCalls(codec: Codec, blocks: seq<Value>)
    requires codec.Sound() && forall i :: 0 <= i < |blocks| ==> WellFormed(blocks[i])
    ensures ToolCalls(codec, BlocksTools(codec.show, blocks)) == TalliedCalls(blocks)
  {
    if blocks != [] {
      var n := |blocks| - 1;
      BufferedCalls(codec, blocks[..n]);
      ToolsBelow(codec.show, blocks[..n]);
      BufferedCall(codec, BlocksTools(codec.show, blocks[..n]), n, blocks[n]);
    }
  }

  lemma BufferedCall(codec: Codec, tools: ToolBuffer, n: nat, block: Value)
    requires codec.Sound() && WellFormed(block) && KeysBelow(tools, n)
    ensures ToolCalls(codec, BlockTools(codec.show, tools, n, block)) == ToolCalls(codec, tools) + Tallied(block)
  {
    if IsToolUse(block) {
      var name, input := StrField(block, "name"), ToolInput(block);
      InputWellFormed(block);
      InputIsRead(codec, input);
      CallsWithLargest(codec, tools, n, (name, codec.show(input)));
    }
  }

  lemma InputIsRead(codec: Codec, input: Value)
    requires codec.Sound() && WellFormed(input)
    ensures codec.fromStr(codec.show(input)) == Some(input)
  {
  }

  lemma InputWellFormed(block: Value)
    requires WellFormed(block)
    ensures WellFormed(ToolInput(block))
  {
  }

  /** A tool block the batch extraction reports, and with the input it has. */
  predicate Complete(block: Value) {
    IsToolUse(block) ==> AsStr(Get(block, "name")).Some? && Get(block, "input").Some?
  }

  lemma {:induction false} FewerBatchCalls(blocks: seq<Value>)
    ensures |CallsIn(CallOf, blocks)| <= |TalliedCalls(blocks)|
  {
    if blocks != [] {
      FewerBatchCalls(blocks[..|blocks| - 1]);
    }
  }

  /** Tally and batch agree on the calls exactly when every tool block is complete. */
  lemma {:induction false} CallsAgree(blocks: seq<Value>)
    ensures TalliedCalls(blocks) == CallsIn(CallOf, blocks) <==> AllComplete(blocks)
  {
    if blocks != [] {
      var n := |blocks| - 1;
      CallsAgree(blocks[..n]);
      FewerBatchCalls(blocks[..n]);
      CallsAgreeStep(TalliedCalls(blocks[..n]), CallsIn(CallOf, blocks[..n]), blocks[n]);
      CompleteStep(blocks);
    }
  }

  ghost predicate AllComplete(blocks: seq<Value>) {
    forall i :: 0 <= i < |blocks| ==> Complete(blocks[i])
  }

  lemma CompleteStep(blocks: seq<Value>)
    requires blocks != []
    ensures AllComplete(blocks) <==> AllComplete(blocks[..|blocks| - 1]) && Complete(blocks[|blocks| - 1])
  {
  }

  lemma CallsAgreeStep(tallied: seq<ToolCall>, batch: seq<ToolCall>, block: Value)
    requires |batch| <= |tallied|
    ensures tallied + Tallied(block) == batch + CallOf(block) <==> tallied == batch && Complete(block)
  {
    var a, b := tallied + Tallied(block), batch + CallOf(block);
    if a == b {
      assert |Tallied(block)| == |CallOf(block)|;
      assert tallied == a[..|tallied|] && batch == b[..|batch|];
      if IsToolUse(block) {
        assert a[|tallied|] == Tallied(block)[0] && b[|batch|] == CallOf(block)[0];
        EmptyObjectIsNotNull();
      }
    }
  }

  lemma EmptyObjectIsNotNull()
    ensures Obj([]) != Null
  {
  }

  // ----- the round trip

  lemma MergeTwice(u: Usage)
    ensures Merge(Merge(ZERO, u), u) == Usage(Max0(u.input), Max0(u.output), Max0(u.cacheCreation), Max0(u.cacheRead))
    ensures Merge(Merge(ZERO, u), u) == u <==> u.NonNegative()
  {
  }

  /** What a synthesised message is read back as. */
  function ReadBack(show: Value -> string, msg: Value): Tally {
    var u := UsageFromResponse(Anthropic, msg);
    Tally(Merge(Merge(ZERO, u), u), BlocksText(ContentBlocks(msg)), BlocksTools(show, ContentBlocks(msg)))
  }

  lemma ApplyEvents(show: Value -> string, msg: Value)
    requires |ContentBlocks(msg)| <= I64_MAX
    ensures ApplyAll(show, EMPTY, Events(show, msg)) == ReadBack(show, msg)
  {
    var u := UsageFromResponse(Anthropic, msg);
    var blocks := ContentBlocks(msg);
    var s, b, e := StartEvents(msg), BlocksEvents(show, blocks), EndEvents(msg);
    ApplyConcat(show, EMPTY, s + b, e);
    ApplyConcat(show, EMPTY, s, b);
    var t1 := EMPTY.(usage := Merge(ZERO, u));
    assert s[..0] == [];
    StartEffect(show, EMPTY, msg);
    assert ApplyAll(show, EMPTY, s) == t1;
    BlocksAreTallied(show, t1, blocks);
    BlocksTallyIs(show, t1, blocks);
    EndEffect(show, Tally(t1.usage, BlocksText(blocks), BlocksTools(show, blocks)), msg);
  }

  // ----- every synthesised event can be printed and parsed

  lemma PlainObject(fields: seq<(string, Value)>)
    requires forall i, j :: 0 <= i < j < |fields| ==> fields[i].0 != fields[j].0
    requires forall i :: 0 <= i < |fields| ==> WellFormed(fields[i].1)
    ensures WellFormed(Obj(fields))
  {
  }

  lemma PickWellFormed(v: Value, key: string, default: Value)
    requires WellFormed(v) && WellFormed(default)
    ensures WellFormed(Get(v, key).GetOr(default))
  {
  }

  lemma StartPrintable(msg: Value)
    requires WellFormed(msg)
    ensures Printable(StartEvents(msg)[0])
  {
    if msg.Obj? {
      SetFieldWellFormed(msg.fields, "content", Arr([]));
    }
    PlainObject(StartEvent(msg).fields);
  }

  lemma DeltaEventWellFormed(msg: Value)
    requires WellFormed(msg)
    ensures WellFormed(DeltaEvent(msg))
  {
    PickWellFormed(msg, "stop_reason", Null);
    PickWellFormed(msg, "usage", Obj([]));
    PlainObject([("stop_reason", Get(msg, "stop_reason").GetOr(Null))]);
    PlainObject(DeltaEvent(msg).fields);
  }

  lemma EndPrintable(msg: Value)
    requires WellFormed(msg)
    ensures forall i :: 0 <= i < |EndEvents(msg)| ==> Printable(EndEvents(msg)[i])
  {
    DeltaEventWellFormed(msg);
    PlainObject([("type", Str("message_stop"))]);
  }

  lemma OpenedPrintable(i: nat, block: Value)
    requires WellFormed(block)
    ensures Printable(Opened(i, block))
  {
    PlainObject(Opened(i, block).1.fields);
  }

  lemma StoppedPrintable(i: nat)
    ensures Printable(Stopped(i))
  {
    PlainObject(StopEvent(i).fields);
  }

  lemma DeltaPrintable(i: nat, kind: string, key: string, text: string)
    requires key != "type"
    ensures Printable(Delta(i, kind, key, text))
  {
    PlainObject([("type", Str(kind)), (key, Str(text))]);
    PlainObject(Delta(i, kind, key, text).1.fields);
  }

  lemma StubWellFormed(block: Value)
    requires WellFormed(block)
    ensures WellFormed(ToolStub(block))
  {
    PickWellFormed(block, "id", Null);
    PickWellFormed(block, "name", Null);
    PlainObject(ToolStub(block).fields);
  }

  /** A block of one text, opened, filled and closed. */
  lemma FilledPrintable(i: nat, block: Value, kind: string, key: string, text: string)
    requires WellFormed(block) && key != "type"
    ensures forall e :: e in [Opened(i, block), Delta(i, kind, key, text), Stopped(i)] ==> Printable(e)
  {
    OpenedPrintable(i, block);
    DeltaPrintable(i, kind, key, text);
    StoppedPrintable(i);
  }

  lemma ThinkingPrintable(i: nat, block: Value, thinking: string, signature: string)
    requires WellFormed(block)
    ensures var es := [Opened(i, block), Delta(i, "thinking_delta", "thinking", thinking),
                       Delta(i, "signature_delta", "signature", signature), Stopped(i)];
            forall e :: e in es ==> Printable(e)
  {
    OpenedPrintable(i, block);
    DeltaPrintable(i, "thinking_delta", "thinking", thinking);
    DeltaPrintable(i, "signature_delta", "signature", signature);
    StoppedPrintable(i);
  }

  lemma WholePrintable(i: nat, block: Value)
    requires WellFormed(block)
    ensures forall e :: e in [Opened(i, block), Stopped(i)] ==> Printable(e)
  {
    OpenedPrintable(i, block);
    StoppedPrintable(i);
  }

  lemma BlockPrintable(show: Value -> string, i: nat, block: Value)
    requires WellFormed(block)
    ensures forall e :: e in BlockEvents(show, i, block) ==> Printable(e)
  {
    var t := BlockType(block);
    if t == "text" {
      PlainObject([("type", Str("text")), ("text", Str(""))]);
      FilledPrintable(i, Obj([("type", Str("text")), ("text", Str(""))]), "text_delta", "text",
        StrField(block, "text"));
    } else if t == "tool_use" {
      StubWellFormed(block);
      FilledPrintable(i, ToolStub(block), "input_json_delta", "partial_json", show(ToolInput(block)));
    } else if t == "thinking" {
      PlainObject([("type", Str(t)), ("thinking", Str(""))]);
      ThinkingPrintable(i, Obj([("type", Str(t)), ("thinking", Str(""))]), StrField(block, "thinking"),
        StrField(block, "signature"));
    } else {
      WholePrintable(i, block);
    }
  }

  lemma {:induction false} BlocksPrintable(show: Value -> string, blocks: seq<Value>)
    requires forall i :: 0 <= i < |blocks| ==> WellFormed(blocks[i])
    ensures forall e :: e in BlocksEvents(show, blocks) ==> Printable(e)
  {
    if blocks != [] {
      BlocksPrintable(show, blocks[..|blocks| - 1]);
      BlockPrintable(show, |blocks| - 1, blocks[|blocks| - 1]);
    }
  }

  lemma BlocksWellFormed(msg: Value)
    requires WellFormed(msg)
    ensures forall i :: 0 <= i < |ContentBlocks(msg)| ==> WellFormed(ContentBlocks(msg)[i])
  {
  }

  lemma AllPrintable(show: Value -> string, msg: Value)
    requires WellFormed(msg)
    ensures forall i :: 0 <= i < |Events(show, msg)| ==> Printable(Events(show, msg)[i])
  {
    StartPrintable(msg);
    EndPrintable(msg);
    BlocksWellFormed(msg);
    BlocksPrintable(show, ContentBlocks(msg));
    forall e | e in Events(show, msg) ensures Printable(e) {
    }
  }

  // ----- the theorem

  /** The tally of a synthesised stream, however the stream is cut into chunks. */
  lemma SynthesizedStreamIsReadBack(r: Reader, msg: Value, chunks: seq<seq<byte>>)
    requires r.codec.Sound() && r.provider == Anthropic
    requires WellFormed(msg) && |ContentBlocks(msg)| <= I64_MAX
    requires Join(chunks, []) == Encode(Printed(r.codec.show, Events(r.codec.show, msg)))
    ensures FeedChunks(r.Read(), Progress(EMPTY, []), chunks) == Progress(ReadBack(r.codec.show, msg), [])
  {
    ChunkingIsIrrelevant(r.Read(), Progress(EMPTY, []), chunks);
    AllPrintable(r.codec.show, msg);
    EventsAreRead(r, EMPTY, Events(r.codec.show, msg));
    ApplyEvents(r.codec.show, msg);
  }

  /** Streaming loses nothing the batch extraction sees: the counts agree exactly when none is
      negative, the calls exactly when every tool block has a string name and an input. */
  lemma TallyAgreesWithBatch(codec: Codec, msg: Value)
    requires codec.Sound() && WellFormed(msg)
    ensures var t := ReadBack(codec.show, msg);
            (t.usage == UsageFromResponse(Anthropic, msg) <==> UsageFromResponse(Anthropic, msg).NonNegative()) &&
            (ToolCalls(codec, t.tools) == CallsFromResponse(Anthropic, codec, msg) <==>
              AllComplete(ContentBlocks(msg))) &&
            t.text == BlocksText(ContentBlocks(msg))
  {
    MergeTwice(UsageFromResponse(Anthropic, msg));
    BlocksWellFormed(msg);
    BufferedCalls(codec, ContentBlocks(msg));
    CallsAgree(ContentBlocks(msg));
  }
}
