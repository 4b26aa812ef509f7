/**
  The two provider dialects of the retrieve loop: which calls a response carries, whether the
  client has to answer some itself, what may be handed to the client, and what is sent next.
*/
module Dialects {
  import opened Options
  import opened Json
  import opened Usage

  const RETRIEVE_TOOL := "ptk_retrieve"
  /** What the client reads where a retrieval was left open. */
  const NOTICE := "[ptk-proxy: a compressed-content retrieval could not be completed this turn]"

  /** One request of the model for compressed content. */
  datatype Call = Call(callId: string, id: string, query: Option<string>)

  datatype Dialect = Dialect(
    provider: Provider,
    prepare: Value -> Value,
    calls: Value -> seq<Call>,
    foreign: Value -> bool,
    sanitize: Value -> Option<Value>,
    followup: (Value, seq<(Call, string)>) -> seq<Value>)
  {
    /** Sanitising does something exactly where there are retrieve calls; it removes every one,
        keeps the usage and leaves a printable value. */
    ghost predicate Lawful() {
      forall j {:trigger sanitize(j)} :: WellFormed(j) ==>
        (sanitize(j).None? <==> calls(j) == []) &&
        (sanitize(j).Some? ==> IsCleanOf(sanitize(j).value, j))
    }

    ghost predicate IsCleanOf(c: Value, j: Value) {
      calls(c) == [] && WellFormed(c) && UsageFromResponse(provider, c) == UsageFromResponse(provider, j)
    }
  }

  function ArgString(input: Option<Value>, key: string): Option<string> {
    match input case Some(v) => AsStr(Get(v, key)) case None => None
  }

  function CallFrom(id: Option<Value>, input: Option<Value>): Call {
    Call(AsStr(id).GetOr(""), ArgString(input, "id").GetOr(""), ArgString(input, "query"))
  }

  function Pick(items: seq<Value>, p: Value -> bool): (r: seq<Value>)
    ensures forall v :: v in r ==> v in items && p(v)
    ensures r == [] <==> forall i :: 0 <= i < |items| ==> !p(items[i])
  {
    if items == [] then []
    else if p(items[0]) then [items[0]] + Pick(items[1..], p)
    else Pick(items[1..], p)
  }

  function Replace(items: seq<Value>, p: Value -> bool, x: Value): (r: seq<Value>)
    ensures |r| == |items|
    ensures forall i :: 0 <= i < |r| ==> r[i] == if p(items[i]) then x else items[i]
  {
    if items == [] then []
    else [if p(items[0]) then x else items[0]] + Replace(items[1..], p, x)
  }

  // ----- Anthropic

  predicate IsRetrieveBlock(b: Value) {
    IsToolUse(b) && AsStr(Get(b, "name")) == Some(RETRIEVE_TOOL)
  }

  predicate IsForeignBlock(b: Value) {
    IsToolUse(b) && !IsRetrieveBlock(b)
  }

  function AnthropicCallsIn(retrieves: seq<Value>): (r: seq<Call>)
    ensures |r| == |retrieves|
  {
    if retrieves == [] then []
    else [CallFrom(Get(retrieves[0], "id"), Get(retrieves[0], "input"))] + AnthropicCallsIn(retrieves[1..])
  }

  function AnthropicCalls(j: Value): seq<Call> {
    AnthropicCallsIn(Pick(ContentBlocks(j), IsRetrieveBlock))
  }

  predicate AnthropicForeign(j: Value) {
    exists b :: b in ContentBlocks(j) && IsForeignBlock(b)
  }

  function TextBlock(text: string): Value {
    Obj([("type", Str("text")), ("text", Str(text))])
  }

  /** Beside calls for the client, retrieve calls are dropped. */
  function AnthropicStripped(j: Value): Value {
    Put(j, "content", Arr(Pick(ContentBlocks(j), b => !IsRetrieveBlock(b))))
  }

  /** Otherwise each becomes a text block, and the turn ends. */
  function AnthropicApologised(notice: string, j: Value): Value {
    Ended(Put(j, "content", Arr(Replace(ContentBlocks(j), IsRetrieveBlock, TextBlock(notice)))))
  }

  function Ended(out: Value): Value {
    if AsStr(Get(out, "stop_reason")) == Some("tool_use") then Put(out, "stop_reason", Str("end_turn")) else out
  }

  function AnthropicSanitize(notice: string, j: Value): Option<Value> {
    if forall b :: b in ContentBlocks(j) ==> !IsRetrieveBlock(b) then None
    else if AnthropicForeign(j) then Some(AnthropicStripped(j))
    else Some(AnthropicApologised(notice, j))
  }

  function ToolResult(call: Call, content: string): Value {
    Obj([("type", Str("tool_result")), ("tool_use_id", Str(call.callId)), ("content", Str(content))])
  }

  function ToolResults(resolved: seq<(Call, string)>): seq<Value> {
    if resolved == [] then [] else [ToolResult(resolved[0].0, resolved[0].1)] + ToolResults(resolved[1..])
  }

  /** The assistant turn verbatim, then one user turn with a result for every call. */
  function AnthropicFollowup(j: Value, resolved: seq<(Call, string)>): seq<Value> {
    [Obj([("role", Str("assistant")), ("content", Get(j, "content").GetOr(Arr([])))]),
     Obj([("role", Str("user")), ("content", Arr(ToolResults(resolved)))])]
  }

  function NonStreaming(body: Value): Value {
    Put(body, "stream", Bool(false))
  }

  function AnthropicDialect(notice: string): Dialect {
    Dialect(Anthropic, NonStreaming, AnthropicCalls, AnthropicForeign,
      j => AnthropicSanitize(notice, j), AnthropicFollowup)
  }

  // ----- OpenAI

  const MESSAGE_PATH: seq<string> := ["choices", "0", "message"]
  const CHOICE_PATH: seq<string> := ["choices", "0"]

  predicate IsRetrieveItem(c: Value) {
    ItemName(c) == Some(RETRIEVE_TOOL)
  }

  function OpenaiCallsIn(codec: Codec, retrieves: seq<Value>): (r: seq<Call>)
    ensures |r| == |retrieves|
  {
    if retrieves == [] then []
    else [CallFrom(Get(retrieves[0], "id"), Some(ItemArgs(codec, retrieves[0])))] + OpenaiCallsIn(codec, retrieves[1..])
  }

  function OpenaiCalls(codec: Codec, j: Value): seq<Call> {
    OpenaiCallsIn(codec, Pick(CallItems(j), IsRetrieveItem))
  }

  predicate OpenaiForeign(j: Value) {
    exists c :: c in CallItems(j) && !IsRetrieveItem(c)
  }

  function OpenaiStripped(j: Value): Value {
    PutAt(j, CALLS_PATH, Arr(Pick(CallItems(j), c => !IsRetrieveItem(c))))
  }

  function Apologetic(notice: string, message: Value): Value {
    Put(Drop(message, "tool_calls"), "content", Str(notice))
  }

  /** A choice that ended for its calls ends normally now. */
  function Finished(choice: Value): Value {
    if AsStr(Get(choice, "finish_reason")) == Some("tool_calls")
    then Put(choice, "finish_reason", Str("stop")) else choice
  }

  function OpenaiApologised(notice: string, j: Value): Value {
    var out := PutAt(j, MESSAGE_PATH, Apologetic(notice, Pointer(j, MESSAGE_PATH).GetOr(Null)));
    PutAt(out, CHOICE_PATH, Finished(Pointer(out, CHOICE_PATH).GetOr(Null)))
  }

  function OpenaiSanitize(notice: string, j: Value): Option<Value> {
    if forall c :: c in CallItems(j) ==> !IsRetrieveItem(c) then None
    else if OpenaiForeign(j) then Some(OpenaiStripped(j))
    else Some(OpenaiApologised(notice, j))
  }

  function ToolMessage(call: Call, content: string): Value {
    Obj([("role", Str("tool")), ("tool_call_id", Str(call.callId)), ("content", Str(content))])
  }

  function ToolMessages(resolved: seq<(Call, string)>): seq<Value> {
    if resolved == [] then [] else [ToolMessage(resolved[0].0, resolved[0].1)] + ToolMessages(resolved[1..])
  }

  /** The assistant message verbatim, then one tool message for every call. */
  function OpenaiFollowup(j: Value, resolved: seq<(Call, string)>): seq<Value> {
    [Pointer(j, MESSAGE_PATH).GetOr(Obj([("role", Str("assistant")), ("content", Null)]))] + ToolMessages(resolved)
  }

  function OpenaiPrepare(body: Value): Value {
    Drop(NonStreaming(body), "stream_options")
  }

  function OpenaiDialect(codec: Codec, notice: string): Dialect {
    Dialect(Openai, OpenaiPrepare, j => OpenaiCalls(codec, j), OpenaiForeign,
      j => OpenaiSanitize(notice, j), OpenaiFollowup)
  }

  // ----- both are lawful

  lemma NoticeBlock(notice: string)
    ensures !IsRetrieveBlock(TextBlock(notice)) && WellFormed(TextBlock(notice))
  {
    FieldIs(TextBlock(notice).fields, 0);
  }

  lemma EndedKeeps(out: Value)
    requires WellFormed(out)
    ensures WellFormed(Ended(out)) && ContentBlocks(Ended(out)) == ContentBlocks(out)
    ensures Get(Ended(out), "usage") == Get(out, "usage")
  {
    PutWellFormed(out, "stop_reason", Str("end_turn"));
  }

  lemma ContentWellFormed(j: Value)
    requires WellFormed(j)
    ensures forall b :: b in ContentBlocks(j) ==> WellFormed(b)
  {
  }

  lemma CallsMeanRetrieves(items: seq<Value>)
    ensures AnthropicCallsIn(Pick(items, IsRetrieveBlock)) == [] <==> forall b :: b in items ==> !IsRetrieveBlock(b)
  {
    assert forall i :: 0 <= i < |items| ==> items[i] in items;
  }

  /** New content without retrieve blocks makes a clean response. */
  lemma AnthropicClean(j: Value, blocks: seq<Value>)
    requires j.Obj? && WellFormed(j)
    requires forall b :: b in blocks ==> !IsRetrieveBlock(b) && WellFormed(b)
    ensures var c := Put(j, "content", Arr(blocks));
            AnthropicCalls(c) == [] && WellFormed(c) && Get(c, "usage") == Get(j, "usage") && c.Obj?
  {
    assert forall i :: 0 <= i < |blocks| ==> blocks[i] in blocks;
    PutWellFormed(j, "content", Arr(blocks));
    CallsMeanRetrieves(blocks);
  }

  lemma AnthropicStrippedIsClean(j: Value)
    requires WellFormed(j) && j.Obj?
    ensures var c := AnthropicStripped(j);
            AnthropicCalls(c) == [] && WellFormed(c) && Get(c, "usage") == Get(j, "usage")
  {
    ContentWellFormed(j);
    AnthropicClean(j, Pick(ContentBlocks(j), b => !IsRetrieveBlock(b)));
  }

  lemma AnthropicApologisedIsClean(notice: string, j: Value)
    requires WellFormed(j) && j.Obj?
    ensures var c := AnthropicApologised(notice, j);
            AnthropicCalls(c) == [] && WellFormed(c) && Get(c, "usage") == Get(j, "usage")
  {
    ContentWellFormed(j);
    NoticeBlock(notice);
    var blocks := Replace(ContentBlocks(j), IsRetrieveBlock, TextBlock(notice));
    AnthropicClean(j, blocks);
    EndedKeeps(Put(j, "content", Arr(blocks)));
  }

  lemma AnthropicSanitizesCalls(notice: string, j: Value)
    ensures AnthropicSanitize(notice, j).None? <==> AnthropicCalls(j) == []
  {
    CallsMeanRetrieves(ContentBlocks(j));
  }

  lemma AnthropicSanitizes(notice: string, j: Value)
    requires WellFormed(j) && AnthropicSanitize(notice, j).Some?
    ensures var c := AnthropicSanitize(notice, j).value;
            AnthropicCalls(c) == [] && WellFormed(c) && Get(c, "usage") == Get(j, "usage")
  {
    assert ContentBlocks(j) != [] && j.Obj?;
    if AnthropicForeign(j) {
      AnthropicStrippedIsClean(j);
    } else {
      AnthropicApologisedIsClean(notice, j);
    }
  }

  lemma AnthropicIsLawful(notice: string)
    ensures AnthropicDialect(notice).Lawful()
  {
    var d := AnthropicDialect(notice);
    forall j | WellFormed(j)
      ensures d.sanitize(j).None? <==> d.calls(j) == []
      ensures d.sanitize(j).Some? ==> d.IsCleanOf(d.sanitize(j).value, j)
    {
      AnthropicSanitizesCalls(notice, j);
      if d.sanitize(j).Some? {
        AnthropicSanitizes(notice, j);
      }
    }
  }

  lemma PathsAgree()
    ensures MESSAGE_PATH + ["tool_calls"] == CALLS_PATH && CHOICE_PATH + ["message", "tool_calls"] == CALLS_PATH
    ensures CHOICE_PATH + ["message"] == MESSAGE_PATH
    ensures MESSAGE_PATH[0] == CHOICE_PATH[0] == CALLS_PATH[0] == "choices"
  {
  }

  lemma NoRetrieveItemsLeft(codec: Codec, items: seq<Value>)
    requires forall c :: c in items ==> !IsRetrieveItem(c)
    ensures OpenaiCallsIn(codec, Pick(items, IsRetrieveItem)) == []
  {
    assert forall i :: 0 <= i < |items| ==> items[i] in items;
  }

  lemma ItemsWellFormed(j: Value)
    requires WellFormed(j)
    ensures forall c :: c in CallItems(j) ==> WellFormed(c)
  {
    if Pointer(j, CALLS_PATH).Some? {
      PointerWellFormed(j, CALLS_PATH);
    }
  }

  lemma OpenaiStrippedIsClean(codec: Codec, j: Value)
    requires WellFormed(j) && j.Obj? && Pointer(j, CALLS_PATH).Some?
    ensures var c := OpenaiStripped(j);
            OpenaiCalls(codec, c) == [] && WellFormed(c) && Get(c, "usage") == Get(j, "usage")
  {
    var kept := Pick(CallItems(j), c => !IsRetrieveItem(c));
    ItemsWellFormed(j);
    assert forall i :: 0 <= i < |kept| ==> kept[i] in kept;
    PutAtReads(j, CALLS_PATH, Arr(kept), []);
    assert CALLS_PATH + [] == CALLS_PATH;
    assert CallItems(OpenaiStripped(j)) == kept;
    NoRetrieveItemsLeft(codec, kept);
    PutAtWellFormed(j, CALLS_PATH, Arr(kept));
    PathsAgree();
    PutAtElsewhere(j, CALLS_PATH, Arr(kept), "usage");
  }

  lemma NoCallsAfterApology(notice: string, message: Value)
    requires message.Obj? && WellFormed(message)
    ensures var m := Apologetic(notice, message); Get(m, "tool_calls").None? && m.Obj? && WellFormed(m)
  {
    DropFieldWellFormed(message.fields, "tool_calls");
    PutWellFormed(Drop(message, "tool_calls"), "content", Str(notice));
  }

  /** Finishing a choice changes nothing about its message. */
  lemma FinishedKeepsCalls(choice: Value)
    requires WellFormed(choice)
    ensures WellFormed(Finished(choice))
    ensures Pointer(Finished(choice), ["message", "tool_calls"]) == Pointer(choice, ["message", "tool_calls"])
  {
    PutWellFormed(choice, "finish_reason", Str("stop"));
    assert Child(Finished(choice), "message") == Child(choice, "message");
  }

  lemma MessageApologised(notice: string, j: Value, message: Value)
    requires WellFormed(j) && j.Obj? && Pointer(j, MESSAGE_PATH) == Some(message) && message.Obj?
    ensures var out := PutAt(j, MESSAGE_PATH, Apologetic(notice, message));
            Pointer(out, CALLS_PATH).None? && WellFormed(out) && Get(out, "usage") == Get(j, "usage") && out.Obj?
    ensures Pointer(PutAt(j, MESSAGE_PATH, Apologetic(notice, message)), CHOICE_PATH).Some?
  {
    PathsAgree();
    PointerWellFormed(j, MESSAGE_PATH);
    NoCallsAfterApology(notice, message);
    var out := PutAt(j, MESSAGE_PATH, Apologetic(notice, message));
    PutAtReads(j, MESSAGE_PATH, Apologetic(notice, message), ["tool_calls"]);
    PutAtReads(j, MESSAGE_PATH, Apologetic(notice, message), []);
    PutAtWellFormed(j, MESSAGE_PATH, Apologetic(notice, message));
    PutAtElsewhere(j, MESSAGE_PATH, Apologetic(notice, message), "usage");
    assert MESSAGE_PATH + [] == MESSAGE_PATH;
    PointerThrough(out, CHOICE_PATH, ["message"]);
    assert Pointer(Apologetic(notice, message), ["tool_calls"]).None?;
  }

  lemma OpenaiApologisedIsClean(codec: Codec, notice: string, j: Value)
    requires WellFormed(j) && j.Obj? && Pointer(j, CALLS_PATH).Some?
    requires Pointer(j, MESSAGE_PATH).Some? && Pointer(j, MESSAGE_PATH).value.Obj?
    ensures var c := OpenaiApologised(notice, j);
            OpenaiCalls(codec, c) == [] && WellFormed(c) && Get(c, "usage") == Get(j, "usage")
  {
    PathsAgree();
    var message := Pointer(j, MESSAGE_PATH).value;
    MessageApologised(notice, j, message);
    var out := PutAt(j, MESSAGE_PATH, Apologetic(notice, message));
    var choice := Pointer(out, CHOICE_PATH).value;
    PointerWellFormed(out, CHOICE_PATH);
    FinishedKeepsCalls(choice);
    PutAtReads(out, CHOICE_PATH, Finished(choice), ["message", "tool_calls"]);
    PointerThrough(out, CHOICE_PATH, ["message", "tool_calls"]);
    PutAtWellFormed(out, CHOICE_PATH, Finished(choice));
    PutAtElsewhere(out, CHOICE_PATH, Finished(choice), "usage");
    NoRetrieveItemsLeft(codec, []);
  }

  lemma ItemsComeFromAMessage(j: Value)
    requires CallItems(j) != []
    ensures j.Obj? && Pointer(j, CALLS_PATH).Some?
    ensures Pointer(j, MESSAGE_PATH).Some? && Pointer(j, MESSAGE_PATH).value.Obj?
  {
    PathsAgree();
    PointerThrough(j, MESSAGE_PATH, ["tool_calls"]);
    var m := Pointer(j, MESSAGE_PATH).value;
    assert Child(m, "tool_calls").Some?;
    assert Child(j, "choices").Some?;
  }

  lemma OpenaiSanitizes(codec: Codec, notice: string, j: Value)
    requires WellFormed(j)
    ensures OpenaiSanitize(notice, j).None? <==> OpenaiCalls(codec, j) == []
    ensures match OpenaiSanitize(notice, j)
            case None => true
            case Some(c) => OpenaiCalls(codec, c) == [] && WellFormed(c) && Get(c, "usage") == Get(j, "usage")
  {
    if forall c :: c in CallItems(j) ==> !IsRetrieveItem(c) {
      NoRetrieveItemsLeft(codec, CallItems(j));
    } else {
      ItemsComeFromAMessage(j);
      if OpenaiForeign(j) {
        OpenaiStrippedIsClean(codec, j);
      } else {
        OpenaiApologisedIsClean(codec, notice, j);
      }
    }
  }

  lemma OpenaiIsLawful(codec: Codec, notice: string)
    ensures OpenaiDialect(codec, notice).Lawful()
  {
    var d := OpenaiDialect(codec, notice);
    forall j | WellFormed(j)
      ensures d.sanitize(j).None? <==> d.calls(j) == []
      ensures d.sanitize(j).Some? ==> d.IsCleanOf(d.sanitize(j).value, j)
    {
      OpenaiSanitizes(codec, notice, j);
    }
  }
}
