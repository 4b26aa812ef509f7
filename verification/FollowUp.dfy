/**
  What the bodies of the retrieve loop say, read field by field: what is posted first, when another
  post follows, and what it adds to the conversation.
*/
module FollowUp {
  import opened Options
  import opened Json
  import opened Usage
  import opened Dialects
  import opened RetrieveLoop
  import opened Selection

  // ----- reading

  /** Every field but this one is the same. */
  ghost predicate SameBut(a: Value, b: Value, key: string) {
    forall k :: k != key ==> Get(a, k) == Get(b, k)
  }

  /** The conversation goes on with these messages, and nothing else changes. */
  ghost predicate Adds(before: Value, after: Value, more: seq<Value>) {
    exists ms :: Get(before, "messages") == Some(Arr(ms)) && Get(after, "messages") == Some(Arr(ms + more)) &&
      SameBut(before, after, "messages")
  }

  function Text(v: Option<Value>): string {
    AsStr(v).GetOr("")
  }

  ghost predicate Says(m: Value, role: string, content: Value) {
    Get(m, "role") == Some(Str(role)) && Get(m, "content") == Some(content)
  }

  // ----- Anthropic

  /** A call that only the proxy can answer. */
  predicate AsksProxy(b: Value) {
    Get(b, "type") == Some(Str("tool_use")) && Get(b, "name") == Some(Str("ptk_retrieve"))
  }

  predicate CallsTool(b: Value) {
    Get(b, "type") == Some(Str("tool_use"))
  }

  /** What a block asks for: its own id, the id of the content, and a query if there is one. */
  function Asked(b: Value): Call {
    Call(Text(Get(b, "id")), Text(Pointer(b, ["input", "id"])), AsStr(Pointer(b, ["input", "query"])))
  }

  /** The result answers the block by its id, with what the content store gives for it. */
  ghost predicate AnswersBlock(result: Value, b: Value, resolve: Resolver, round: nat) {
    Get(result, "type") == Some(Str("tool_result")) && Get(result, "tool_use_id") == Some(Str(Text(Get(b, "id")))) &&
    Get(result, "content") == Some(Str(resolve(round, Asked(b))))
  }

  /** `user` is a turn with one result for every retrieve block of the reply, in their order. */
  ghost predicate AnswersAll(user: Value, blocks: seq<Value>, at: seq<nat>, resolve: Resolver, round: nat) {
    exists results :: Says(user, "user", Arr(results)) && |results| == |at| && Ascending(at, |blocks|) &&
      forall m :: 0 <= m < |at| ==> AnswersBlock(results[m], blocks[at[m]], resolve, round)
  }

  /** Exactly the blocks at these places ask the proxy, and there are some. */
  ghost predicate AskAt(blocks: seq<Value>, at: seq<nat>) {
    at != [] && Ascending(at, |blocks|) && forall k: nat :: k < |blocks| ==> (AsksProxy(blocks[k]) <==> k in at)
  }

  lemma {:induction false} AsksMeans(b: Value)
    ensures IsRetrieveBlock(b) <==> AsksProxy(b)
    ensures IsForeignBlock(b) <==> CallsTool(b) && !AsksProxy(b)
  {
  }

  lemma {:induction false} AskedMeans(b: Value)
    ensures CallFrom(Get(b, "id"), Get(b, "input")) == Asked(b)
  {
    assert ["input", "id"][1..] == ["id"] && ["input", "query"][1..] == ["query"];
    assert ["id"][1..] == [] && ["query"][1..] == [];
    if Get(b, "input").Some? {
      PointerTwo(b, "input", Get(b, "input").value, "id");
      PointerTwo(b, "input", Get(b, "input").value, "query");
    } else {
      assert Child(b, "input").None?;
    }
  }

  lemma {:induction false} CallAt(retrieves: seq<Value>, m: nat)
    requires m < |retrieves|
    ensures AnthropicCallsIn(retrieves)[m] == Asked(retrieves[m])
  {
    AskedMeans(retrieves[0]);
    if m > 0 {
      CallAt(retrieves[1..], m - 1);
    }
  }

  lemma {:induction false} ResolvedAt(resolve: Resolver, round: nat, calls: seq<Call>, m: nat)
    requires m < |calls|
    ensures |ResolveAll(resolve, round, calls)| == |calls|
    ensures ResolveAll(resolve, round, calls)[m] == (calls[m], resolve(round, calls[m]))
  {
    var n := |calls| - 1;
    if m < n {
      ResolvedAt(resolve, round, calls[..n], m);
    } else if n > 0 {
      ResolvedAt(resolve, round, calls[..n], 0);
    }
  }

  lemma {:induction false} ResultAt(resolved: seq<(Call, string)>, m: nat)
    requires m < |resolved|
    ensures |ToolResults(resolved)| == |resolved|
    ensures ToolResults(resolved)[m] == ToolResult(resolved[m].0, resolved[m].1)
  {
    if m > 0 {
      ResultAt(resolved[1..], m - 1);
    } else if |resolved| > 1 {
      ResultAt(resolved[1..], 0);
    }
  }

  lemma {:induction false} ResultReads(call: Call, content: string)
    ensures var r := ToolResult(call, content);
            Get(r, "type") == Some(Str("tool_result")) && Get(r, "tool_use_id") == Some(Str(call.callId)) &&
            Get(r, "content") == Some(Str(content))
  {
    var fields := ToolResult(call, content).fields;
    FieldIs(fields, 0);
    FieldIs(fields, 1);
    FieldIs(fields, 2);
  }

  lemma {:induction false} TurnReads(role: string, content: Value)
    ensures Says(Obj([("role", Str(role)), ("content", content)]), role, content)
  {
    var fields := [("role", Str(role)), ("content", content)];
    FieldIs(fields, 0);
    FieldIs(fields, 1);
  }

  /** The results, in the order of the calls. */
  lemma {:induction false} ResultsAnswer(retrieves: seq<Value>, resolve: Resolver, round: nat, m: nat)
    requires m < |retrieves|
    ensures var results := ToolResults(ResolveAll(resolve, round, AnthropicCallsIn(retrieves)));
            |results| == |retrieves| && AnswersBlock(results[m], retrieves[m], resolve, round)
  {
    var calls := AnthropicCallsIn(retrieves);
    CallAt(retrieves, m);
    ResolvedAt(resolve, round, calls, m);
    ResultAt(ResolveAll(resolve, round, calls), m);
    ResultReads(calls[m], resolve(round, calls[m]));
  }

  lemma {:induction false} NextAdds(
    d: Dialect, codec: Codec, resolve: Resolver, round: nat, body: Value, r: Reply, j: Value)
    requires Messages(body).Some? && codec.fromSlice(r.1) == Some(j)
    ensures Adds(body, NextBody(d, codec, resolve, round, body, r),
              d.followup(j, ResolveAll(resolve, round, d.calls(j))))
  {
    var ms := Messages(body).value;
    var more := d.followup(j, ResolveAll(resolve, round, d.calls(j)));
    assert Get(body, "messages") == Some(Arr(ms));
    assert Get(NextBody(d, codec, resolve, round, body, r), "messages") == Some(Arr(ms + more));
  }

  lemma {:induction false} AnthropicAnswers(resolve: Resolver, round: nat, j: Value) returns (at: seq<nat>)
    requires AnthropicCalls(j) != [] && !AnthropicForeign(j)
    ensures AskAt(ContentBlocks(j), at) && Get(j, "content") == Some(Arr(ContentBlocks(j)))
    ensures forall b :: b in ContentBlocks(j) && CallsTool(b) ==> AsksProxy(b)
    ensures var added := AnthropicFollowup(j, ResolveAll(resolve, round, AnthropicCalls(j)));
            |added| == 2 && |AnthropicCalls(j)| == |at| && Says(added[0], "assistant", Arr(ContentBlocks(j))) &&
            AnswersAll(added[1], ContentBlocks(j), at, resolve, round)
  {
    var blocks := ContentBlocks(j);
    var retrieves := Pick(blocks, IsRetrieveBlock);
    at := Places(blocks, IsRetrieveBlock);
    PickIsInOrder(blocks, IsRetrieveBlock);
    forall k: nat | k < |blocks| ensures AsksProxy(blocks[k]) <==> k in at {
      AsksMeans(blocks[k]);
    }
    forall b | b in blocks && CallsTool(b) ensures AsksProxy(b) {
      AsksMeans(b);
    }
    var results := ToolResults(ResolveAll(resolve, round, AnthropicCalls(j)));
    TurnReads("assistant", Arr(blocks));
    TurnReads("user", Arr(results));
    forall m | 0 <= m < |at| ensures |results| == |at| && AnswersBlock(results[m], blocks[at[m]], resolve, round) {
      ResultsAnswer(retrieves, resolve, round, m);
    }
    assert |results| == |at|;
  }

  /** Between two posts of an Anthropic exchange: the reply was no error, asked the proxy and nobody else,
      and the next post adds the reply's content verbatim as the assistant's turn and a user turn that
      answers every retrieve block, in order, by its id. */
  lemma {:induction false} AnthropicRound(codec: Codec, first: Value, post: Upstream, resolve: Resolver,
    posts: seq<Value>, replies: seq<Reply>, i: nat)
    returns (j: Value, blocks: seq<Value>, at: seq<nat>, assistant: Value, user: Value)
    requires Exchange(AnthropicDialect(NOTICE), codec, first, post, resolve, posts, replies) && i + 1 < |posts|
    ensures i < |replies| && replies[i].0 < 400 && codec.fromSlice(replies[i].1) == Some(j)
    ensures Get(j, "content") == Some(Arr(blocks)) && AskAt(blocks, at)
    ensures forall b :: b in blocks && CallsTool(b) ==> AsksProxy(b)
    ensures Adds(posts[i], posts[i + 1], [assistant, user])
    ensures Says(assistant, "assistant", Arr(blocks)) && AnswersAll(user, blocks, at, resolve, i)
    ensures |ServedCalls(AnthropicDialect(NOTICE), codec, replies[i])| == |at| && |posts| <= 6
  {
    var d := AnthropicDialect(NOTICE);
    assert Continues(d, codec, posts[i], replies[i]);
    LaterPost(d, codec, first, post, resolve, posts, replies, i);
    j := codec.fromSlice(replies[i].1).value;
    blocks := ContentBlocks(j);
    at := AnthropicAnswers(resolve, i, j);
    NextAdds(d, codec, resolve, i, posts[i], replies[i], j);
    var added := AnthropicFollowup(j, ResolveAll(resolve, i, AnthropicCalls(j)));
    assistant, user := added[0], added[1];
    assert added == [assistant, user];
  }

  lemma {:induction false} ContentIs(j: Value, blocks: seq<Value>)
    requires Get(j, "content") == Some(Arr(blocks))
    ensures ContentBlocks(j) == blocks
  {
  }

  /** The blocks ask the proxy for something, and call no other tool. */
  ghost predicate OnlyAsks(blocks: seq<Value>) {
    (exists b :: b in blocks && AsksProxy(b)) && forall b :: b in blocks && CallsTool(b) ==> AsksProxy(b)
  }

  lemma {:induction false} OnlyAsksMeans(j: Value)
    ensures OnlyAsks(ContentBlocks(j)) <==> AnthropicCalls(j) != [] && !AnthropicForeign(j)
  {
    CallsMeanRetrieves(ContentBlocks(j));
    forall b ensures IsRetrieveBlock(b) <==> AsksProxy(b) {
      AsksMeans(b);
    }
    forall b ensures IsForeignBlock(b) <==> CallsTool(b) && !AsksProxy(b) {
      AsksMeans(b);
    }
  }

  /** Another round follows exactly on a reply that is no error, parses, asks the proxy and calls no other
      tool, when there is a conversation to go on with. */
  lemma {:induction false} AnthropicGoesOn(codec: Codec, body: Value, r: Reply)
    ensures Continues(AnthropicDialect(NOTICE), codec, body, r) <==>
              r.0 < 400 && codec.fromSlice(r.1).Some? && AsArr(Get(body, "messages")).Some? &&
              exists blocks :: Get(codec.fromSlice(r.1).value, "content") == Some(Arr(blocks)) && OnlyAsks(blocks)
  {
    if codec.fromSlice(r.1).Some? {
      var j := codec.fromSlice(r.1).value;
      OnlyAsksMeans(j);
      if OnlyAsks(ContentBlocks(j)) {
        assert Get(j, "content") == Some(Arr(ContentBlocks(j)));
      }
    }
  }

  /** An exchange ends with a post that got no reply, a reply that leads to no further round, or the sixth
      reply, and never before. */
  lemma {:induction false} ExchangeEnds(d: Dialect, codec: Codec, first: Value, post: Upstream, resolve: Resolver,
    posts: seq<Value>, replies: seq<Reply>)
    requires Complete(d, codec, first, post, resolve, posts, replies)
    ensures 1 <= |posts| <= 6 && posts[0] == first
    ensures forall i :: 0 <= i < |replies| ==> post(i, posts[i]) == Some(replies[i])
    ensures if |replies| < |posts| then post(|posts| - 1, posts[|posts| - 1]).None?
            else |posts| == 6 || !Continues(d, codec, posts[|posts| - 1], replies[|posts| - 1])
  {
  }

  /** The first post asks for one body instead of a stream and is the client's request otherwise. */
  lemma {:induction false} FirstAnthropicPost(request: Value)
    requires request.Obj?
    ensures Get(NonStreaming(request), "stream") == Some(Bool(false)) &&
            SameBut(request, NonStreaming(request), "stream")
  {
  }

  lemma {:induction false} FirstOpenaiPost(request: Value)
    requires request.Obj?
    ensures var body := OpenaiPrepare(request);
            Get(body, "stream") == Some(Bool(false)) && Get(body, "stream_options").None? &&
            forall k :: k != "stream" && k != "stream_options" ==> Get(body, k) == Get(request, k)
  {
  }

  // ----- OpenAI

  predicate AsksItem(c: Value) {
    Pointer(c, ["function", "name"]) == Some(Str("ptk_retrieve"))
  }

  /** The arguments of a call: the JSON its argument text holds. */
  function Arguments(codec: Codec, c: Value): Value {
    match Pointer(c, ["function", "arguments"])
    case Some(Str(s)) => codec.fromStr(s).GetOr(Null)
    case _ => Null
  }

  function AskedItem(codec: Codec, c: Value): Call {
    Call(Text(Get(c, "id")), Text(Get(Arguments(codec, c), "id")), AsStr(Get(Arguments(codec, c), "query")))
  }

  ghost predicate AnswersItem(codec: Codec, message: Value, c: Value, resolve: Resolver, round: nat) {
    Says(message, "tool", Str(resolve(round, AskedItem(codec, c)))) &&
    Get(message, "tool_call_id") == Some(Str(Text(Get(c, "id"))))
  }

  /** One message for every call, in their order. */
  ghost predicate AnswersItems(codec: Codec, messages: seq<Value>, items: seq<Value>, resolve: Resolver, round: nat) {
    |messages| == |items| && forall m :: 0 <= m < |items| ==> AnswersItem(codec, messages[m], items[m], resolve, round)
  }

  lemma {:induction false} OpenaiCallAt(codec: Codec, items: seq<Value>, m: nat)
    requires m < |items|
    ensures OpenaiCallsIn(codec, items)[m] == AskedItem(codec, items[m])
  {
    if m > 0 {
      OpenaiCallAt(codec, items[1..], m - 1);
    }
  }

  lemma {:induction false} MessageAt(resolved: seq<(Call, string)>, m: nat)
    requires m < |resolved|
    ensures |ToolMessages(resolved)| == |resolved|
    ensures ToolMessages(resolved)[m] == ToolMessage(resolved[m].0, resolved[m].1)
  {
    if m > 0 {
      MessageAt(resolved[1..], m - 1);
    } else if |resolved| > 1 {
      MessageAt(resolved[1..], 0);
    }
  }

  lemma {:induction false} MessageReads(call: Call, content: string)
    ensures Says(ToolMessage(call, content), "tool", Str(content))
    ensures Get(ToolMessage(call, content), "tool_call_id") == Some(Str(call.callId))
  {
    var fields := ToolMessage(call, content).fields;
    FieldIs(fields, 0);
    FieldIs(fields, 1);
    FieldIs(fields, 2);
  }

  lemma {:induction false} MessagesAnswer(codec: Codec, items: seq<Value>, resolve: Resolver, round: nat, m: nat)
    requires m < |items|
    ensures var messages := ToolMessages(ResolveAll(resolve, round, OpenaiCallsIn(codec, items)));
            |messages| == |items| && AnswersItem(codec, messages[m], items[m], resolve, round)
  {
    var calls := OpenaiCallsIn(codec, items);
    OpenaiCallAt(codec, items, m);
    ResolvedAt(resolve, round, calls, m);
    MessageAt(ResolveAll(resolve, round, calls), m);
    MessageReads(calls[m], resolve(round, calls[m]));
  }

  lemma {:induction false} PickAll(items: seq<Value>, p: Value -> bool)
    requires forall c :: c in items ==> p(c)
    ensures Pick(items, p) == items
  {
    if items != [] {
      PickAll(items[1..], p);
    }
  }

  lemma {:induction false} CallItemsAre(j: Value)
    requires CallItems(j) != []
    ensures Pointer(j, ["choices", "0", "message", "tool_calls"]) == Some(Arr(CallItems(j)))
    ensures Pointer(j, ["choices", "0", "message"]).Some?
  {
    ItemsComeFromAMessage(j);
  }

  lemma {:induction false} OpenaiAnswers(codec: Codec, resolve: Resolver, round: nat, j: Value)
    requires OpenaiCalls(codec, j) != [] && !OpenaiForeign(j)
    ensures CallItems(j) != [] && forall c :: c in CallItems(j) ==> AsksItem(c)
    ensures |OpenaiCalls(codec, j)| == |CallItems(j)|
    ensures var added := OpenaiFollowup(j, ResolveAll(resolve, round, OpenaiCalls(codec, j)));
            added != [] && Some(added[0]) == Pointer(j, ["choices", "0", "message"]) &&
            AnswersItems(codec, added[1..], CallItems(j), resolve, round)
  {
    var items := CallItems(j);
    PickAll(items, IsRetrieveItem);
    var resolved := ResolveAll(resolve, round, OpenaiCalls(codec, j));
    AllAnswer(codec, ToolMessages(resolved), items, resolve, round);
    FollowupIs(j, resolved);
  }

  lemma {:induction false} FollowupIs(j: Value, resolved: seq<(Call, string)>)
    requires CallItems(j) != []
    ensures var added := OpenaiFollowup(j, resolved);
            added != [] && Some(added[0]) == Pointer(j, ["choices", "0", "message"]) &&
            added[1..] == ToolMessages(resolved)
  {
    CallItemsAre(j);
  }

  lemma {:induction false} AllAnswer(codec: Codec, messages: seq<Value>, items: seq<Value>, resolve: Resolver,
    round: nat)
    requires items != [] && messages == ToolMessages(ResolveAll(resolve, round, OpenaiCallsIn(codec, items)))
    ensures AnswersItems(codec, messages, items, resolve, round)
  {
    MessagesAnswer(codec, items, resolve, round, 0);
    forall m | 0 <= m < |items| ensures AnswersItem(codec, messages[m], items[m], resolve, round) {
      MessagesAnswer(codec, items, resolve, round, m);
    }
  }

  /** Between two posts of an OpenAI exchange: every call of the reply asks the proxy, and the next post
      adds the reply's message verbatim and a tool message that answers each call, in order, by its id. */
  lemma {:induction false} OpenaiRound(codec: Codec, first: Value, post: Upstream, resolve: Resolver,
    posts: seq<Value>, replies: seq<Reply>, i: nat)
    returns (j: Value, items: seq<Value>, assistant: Value, messages: seq<Value>)
    requires Exchange(OpenaiDialect(codec, NOTICE), codec, first, post, resolve, posts, replies) && i + 1 < |posts|
    ensures i < |replies| && replies[i].0 < 400 && codec.fromSlice(replies[i].1) == Some(j)
    ensures Pointer(j, ["choices", "0", "message", "tool_calls"]) == Some(Arr(items))
    ensures items != [] && forall c :: c in items ==> AsksItem(c)
    ensures Pointer(j, ["choices", "0", "message"]) == Some(assistant)
    ensures Adds(posts[i], posts[i + 1], [assistant] + messages)
    ensures AnswersItems(codec, messages, items, resolve, i)
    ensures |ServedCalls(OpenaiDialect(codec, NOTICE), codec, replies[i])| == |items| && |posts| <= 6
  {
    var d := OpenaiDialect(codec, NOTICE);
    assert Continues(d, codec, posts[i], replies[i]);
    LaterPost(d, codec, first, post, resolve, posts, replies, i);
    j := codec.fromSlice(replies[i].1).value;
    items := CallItems(j);
    OpenaiAnswers(codec, resolve, i, j);
    CallItemsAre(j);
    NextAdds(d, codec, resolve, i, posts[i], replies[i], j);
    var added := OpenaiFollowup(j, ResolveAll(resolve, i, OpenaiCalls(codec, j)));
    assistant, messages := added[0], added[1..];
    assert added == [assistant] + messages;
  }

  /** Likewise for OpenAI: all calls of the first choice ask the proxy, and there are some. */
  lemma {:induction false} OpenaiGoesOn(codec: Codec, body: Value, r: Reply)
    ensures Continues(OpenaiDialect(codec, NOTICE), codec, body, r) <==>
              r.0 < 400 && codec.fromSlice(r.1).Some? && AsArr(Get(body, "messages")).Some? &&
              exists items ::
                Pointer(codec.fromSlice(r.1).value, ["choices", "0", "message", "tool_calls"]) == Some(Arr(items)) &&
                items != [] && forall c :: c in items ==> AsksItem(c)
  {
    if codec.fromSlice(r.1).Some? {
      var j := codec.fromSlice(r.1).value;
      if CallItems(j) != [] {
        CallItemsAre(j);
        assert CallItems(j)[0] in CallItems(j);
        if forall c :: c in CallItems(j) ==> AsksItem(c) {
          PickAll(CallItems(j), IsRetrieveItem);
        }
      }
    }
  }
}
