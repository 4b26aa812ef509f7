/** What a streaming client reads from the final answer of the retrieve loop. */
module StreamedAnswer {
  import opened Options
  import opened Text
  import opened Json
  import opened Usage
  import opened Utf8
  import opened Dialects
  import opened RetrieveLoop
  import opened SseFraming
  import opened SseTally
  import opened SseDialects
  import opened CallOrder
  import ClientReader
  import EventLines
  import OpenaiReader
  import SseRoundTrip
  import SseSynthOpenai

  /** The answer is streamed from a body that parses. */
  ghost predicate Streams(d: Dialect, codec: Codec, client: Client, o: Outcome, msg: Value,
    posts: seq<Value>, replies: seq<Reply>)
  {
    client.stream && Reports(d, codec, client, Some(o), posts, replies) && o.status < 400 &&
    codec.fromSlice(o.bytes) == Some(msg)
  }

  /** A client that reads the Anthropic stream, in whatever pieces, has the text and the calls of the
      message: the recorded ones exactly when every tool block is complete, and its usage exactly when
      no count is negative. */
  lemma AnthropicAnswerIsReadBack(codec: Codec, o: Outcome, msg: Value, posts: seq<Value>, replies: seq<Reply>,
    chunks: seq<seq<byte>>) returns (t: Tally)
    requires codec.Sound() && |ContentBlocks(msg)| <= I64_MAX
    requires Streams(AnthropicDialect(NOTICE), codec, AnthropicClient(codec, true), o, msg, posts, replies)
    requires Join(chunks, []) == o.response
    ensures FeedChunks(Reader(Anthropic, codec).Read(), Progress(EMPTY, []), chunks) == Progress(t, [])
    ensures t.usage == UsageFromResponse(Anthropic, msg) <==> UsageFromResponse(Anthropic, msg).NonNegative()
    ensures ToolCalls(codec, t.tools) == o.toolCalls <==> SseRoundTrip.AllComplete(ContentBlocks(msg))
    ensures t.text == SseRoundTrip.BlocksText(ContentBlocks(msg))
  {
    assert codec.ParsesWell(o.bytes);
    t := SseRoundTrip.ReadBack(codec.show, msg);
    SseRoundTrip.SynthesizedStreamIsReadBack(Reader(Anthropic, codec), msg, chunks);
    SseRoundTrip.TallyAgreesWithBatch(codec, msg);
  }

  /** Likewise for OpenAI. Of a message whose calls all have names the client reads the recorded calls
      exactly when no two share an index and each stands where its index belongs in ascending order, fewer
      exactly when two share one; with or without names, exactly when the pieces gathered by index are the
      recorded calls. */
  lemma OpenaiAnswerIsReadBack(codec: Codec, o: Outcome, msg: Value, posts: seq<Value>, replies: seq<Reply>,
    chunks: seq<seq<byte>>) returns (t: Tally)
    requires codec.Sound()
    requires Streams(OpenaiDialect(codec, NOTICE), codec, OpenaiClient(codec, true), o, msg, posts, replies)
    requires Join(chunks, []) == o.response
    ensures FeedChunks(Reader(Openai, codec).Read(), Progress(EMPTY, []), chunks) == Progress(t, [])
    ensures t.text == AsStr(Get(SseSynthOpenai.MessageOf(msg), "content")).GetOr("") && t.usage == ZERO
    ensures var calls, fs := ToolCalls(codec, t.tools), FragmentsOf(CallItems(msg));
            (calls == o.toolCalls <==> SseSynthOpenai.GathersTo(codec, fs, o.toolCalls)) &&
            (AllNamed(CallItems(msg)) ==>
              |o.toolCalls| == |fs| && (calls == o.toolCalls <==> Distinct(fs) && InPlace(fs, o.toolCalls)) &&
              (|calls| < |o.toolCalls| <==> !Distinct(fs))) &&
            (AllNamed(CallItems(msg)) && Rising(fs) ==> calls == o.toolCalls)
  {
    assert codec.ParsesWell(o.bytes);
    t := SseSynthOpenai.ReadBack(msg);
    SseSynthOpenai.OpenaiStreamIsReadBack(Reader(Openai, codec), msg, chunks);
    SseSynthOpenai.ReadBackGathers(codec, msg);
    if AllNamed(CallItems(msg)) {
      SseSynthOpenai.ReadBackIsExact(codec, msg);
      if Rising(FragmentsOf(CallItems(msg))) {
        SseSynthOpenai.RisingCallsAgree(codec, msg);
      }
    }
  }

  ghost predicate AllNamed(items: seq<Value>) {
    forall i :: 0 <= i < |items| ==> ItemName(items[i]).Some?
  }

  /** The client of the Anthropic stream ends with the message itself: its blocks in order, stop reason,
      usage and all other fields. */
  lemma AnthropicAnswerIsReceived(codec: Codec, o: Outcome, msg: Value, posts: seq<Value>, replies: seq<Reply>,
    chunks: seq<seq<byte>>) returns (c: ClientReader.Client)
    requires codec.Sound() && msg.Obj?
    requires Streams(AnthropicDialect(NOTICE), codec, AnthropicClient(codec, true), o, msg, posts, replies)
    requires Join(chunks, []) == o.response
    ensures FeedChunks(ClientReader.Lines(codec), Progress(ClientReader.NOTHING, []), chunks) == Progress(c, [])
    ensures c.ended
    ensures ClientReader.KeepsAll(c.blocks, AsArr(Get(msg, "content")).GetOr([]))
    ensures ClientReader.IsMessage(ClientReader.Received(c), c.blocks, msg)
  {
    assert codec.ParsesWell(o.bytes);
    c := ClientReader.ClientHasTheMessage(codec, msg, chunks);
  }

  /** The client of the OpenAI stream ends with the first choice of the message. */
  lemma OpenaiAnswerIsReceived(codec: Codec, o: Outcome, msg: Value, posts: seq<Value>, replies: seq<Reply>,
    chunks: seq<seq<byte>>)
    requires codec.Sound()
    requires Streams(OpenaiDialect(codec, NOTICE), codec, OpenaiClient(codec, true), o, msg, posts, replies)
    requires Join(chunks, []) == o.response
    ensures FeedChunks(EventLines.Lines(codec, OpenaiReader.Step()), Progress(OpenaiReader.NOTHING, []), chunks) ==
              Progress(OpenaiReader.Complete(msg), [])
  {
    assert codec.ParsesWell(o.bytes);
    OpenaiReader.ClientHasTheChoice(codec, msg, chunks);
  }

  /** How an outcome goes out: as a stream only to a client that asked for one and got no error, and
      otherwise as the bytes of its body; with the calls its body has, and an error text only for errors. */
  lemma OutcomeGoesOut(d: Dialect, codec: Codec, client: Client, o: Outcome, posts: seq<Value>, replies: seq<Reply>)
    requires Reports(d, codec, client, Some(o), posts, replies)
    ensures replies != [] && o.status == replies[|replies| - 1].0
    ensures o.response == if client.stream && o.status < 400 then Encode(client.synth(o.bytes)) else o.bytes
    ensures codec.fromSlice(o.bytes).None? ==> o.toolCalls == []
    ensures codec.fromSlice(o.bytes).Some? ==>
              o.toolCalls == CallsFromResponse(d.provider, codec, codec.fromSlice(o.bytes).value)
    ensures o.status < 400 ==> o.errorBody.None?
  {
  }

  // ----- taking retrieve calls out keeps the order

  ghost predicate RisingItems(items: seq<Value>) {
    AllNamed(items) && forall i, j :: 0 <= i < j < |items| ==> CallIndex(items[i]) < CallIndex(items[j])
  }

  function CallIndex(c: Value): int {
    FragmentOf(c).index
  }

  lemma {:induction false} PickKeepsRising(items: seq<Value>, p: Value -> bool)
    requires RisingItems(items)
    ensures RisingItems(Pick(items, p))
  {
    if items != [] {
      RisingBehind(items);
      PickKeepsRising(items[1..], p);
      if p(items[0]) {
        RisingInFront(items[0], Pick(items[1..], p));
      }
    }
  }

  lemma RisingBehind(items: seq<Value>)
    requires RisingItems(items) && items != []
    ensures RisingItems(items[1..]) && ItemName(items[0]).Some?
    ensures forall v :: v in items[1..] ==> CallIndex(items[0]) < CallIndex(v)
  {
  }

  lemma RisingInFront(x: Value, rest: seq<Value>)
    requires RisingItems(rest) && ItemName(x).Some? && forall v :: v in rest ==> CallIndex(x) < CallIndex(v)
    ensures RisingItems([x] + rest)
  {
    var items := [x] + rest;
    forall i | 0 < i < |items| ensures items[i] == rest[i - 1] && CallIndex(x) < CallIndex(items[i]) {
      assert rest[i - 1] in rest;
    }
  }

  lemma RisingItemsRise(items: seq<Value>)
    requires RisingItems(items)
    ensures Rising(FragmentsOf(items))
  {
    forall i | 0 <= i < |items| ensures FragmentsOf(items)[i] == FragmentOf(items[i]) {
      FragmentsAt(items, i);
    }
  }

  /** A message whose calls are named and carry rising numbers, with its retrieve calls taken out, is
      still read back right, though the numbers that are left need not start at zero or be dense. */
  lemma StrippedIsReadBack(codec: Codec, j: Value)
    requires codec.Sound() && RisingItems(CallItems(j)) && Pointer(j, CALLS_PATH).Some?
    ensures SseSynthOpenai.CallsRead(codec, OpenaiStripped(j)) ==
              CallsFromResponse(Openai, codec, OpenaiStripped(j))
  {
    var kept := Pick(CallItems(j), c => !IsRetrieveItem(c));
    PutAtReads(j, CALLS_PATH, Arr(kept), []);
    assert CALLS_PATH + [] == CALLS_PATH;
    assert CallItems(OpenaiStripped(j)) == kept;
    PickKeepsRising(CallItems(j), c => !IsRetrieveItem(c));
    RisingItemsRise(kept);
    SseSynthOpenai.RisingCallsAgree(codec, OpenaiStripped(j));
  }

  // ----- no retrieve call reaches the client

  lemma {:induction false} NamesOf(blocks: seq<Value>, name: string)
    requires forall i :: 0 <= i < |blocks| ==> !(IsToolUse(blocks[i]) && AsStr(Get(blocks[i], "name")) == Some(name))
    ensures forall c :: c in CallsIn(CallOf, blocks) ==> c.name != name
  {
    if blocks != [] {
      NamesOf(blocks[..|blocks| - 1], name);
    }
  }

  /** No recorded call of a successful Anthropic answer is one that only the proxy can serve. */
  lemma NoRetrieveCallIsRecorded(codec: Codec, client: Client, o: Outcome, posts: seq<Value>, replies: seq<Reply>)
    requires codec.Sound() && o.status < 400
    requires Reports(AnthropicDialect(NOTICE), codec, client, Some(o), posts, replies)
    ensures forall c :: c in o.toolCalls ==> c.name != RETRIEVE_TOOL
  {
    AnthropicIsLawful(NOTICE);
    NothingLeftToRetrieve(AnthropicDialect(NOTICE), codec, client, o, posts, replies);
    match codec.fromSlice(o.bytes)
    case None =>
    case Some(msg) =>
      assert AnthropicCalls(msg) == [];
      NamesOf(ContentBlocks(msg), RETRIEVE_TOOL);
  }
}
