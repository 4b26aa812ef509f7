/**
  A complete OpenAI response printed as a stream of chunks. The calls of the message go out as they
  are, and a complete message does not number its calls as a stream does.
*/
module SseSynthOpenai {
  import opened Options
  import opened Text
  import opened Json
  import opened Usage
  import opened Utf8
  import opened SseFraming
  import opened SseTally
  import opened SseDialects
  import opened CallOrder
  import opened Keys
  import SseSynth

  const MESSAGE_PATH: seq<string> := ["choices", "0", "message"]
  const REASON_PATH: seq<string> := ["choices", "0", "finish_reason"]

  // ----- the stream

  function MessageOf(j: Value): Value {
    Pointer(j, MESSAGE_PATH).GetOr(Obj([]))
  }

  function WithContent(delta: Value, content: Option<Value>): Value {
    if content.Some? && !content.value.Null? then Put(delta, "content", content.value) else delta
  }

  function WithCalls(delta: Value, calls: Option<Value>): Value {
    if calls.Some? then Put(delta, "tool_calls", calls.value) else delta
  }

  function DeltaOf(message: Value): Value {
    WithCalls(WithContent(Obj([("role", Str("assistant"))]), Get(message, "content")), Get(message, "tool_calls"))
  }

  function ChunkOf(j: Value, delta: Value, reason: Value): Value {
    Obj([("id", Get(j, "id").GetOr(Null)), ("object", Str("chat.completion.chunk")),
      ("model", Get(j, "model").GetOr(Null)),
      ("choices", Arr([ChoiceOf(delta, reason)]))])
  }

  function ChoiceOf(delta: Value, reason: Value): Value {
    Obj([("index", Int(0)), ("delta", delta), ("finish_reason", reason)])
  }

  function FirstChunk(j: Value): Value {
    ChunkOf(j, DeltaOf(MessageOf(j)), Null)
  }

  function FinalChunk(j: Value): Value {
    ChunkOf(j, Obj([]), Pointer(j, REASON_PATH).GetOr(Null))
  }

  /** Two chunks and the end mark, with an empty line behind each. */
  function StreamLines(show: Value -> string, j: Value): seq<string> {
    ["data: " + show(FirstChunk(j)), "", "data: " + show(FinalChunk(j)), "", "data: [DONE]", ""]
  }

  /** Every line ended by a newline. */
  function Ended(lines: seq<string>): string {
    if lines == [] then "" else (lines[0] + "\n") + Ended(lines[1..])
  }

  function OpenaiStream(codec: Codec, bytes: seq<byte>): string {
    match codec.fromSlice(bytes)
    case Some(j) => Ended(StreamLines(codec.show, j))
    case None => codec.lossy(bytes)
  }

  // ----- reading it

  function ReadLines(r: Reader, t: Tally, lines: seq<string>): Tally
    decreases |lines|
  {
    if lines == [] then t else ReadLines(r, r.FeedLine(t, Trim(lines[0])), lines[1..])
  }

  lemma {:induction false} LinesAreRead(r: Reader, t: Tally, lines: seq<string>)
    requires r.codec.Sound() && forall i :: 0 <= i < |lines| ==> '\n' !in lines[i]
    ensures FeedBytes(r.Read(), Progress(t, []), Encode(Ended(lines))) == Progress(ReadLines(r, t, lines), [])
    decreases |lines|
  {
    if lines != [] {
      var t1 := r.FeedLine(t, Trim(lines[0]));
      SseSynth.LineIsRead(r, t, lines[0]);
      LinesAreRead(r, t1, lines[1..]);
      EncodeConcat(lines[0] + "\n", Ended(lines[1..]));
      FeedConcat(r.Read(), Progress(t, []), Encode(lines[0] + "\n"), Encode(Ended(lines[1..])));
    }
  }

  lemma EmptyLineIsSkipped(r: Reader, t: Tally)
    ensures r.FeedLine(t, Trim("")) == t
  {
  }

  lemma EndMarkIsSkipped(r: Reader, t: Tally)
    ensures r.FeedLine(t, Trim("data: [DONE]")) == t
  {
    var line := "data: [DONE]";
    TrimOfTight(line);
    assert line[5..] == " " + "[DONE]";
    TrimDropsSpace("[DONE]");
  }

  /** Lines that are skipped leave the tally to the others. */
  lemma StreamIsRead(r: Reader, t: Tally, a: string, b: string, end: string)
    requires r.codec.Sound() && '\n' !in a && '\n' !in b && '\n' !in end
    requires forall u :: r.FeedLine(u, Trim(end)) == u && r.FeedLine(u, Trim("")) == u
    ensures FeedBytes(r.Read(), Progress(t, []), Encode(Ended([a, "", b, "", end, ""])))
         == Progress(r.FeedLine(r.FeedLine(t, Trim(a)), Trim(b)), [])
  {
    var lines := [a, "", b, "", end, ""];
    LinesAreRead(r, t, lines);
    var t1 := r.FeedLine(t, Trim(a));
    var t2 := r.FeedLine(t1, Trim(b));
    assert lines[1..] == ["", b, "", end, ""] && lines[1..][1..] == [b, "", end, ""];
    assert [b, "", end, ""][1..] == ["", end, ""] && ["", end, ""][1..] == [end, ""] && [end, ""][1..] == [""];
    assert ReadLines(r, t2, ["", end, ""]) == ReadLines(r, t2, [end, ""]) == ReadLines(r, t2, [""]) == t2;
    assert ReadLines(r, t1, [b, "", end, ""]) == t2;
    assert ReadLines(r, t1, ["", b, "", end, ""]) == t2;
  }

  // ----- what the chunks carry

  lemma ChunkReads(j: Value, delta: Value, reason: Value)
    ensures var c := ChunkOf(j, delta, reason);
            Get(c, "message").None? && Get(c, "usage").None? && Get(c, "usageMetadata").None? &&
            AsArr(Get(c, "choices")) == Some([ChoiceOf(delta, reason)])
  {
    FieldIs(ChunkOf(j, delta, reason).fields, 3);
  }

  lemma ChoiceReads(delta: Value, reason: Value)
    ensures DeltaCalls(ChoiceOf(delta, reason)) == AsArr(Get(delta, "tool_calls")).GetOr([])
    ensures DeltaText(ChoiceOf(delta, reason), "content") == AsStr(Get(delta, "content")).GetOr("")
  {
    var c := ChoiceOf(delta, reason);
    FieldIs(c.fields, 1);
    assert Get(c, "delta") == Some(delta);
    PointerTwo(c, "delta", delta, "tool_calls");
  }

  lemma DeltaReads(message: Value)
    ensures AsArr(Get(DeltaOf(message), "tool_calls")) == AsArr(Get(message, "tool_calls"))
    ensures AsStr(Get(DeltaOf(message), "content")) == AsStr(Get(message, "content"))
  {
  }

  lemma OneChoice(choice: Value)
    ensures TextOfChoices([choice]) == DeltaText(choice, "content")
    ensures ChoiceFragments([choice]) == DeltaCalls(choice)
  {
    assert [choice][..0] == [];
  }

  /** A chunk adds its text and its calls, and nothing to the usage. */
  lemma ChunkEffect(show: Value -> string, t: Tally, j: Value, delta: Value, reason: Value)
    ensures var c := ChunkOf(j, delta, reason);
            Apply(Openai, show, t, c) == Tally(t.usage, t.text + AsStr(Get(delta, "content")).GetOr(""),
              CallFragments(t.tools, AsArr(Get(delta, "tool_calls")).GetOr([])))
  {
    var c := ChunkOf(j, delta, reason);
    ChunkReads(j, delta, reason);
    ChoiceReads(delta, reason);
    OneChoice(ChoiceOf(delta, reason));
    ChoicesAreFragments(t.tools, [ChoiceOf(delta, reason)]);
    assert ToolsAfter(Openai, show, t.tools, c) == ChoiceCalls(t.tools, [ChoiceOf(delta, reason)]);
    assert TextOf(Openai, c) == TextOfChoices([ChoiceOf(delta, reason)]);
  }

  /** What a synthesised response is read back as. */
  function ReadBack(j: Value): Tally {
    Tally(ZERO, AsStr(Get(MessageOf(j), "content")).GetOr(""), CallFragments(map[], CallItems(j)))
  }

  lemma CallsOfMessage(j: Value)
    ensures AsArr(Get(MessageOf(j), "tool_calls")).GetOr([]) == CallItems(j)
  {
    assert CALLS_PATH == MESSAGE_PATH + ["tool_calls"];
    PointerThrough(j, MESSAGE_PATH, ["tool_calls"]);
    assert ["tool_calls"][1..] == [];
    if Pointer(j, MESSAGE_PATH).Some? {
      var m := Pointer(j, MESSAGE_PATH).value;
      assert Pointer(m, ["tool_calls"]) == Child(m, "tool_calls");
    }
  }

  lemma ApplyChunks(show: Value -> string, j: Value)
    ensures Apply(Openai, show, Apply(Openai, show, EMPTY, FirstChunk(j)), FinalChunk(j)) == ReadBack(j)
  {
    FirstEffect(show, j);
    FinalEffect(show, ReadBack(j), j);
  }

  lemma FirstEffect(show: Value -> string, j: Value)
    ensures Apply(Openai, show, EMPTY, FirstChunk(j)) == ReadBack(j)
  {
    ChunkEffect(show, EMPTY, j, DeltaOf(MessageOf(j)), Null);
    DeltaReads(MessageOf(j));
    CallsOfMessage(j);
  }

  lemma FinalEffect(show: Value -> string, t: Tally, j: Value)
    ensures Apply(Openai, show, t, FinalChunk(j)) == t
  {
    ChunkEffect(show, t, j, Obj([]), Pointer(j, REASON_PATH).GetOr(Null));
    assert CallFragments(t.tools, []) == t.tools && t.text + "" == t.text;
  }

  // ----- printable chunks

  lemma MessageWellFormed(j: Value)
    requires WellFormed(j)
    ensures WellFormed(MessageOf(j))
  {
    if Pointer(j, MESSAGE_PATH).Some? {
      PointerWellFormed(j, MESSAGE_PATH);
    }
  }

  lemma GetWellFormed(v: Value, key: string)
    requires WellFormed(v)
    ensures WellFormed(Get(v, key).GetOr(Null))
  {
  }

  lemma DeltaWellFormed(message: Value)
    requires WellFormed(message)
    ensures WellFormed(DeltaOf(message))
  {
    var d1 := Obj([("role", Str("assistant"))]);
    GetWellFormed(message, "content");
    GetWellFormed(message, "tool_calls");
    PutWellFormed(d1, "content", Get(message, "content").GetOr(Null));
    PutWellFormed(WithContent(d1, Get(message, "content")), "tool_calls", Get(message, "tool_calls").GetOr(Null));
  }

  lemma ChoiceWellFormed(delta: Value, reason: Value)
    requires WellFormed(delta) && WellFormed(reason)
    ensures WellFormed(ChoiceOf(delta, reason))
  {
  }

  lemma ChunkWellFormed(j: Value, delta: Value, reason: Value)
    requires WellFormed(j) && WellFormed(delta) && WellFormed(reason)
    ensures WellFormed(ChunkOf(j, delta, reason))
  {
    ChoiceWellFormed(delta, reason);
    GetWellFormed(j, "id");
    GetWellFormed(j, "model");
    assert WellFormed(Arr([ChoiceOf(delta, reason)]));
  }

  lemma ChunksWellFormed(j: Value)
    requires WellFormed(j)
    ensures WellFormed(FirstChunk(j)) && WellFormed(FinalChunk(j))
  {
    MessageWellFormed(j);
    DeltaWellFormed(MessageOf(j));
    ChunkWellFormed(j, DeltaOf(MessageOf(j)), Null);
    if Pointer(j, REASON_PATH).Some? {
      PointerWellFormed(j, REASON_PATH);
    }
    ChunkWellFormed(j, Obj([]), Pointer(j, REASON_PATH).GetOr(Null));
  }

  // ----- the theorems

  /** The tally of a synthesised stream, however it is cut into chunks. */
  lemma OpenaiStreamIsReadBack(r: Reader, j: Value, chunks: seq<seq<byte>>)
    requires r.codec.Sound() && r.provider == Openai && WellFormed(j)
    requires Join(chunks, []) == Encode(Ended(StreamLines(r.codec.show, j)))
    ensures FeedChunks(r.Read(), Progress(EMPTY, []), chunks) == Progress(ReadBack(j), [])
  {
    ChunkingIsIrrelevant(r.Read(), Progress(EMPTY, []), chunks);
    ChunksWellFormed(j);
    ChunksAreRead(r, EMPTY, FirstChunk(j), FinalChunk(j));
    ApplyChunks(r.codec.show, j);
  }

  lemma ChunksAreRead(r: Reader, t: Tally, a: Value, b: Value)
    requires r.codec.Sound() && r.provider == Openai && WellFormed(a) && WellFormed(b) && a.Obj? && b.Obj?
    ensures FeedBytes(r.Read(), Progress(t, []),
              Encode(Ended(["data: " + r.codec.show(a), "", "data: " + r.codec.show(b), "", "data: [DONE]", ""])))
         == Progress(Apply(Openai, r.codec.show, Apply(Openai, r.codec.show, t, a), b), [])
  {
    MarksAreSkipped(r);
    DataLine(r, t, a);
    DataLine(r, Apply(Openai, r.codec.show, t, a), b);
    StreamIsRead(r, t, "data: " + r.codec.show(a), "data: " + r.codec.show(b), "data: [DONE]");
  }

  lemma MarksAreSkipped(r: Reader)
    ensures forall u :: r.FeedLine(u, Trim("data: [DONE]")) == u && r.FeedLine(u, Trim("")) == u
  {
    forall u ensures r.FeedLine(u, Trim("data: [DONE]")) == u && r.FeedLine(u, Trim("")) == u {
      EndMarkIsSkipped(r, u);
      EmptyLineIsSkipped(r, u);
    }
  }

  lemma DataLine(r: Reader, t: Tally, v: Value)
    requires r.codec.Sound() && r.provider == Openai && WellFormed(v) && v.Obj?
    ensures r.FeedLine(t, Trim("data: " + r.codec.show(v))) == Apply(Openai, r.codec.show, t, v)
    ensures '\n' !in "data: " + r.codec.show(v)
  {
    SseSynth.DataLineIsApplied(r, t, v);
  }

  // ----- which calls are read back

  /** The batch extraction lists only calls with a name. It takes an absent argument text for `null`, as
      the tally takes an empty one, if empty text does not parse. */
  predicate Listed(codec: Codec, c: Value) {
    ItemName(c).Some? && (HasArguments(c) || codec.fromStr("").None?)
  }

  predicate HasArguments(c: Value) {
    AsStr(Pointer(c, ["function", "arguments"])).Some?
  }

  ghost predicate AllListed(codec: Codec, items: seq<Value>) {
    forall i :: 0 <= i < |items| ==> Listed(codec, items[i])
  }

  lemma ListedCall(codec: Codec, c: Value)
    requires Listed(codec, c)
    ensures ItemCallOf(codec, c) == [CallFrom(codec, (FragmentOf(c).name, FragmentOf(c).args))]
  {
  }

  lemma OneListed(codec: Codec, c: Value, f: Value -> seq<ToolCall>)
    requires f(c) == ItemCallOf(codec, c)
    ensures |f(c)| == if ItemName(c).Some? then 1 else 0
  {
  }

  /** Calls with a name are listed one each. */
  lemma {:induction false} ListedCount(codec: Codec, items: seq<Value>, f: Value -> seq<ToolCall>)
    requires forall c :: f(c) == ItemCallOf(codec, c)
    ensures |CallsIn(f, items)| <= |items|
    ensures |CallsIn(f, items)| == |items| <==> forall i :: 0 <= i < |items| ==> ItemName(items[i]).Some?
  {
    if items != [] {
      var n := |items| - 1;
      ListedCount(codec, items[..n], f);
      OneListed(codec, items[n], f);
      assert forall i :: 0 <= i < n ==> items[..n][i] == items[i];
    }
  }

  lemma ListedCalls(codec: Codec, items: seq<Value>, f: Value -> seq<ToolCall>)
    requires AllListed(codec, items) && forall c :: f(c) == ItemCallOf(codec, c)
    ensures var fs := FragmentsOf(items);
            |CallsIn(f, items)| == |items| &&
            forall i :: 0 <= i < |fs| ==> CallsIn(f, items)[i] == CallFrom(codec, (fs[i].name, fs[i].args))
  {
    forall i | 0 <= i < |items|
      ensures f(items[i]) == [CallFrom(codec, (FragmentsOf(items)[i].name, FragmentsOf(items)[i].args))]
    {
      ListedCall(codec, items[i]);
      FragmentsAt(items, i);
    }
    SingleCalls(f, items);
  }

  /** The calls a client reads from the stream. */
  ghost function CallsRead(codec: Codec, j: Value): seq<ToolCall> {
    ToolCalls(codec, ReadBack(j).tools)
  }

  lemma CallsReadAre(codec: Codec, j: Value)
    ensures CallsRead(codec, j) == ToolCalls(codec, AddAll(FragmentsOf(CallItems(j))))
  {
    FragmentsAreAdded(CallItems(j));
  }

  /** Gathering the pieces of each index and taking the indices in ascending order gives the list. */
  ghost predicate GathersTo(codec: Codec, fs: seq<Fragment>, listed: seq<ToolCall>) {
    |Indices(fs)| == |listed| &&
    forall p :: 0 <= p < |listed| ==> Gathered(codec, fs, SortedKeys(Indices(fs))[p]) == listed[p]
  }

  /** For every response: the calls read are the recorded ones exactly if the gathered calls are. No two
      indices shared and a call without a name: one call too many is read. */
  lemma ReadBackGathers(codec: Codec, j: Value)
    ensures var fs, listed := FragmentsOf(CallItems(j)), CallsFromResponse(Openai, codec, j);
            (CallsRead(codec, j) == listed <==> GathersTo(codec, fs, listed)) &&
            |CallsRead(codec, j)| == |Indices(fs)| &&
            (Distinct(fs) && (exists i :: 0 <= i < |fs| && ItemName(CallItems(j)[i]).None?) ==>
              |listed| < |CallsRead(codec, j)|)
  {
    var fs := FragmentsOf(CallItems(j));
    CallsReadAre(codec, j);
    GatheredInOrder(codec, fs);
    GatheredAre(codec, fs, CallsRead(codec, j), CallsFromResponse(Openai, codec, j));
    IndexCount(fs);
    ListedCount(codec, CallItems(j), c => ItemCallOf(codec, c));
  }

  lemma GatheredAre(codec: Codec, fs: seq<Fragment>, calls: seq<ToolCall>, listed: seq<ToolCall>)
    requires |calls| == |Indices(fs)|
    requires forall p :: 0 <= p < |calls| ==> calls[p] == Gathered(codec, fs, SortedKeys(Indices(fs))[p])
    ensures calls == listed <==> GathersTo(codec, fs, listed)
  {
  }

  /** For every response whose calls have names: the calls read are the recorded ones exactly if no two
      calls share an index and each stands where its index belongs in ascending order. Calls that share an
      index run together, so that fewer are read than were recorded. */
  lemma ReadBackIsExact(codec: Codec, j: Value)
    requires AllListed(codec, CallItems(j))
    ensures var fs, listed := FragmentsOf(CallItems(j)), CallsFromResponse(Openai, codec, j);
            |listed| == |fs| &&
            (CallsRead(codec, j) == listed <==> Distinct(fs) && InPlace(fs, listed)) &&
            (|CallsRead(codec, j)| < |listed| <==> !Distinct(fs))
  {
    CallsReadAre(codec, j);
    ListedCalls(codec, CallItems(j), c => ItemCallOf(codec, c));
    OrderDecides(codec, FragmentsOf(CallItems(j)), CallsFromResponse(Openai, codec, j));
  }

  /** In particular calls with rising indices are read back right. */
  lemma RisingCallsAgree(codec: Codec, j: Value)
    requires AllListed(codec, CallItems(j)) && Rising(FragmentsOf(CallItems(j)))
    ensures CallsRead(codec, j) == CallsFromResponse(Openai, codec, j)
  {
    var fs := FragmentsOf(CallItems(j));
    ReadBackIsExact(codec, j);
    forall i | 0 <= i < |fs| ensures PlaceOf(fs, i) == i {
      RisingInPlace(fs, i);
    }
  }

  predicate HasTexts(c: Value) {
    ItemName(c).Some? && HasArguments(c)
  }

  /** Calls numbered as a stream numbers them, each with a name and an argument text. */
  predicate Numbered(items: seq<Value>) {
    forall i :: 0 <= i < |items| ==> FragmentOf(items[i]).index == i && HasTexts(items[i])
  }

  /** Numbered calls are read back as the batch extraction reads them. */
  lemma NumberedCallsAgree(codec: Codec, j: Value)
    requires Numbered(CallItems(j))
    ensures CallsRead(codec, j) == CallsFromResponse(Openai, codec, j)
  {
    var items := CallItems(j);
    forall i | 0 <= i < |items| ensures FragmentsOf(items)[i].index == i && Listed(codec, items[i]) {
      FragmentsAt(items, i);
      assert HasTexts(items[i]);
    }
    RisingCallsAgree(codec, j);
  }

  /** Calls without a number all fall to number zero. */
  predicate Unnumbered(items: seq<Value>) {
    forall i :: 0 <= i < |items| ==> FragmentOf(items[i]).index == 0 && HasTexts(items[i])
  }

  /** A complete response does not number its calls, so the stream made from it is read back right
      exactly when there is at most one; several run together into a single call. */
  lemma UnnumberedCallsMerge(codec: Codec, j: Value)
    requires Unnumbered(CallItems(j))
    ensures CallsRead(codec, j) == CallsFromResponse(Openai, codec, j) <==> |CallItems(j)| <= 1
    ensures CallItems(j) != [] ==> |CallsRead(codec, j)| == 1
  {
    var items := CallItems(j);
    var fs := FragmentsOf(items);
    forall i | 0 <= i < |items| ensures fs[i].index == 0 && Listed(codec, items[i]) {
      FragmentsAt(items, i);
      assert HasTexts(items[i]);
    }
    ReadBackIsExact(codec, j);
    ReadBackGathers(codec, j);
    AllZero(fs);
    if |items| <= 1 {
      RisingCallsAgree(codec, j);
    }
  }

  lemma AllZero(fs: seq<Fragment>)
    requires forall i :: 0 <= i < |fs| ==> fs[i].index == 0
    ensures |fs| > 1 ==> !Distinct(fs)
    ensures fs != [] ==> |Indices(fs)| == 1
  {
    if |fs| > 1 {
      assert fs[0].index == fs[1].index;
    }
    if fs != [] {
      assert fs[0].index in Indices(fs);
      assert Indices(fs) == {0};
    }
  }

  // ----- two calls

  function Item(name: string, args: string): Value {
    Obj([("function", Obj([("name", Str(name)), ("arguments", Str(args))]))])
  }

  function Holding(items: seq<Value>): Value {
    Obj([("choices", Arr([Obj([("message", Obj([("tool_calls", Arr(items))]))])]))])
  }

  lemma ItemReads(name: string, args: string)
    ensures var c := Item(name, args);
            ItemName(c) == Some(name) && AsStr(Pointer(c, ["function", "arguments"])) == Some(args) &&
            FragmentOf(c).index == 0
  {
    var c := Item(name, args);
    var f := c.fields[0].1;
    FieldIs(c.fields, 0);
    FieldIs(f.fields, 0);
    FieldIs(f.fields, 1);
    PointerTwo(c, "function", f, "name");
    PointerTwo(c, "function", f, "arguments");
    assert Get(c, "index").None?;
  }

  lemma HoldingReads(items: seq<Value>)
    ensures CallItems(Holding(items)) == items
  {
    var j := Holding(items);
    var choice := j.fields[0].1.items[0];
    var message := choice.fields[0].1;
    FieldIs(j.fields, 0);
    FieldIs(choice.fields, 0);
    FieldIs(message.fields, 0);
    PointerTwo(choice, "message", message, "tool_calls");
    assert CALLS_PATH == ["choices", "0"] + ["message", "tool_calls"];
    assert ["choices", "0"][1..] == ["0"] && ["0"][1..] == [];
    var choices := Arr([choice]);
    assert Child(j, "choices") == Some(choices) && Child(choices, "0") == Some(choice);
    assert Pointer(choice, []) == Some(choice);
    assert Pointer(choices, ["0"]) == Some(choice);
    assert Pointer(j, ["choices", "0"]) == Some(choice);
    PointerThrough(j, ["choices", "0"], ["message", "tool_calls"]);
  }

  function TwoCalls(): Value {
    Holding([Item("a", "{}"), Item("b", "{}")])
  }

  /** For example: a response with two calls is recorded with two, and its stream is read back with one. */
  lemma TwoCallsMerge(codec: Codec)
    ensures |CallsFromResponse(Openai, codec, TwoCalls())| == 2 && |CallsRead(codec, TwoCalls())| == 1
  {
    ItemReads("a", "{}");
    ItemReads("b", "{}");
    PairMerges(codec, Item("a", "{}"), Item("b", "{}"));
  }

  lemma PairMerges(codec: Codec, a: Value, b: Value)
    requires HasTexts(a) && HasTexts(b) && FragmentOf(a).index == 0 && FragmentOf(b).index == 0
    ensures |CallsFromResponse(Openai, codec, Holding([a, b]))| == 2
    ensures |CallsRead(codec, Holding([a, b]))| == 1
  {
    HoldingReads([a, b]);
    UnnumberedCallsMerge(codec, Holding([a, b]));
    ListedCount(codec, [a, b], c => ItemCallOf(codec, c));
  }

  lemma OneFieldWellFormed(key: string, v: Value)
    requires WellFormed(v)
    ensures WellFormed(Obj([(key, v)]))
  {
  }

  lemma ItemWellFormed(name: string, args: string)
    ensures WellFormed(Item(name, args))
  {
    var f := Obj([("name", Str(name)), ("arguments", Str(args))]);
    assert WellFormed(f);
    OneFieldWellFormed("function", f);
  }

  lemma HoldingWellFormed(items: seq<Value>)
    requires forall i :: 0 <= i < |items| ==> WellFormed(items[i])
    ensures WellFormed(Holding(items))
  {
    OneFieldWellFormed("tool_calls", Arr(items));
    var message := Obj([("tool_calls", Arr(items))]);
    OneFieldWellFormed("message", message);
    var choices := Arr([Obj([("message", message)])]);
    assert WellFormed(choices);
    OneFieldWellFormed("choices", choices);
  }

  /** The bytes of that response go out as a stream from which a client, in whatever pieces it reads it,
      tallies one call. */
  lemma TwoCallsStreamedAsOne(codec: Codec, chunks: seq<seq<byte>>) returns (t: Tally)
    requires codec.Sound() && Join(chunks, []) == Encode(OpenaiStream(codec, Encode(codec.show(TwoCalls()))))
    ensures FeedChunks(Reader(Openai, codec).Read(), Progress(EMPTY, []), chunks) == Progress(t, [])
    ensures |CallsFromResponse(Openai, codec, TwoCalls())| == 2 && |ToolCalls(codec, t.tools)| == 1
  {
    ItemWellFormed("a", "{}");
    ItemWellFormed("b", "{}");
    HoldingWellFormed([Item("a", "{}"), Item("b", "{}")]);
    TwoCallsMerge(codec);
    t := StreamedAs(codec, TwoCalls(), chunks);
  }

  lemma StreamedAs(codec: Codec, j: Value, chunks: seq<seq<byte>>) returns (t: Tally)
    requires codec.Sound() && WellFormed(j)
    requires Join(chunks, []) == Encode(OpenaiStream(codec, Encode(codec.show(j))))
    ensures FeedChunks(Reader(Openai, codec).Read(), Progress(EMPTY, []), chunks) == Progress(t, []) && t == ReadBack(j)
  {
    t := ReadBack(j);
    OpenaiStreamIsReadBack(Reader(Openai, codec), j, chunks);
  }
}
