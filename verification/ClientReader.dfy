/**
  A client of the synthesised Anthropic stream: it opens a block, adds deltas to it, closes it, and
  holds a whole message at the end. That must be the message the stream was made of.
*/
module ClientReader {
  import opened Options
  import opened Text
  import opened Json
  import opened Utf8
  import opened Usage
  import opened SseFraming
  import opened SseSynth
  import EventLines
  import SseRoundTrip

  // ----- the client

  /** A block under construction, and the text of its input so far. */
  datatype Draft = Draft(block: Value, json: string)

  datatype Client = Client(message: Value, blocks: seq<Value>, draft: Option<Draft>, ended: bool)

  const NOTHING := Client(Null, [], None, false)

  function TextIn(v: Value, key: string): string {
    AsStr(Get(v, key)).GetOr("")
  }

  /** The text under the key grows by what the delta has under it. */
  function Grown(block: Value, delta: Value, key: string): Value {
    Put(block, key, Str(TextIn(block, key) + TextIn(delta, key)))
  }

  function Extended(d: Draft, delta: Value): Draft {
    match AsStr(Get(delta, "type"))
    case Some("text_delta") => d.(block := Grown(d.block, delta, "text"))
    case Some("thinking_delta") => d.(block := Grown(d.block, delta, "thinking"))
    case Some("signature_delta") => d.(block := Grown(d.block, delta, "signature"))
    case Some("input_json_delta") => d.(json := d.json + TextIn(delta, "partial_json"))
    case _ => d
  }

  /** A block that got input has it parsed. */
  function Closed(codec: Codec, d: Draft): Value {
    if d.json == "" then d.block else Put(d.block, "input", codec.fromStr(d.json).GetOr(Null))
  }

  /** An event about the block that comes next. */
  predicate IsNext(c: Client, j: Value) {
    Get(j, "index") == Some(Int(|c.blocks|))
  }

  function OnEvent(codec: Codec, c: Client, j: Value): Client {
    match AsStr(Get(j, "type"))
    case Some("message_start") => c.(message := Get(j, "message").GetOr(Null))
    case Some("content_block_start") =>
      if IsNext(c, j) then c.(draft := Some(Draft(Get(j, "content_block").GetOr(Null), ""))) else c
    case Some("content_block_delta") =>
      if IsNext(c, j) && c.draft.Some? then
        c.(draft := Some(Extended(c.draft.value, Get(j, "delta").GetOr(Null))))
      else c
    case Some("content_block_stop") =>
      if IsNext(c, j) && c.draft.Some? then
        c.(blocks := c.blocks + [Closed(codec, c.draft.value)], draft := None)
      else c
    case Some("message_delta") =>
      c.(message := Put(Put(c.message, "stop_reason", Pointer(j, ["delta", "stop_reason"]).GetOr(Null)),
        "usage", Get(j, "usage").GetOr(Null)))
    case Some("message_stop") => c.(ended := true)
    case _ => c
  }

  function OnEvents(codec: Codec, c: Client, es: seq<Event>): Client {
    if es == [] then c else OnEvent(codec, OnEvents(codec, c, es[..|es| - 1]), es[|es| - 1].1)
  }

  /** The message the client ends up with. */
  function Received(c: Client): Value {
    Put(c.message, "content", Arr(c.blocks))
  }

  // ----- what becomes of one block

  function Rebuilt(block: Value): Value {
    var kind := BlockType(block);
    if kind == "text" then Obj([("type", Str("text")), ("text", Str(StrField(block, "text")))])
    else if kind == "tool_use" then
      Obj([("type", Str("tool_use")), ("id", Get(block, "id").GetOr(Null)), ("name", Get(block, "name").GetOr(Null)),
        ("input", ToolInput(block))])
    else if kind == "thinking" then
      Obj([("type", Str("thinking")), ("thinking", Str(StrField(block, "thinking"))),
        ("signature", Str(StrField(block, "signature")))])
    else block
  }

  /** What the rebuilt block has of the original: everything a client needs of it. */
  ghost predicate Keeps(r: Value, block: Value) {
    match AsStr(Get(block, "type")).GetOr("text")
    case "text" => Get(r, "type") == Some(Str("text")) && Get(r, "text") == Some(Str(TextIn(block, "text")))
    case "tool_use" =>
      Get(r, "type") == Some(Str("tool_use")) && Get(r, "id") == Some(Get(block, "id").GetOr(Null)) &&
      Get(r, "name") == Some(Get(block, "name").GetOr(Null)) &&
      Get(r, "input") == Some(Get(block, "input").GetOr(Obj([])))
    case "thinking" =>
      Get(r, "type") == Some(Str("thinking")) && Get(r, "thinking") == Some(Str(TextIn(block, "thinking"))) &&
      Get(r, "signature") == Some(Str(TextIn(block, "signature")))
    case _ => r == block
  }

  /** The block has nothing but what is streamed of its kind. */
  ghost predicate OnlyStreamed(block: Value) {
    match AsStr(Get(block, "type")).GetOr("text")
    case "text" => exists t :: block == Obj([("type", Str("text")), ("text", Str(t))])
    case "tool_use" =>
      exists id, name, input ::
        block == Obj([("type", Str("tool_use")), ("id", id), ("name", name), ("input", input)])
    case "thinking" =>
      exists t, s :: block == Obj([("type", Str("thinking")), ("thinking", Str(t)), ("signature", Str(s))])
    case _ => true
  }

  lemma {:induction false} FourRead(fields: seq<(string, Value)>)
    requires 2 <= |fields| <= 4 && forall i, j :: 0 <= i < j < |fields| ==> fields[i].0 != fields[j].0
    ensures forall i :: 0 <= i < |fields| ==> Get(Obj(fields), fields[i].0) == Some(fields[i].1)
  {
    forall i | 0 <= i < |fields| ensures Get(Obj(fields), fields[i].0) == Some(fields[i].1) {
      FieldIs(fields, i);
    }
  }

  lemma {:induction false} RebuiltKeeps(block: Value)
    ensures Keeps(Rebuilt(block), block)
  {
    var kind := BlockType(block);
    if kind == "text" || kind == "tool_use" || kind == "thinking" {
      var fields := Rebuilt(block).fields;
      FourRead(fields);
      assert Get(Obj(fields), fields[0].0) == Some(fields[0].1) && Get(Obj(fields), fields[1].0) == Some(fields[1].1);
      assert kind != "text" ==> Get(Obj(fields), fields[2].0) == Some(fields[2].1);
      assert kind == "tool_use" ==> Get(Obj(fields), fields[3].0) == Some(fields[3].1);
    }
  }

  /** A block comes back as it was exactly if nothing else is in it. */
  lemma {:induction false} RebuiltIsSame(block: Value)
    ensures Rebuilt(block) == block <==> OnlyStreamed(block)
  {
    var kind := BlockType(block);
    if OnlyStreamed(block) && (kind == "text" || kind == "tool_use" || kind == "thinking") {
      FourRead(block.fields);
      assert Get(block, block.fields[1].0) == Some(block.fields[1].1);
      assert kind != "text" ==> Get(block, block.fields[2].0) == Some(block.fields[2].1);
      assert kind == "tool_use" ==> Get(block, block.fields[3].0) == Some(block.fields[3].1);
    }
  }

  // ----- the events of one block

  lemma {:induction false} OpenedIsRead(codec: Codec, c: Client, block: Value)
    ensures OnEvent(codec, c, Opened(|c.blocks|, block).1) == c.(draft := Some(Draft(block, "")))
  {
    SseRoundTrip.BlockEventReads(BLOCK_START, |c.blocks|, "content_block", block);
  }

  lemma {:induction false} DeltaIsRead(codec: Codec, c: Client, kind: string, key: string, text: string)
    requires c.draft.Some? && key != "type"
    ensures OnEvent(codec, c, Delta(|c.blocks|, kind, key, text).1) ==
              c.(draft := Some(Extended(c.draft.value, Obj([("type", Str(kind)), (key, Str(text))]))))
  {
    SseRoundTrip.BlockEventReads(BLOCK_DELTA, |c.blocks|, "delta", Obj([("type", Str(kind)), (key, Str(text))]));
  }

  lemma {:induction false} StoppedIsRead(codec: Codec, c: Client)
    requires c.draft.Some?
    ensures OnEvent(codec, c, Stopped(|c.blocks|).1) ==
              c.(blocks := c.blocks + [Closed(codec, c.draft.value)], draft := None)
  {
    SseRoundTrip.StopEventReads(|c.blocks|);
    FieldIs(StopEvent(|c.blocks|).fields, 1);
  }

  /** A text, thinking or signature delta: its text goes behind the text the block has. */
  lemma {:induction false} GrownBy(d: Draft, kind: string, key: string, text: string)
    requires (kind, key) in {("text_delta", "text"), ("thinking_delta", "thinking"), ("signature_delta", "signature")}
    ensures Extended(d, Obj([("type", Str(kind)), (key, Str(text))])) ==
              d.(block := Put(d.block, key, Str(TextIn(d.block, key) + text)))
  {
    SseRoundTrip.DeltaReads(kind, key, text);
  }

  lemma {:induction false} InputBy(d: Draft, text: string)
    ensures Extended(d, Obj([("type", Str("input_json_delta")), ("partial_json", Str(text))])) ==
              d.(json := d.json + text)
  {
    SseRoundTrip.DeltaReads("input_json_delta", "partial_json", text);
  }

  lemma {:induction false} EventsInTurn(codec: Codec, c: Client, a: Event, b: Event, x: Event, y: Event)
    ensures OnEvents(codec, c, [a, b]) == OnEvent(codec, OnEvent(codec, c, a.1), b.1)
    ensures OnEvents(codec, c, [a, b, x]) == OnEvent(codec, OnEvent(codec, OnEvent(codec, c, a.1), b.1), x.1)
    ensures OnEvents(codec, c, [a, b, x, y]) ==
              OnEvent(codec, OnEvent(codec, OnEvent(codec, OnEvent(codec, c, a.1), b.1), x.1), y.1)
  {
    assert [a][..0] == [] && [a, b][..1] == [a] && [a, b, x][..2] == [a, b] && [a, b, x, y][..3] == [a, b, x];
    assert OnEvents(codec, c, [a]) == OnEvent(codec, c, a.1);
    assert OnEvents(codec, c, [a, b]) == OnEvent(codec, OnEvents(codec, c, [a]), b.1);
    assert OnEvents(codec, c, [a, b, x]) == OnEvent(codec, OnEvents(codec, c, [a, b]), x.1);
  }

  /** Opened, given one delta, closed. */
  lemma {:induction false} OneDelta(
    codec: Codec, c: Client, stub: Value, kind: string, key: string, text: string, d: Draft)
    requires key != "type" && d == Extended(Draft(stub, ""), Obj([("type", Str(kind)), (key, Str(text))]))
    ensures var i := |c.blocks|;
            OnEvents(codec, c, [Opened(i, stub), Delta(i, kind, key, text), Stopped(i)]) ==
              c.(blocks := c.blocks + [Closed(codec, d)], draft := None)
  {
    var i := |c.blocks|;
    var c1 := c.(draft := Some(Draft(stub, "")));
    var c2 := c.(draft := Some(d));
    EventsInTurn(codec, c, Opened(i, stub), Delta(i, kind, key, text), Stopped(i), Stopped(i));
    OpenedIsRead(codec, c, stub);
    DeltaIsRead(codec, c1, kind, key, text);
    StoppedIsRead(codec, c2);
  }

  lemma {:induction false} TextBlockBack(codec: Codec, c: Client, text: string)
    ensures var i := |c.blocks|;
            OnEvents(codec, c, [Opened(i, Obj([("type", Str("text")), ("text", Str(""))])),
              Delta(i, "text_delta", "text", text), Stopped(i)]) ==
              c.(blocks := c.blocks + [Obj([("type", Str("text")), ("text", Str(text))])], draft := None)
  {
    var stub := Obj([("type", Str("text")), ("text", Str(""))]);
    SseRoundTrip.DeltaReads("text", "text", "");
    GrownBy(Draft(stub, ""), "text_delta", "text", text);
    assert "" + text == text;
    SetSecond("type", Str("text"), "text", Str(""), Str(text));
    OneDelta(codec, c, stub, "text_delta", "text", text,
      Draft(Obj([("type", Str("text")), ("text", Str(text))]), ""));
  }

  lemma {:induction false} SetSecond(a: string, x: Value, b: string, y: Value, z: Value)
    requires a != b
    ensures Put(Obj([(a, x), (b, y)]), b, z) == Obj([(a, x), (b, z)])
  {
    assert [(a, x), (b, y)][1..] == [(b, y)] && [(b, y)][1..] == [];
    assert SetField([(b, y)], b, z) == [(b, z)];
  }

  lemma {:induction false} AddThird(a: string, x: Value, b: string, y: Value, c: string, z: Value)
    requires a != b && a != c && b != c
    ensures Put(Obj([(a, x), (b, y)]), c, z) == Obj([(a, x), (b, y), (c, z)])
  {
    assert [(a, x), (b, y)][1..] == [(b, y)] && [(b, y)][1..] == [];
    assert SetField([(b, y)], c, z) == [(b, y)] + SetField([], c, z);
  }

  lemma {:induction false} ThinkingBlockBack(codec: Codec, c: Client, thinking: string, signature: string)
    ensures var i := |c.blocks|;
            OnEvents(codec, c, [Opened(i, Obj([("type", Str("thinking")), ("thinking", Str(""))])),
              Delta(i, "thinking_delta", "thinking", thinking),
              Delta(i, "signature_delta", "signature", signature), Stopped(i)]) ==
              c.(blocks := c.blocks +
                   [Obj([("type", Str("thinking")), ("thinking", Str(thinking)), ("signature", Str(signature))])],
                 draft := None)
  {
    var i := |c.blocks|;
    var stub := Obj([("type", Str("thinking")), ("thinking", Str(""))]);
    var filled := Obj([("type", Str("thinking")), ("thinking", Str(thinking))]);
    var signed := Obj([("type", Str("thinking")), ("thinking", Str(thinking)), ("signature", Str(signature))]);
    SseRoundTrip.DeltaReads("thinking", "thinking", "");
    SseRoundTrip.DeltaReads("thinking", "thinking", thinking);
    assert "" + thinking == thinking && "" + signature == signature;
    SetSecond("type", Str("thinking"), "thinking", Str(""), Str(thinking));
    AddThird("type", Str("thinking"), "thinking", Str(thinking), "signature", Str(signature));
    GrownBy(Draft(stub, ""), "thinking_delta", "thinking", thinking);
    GrownBy(Draft(filled, ""), "signature_delta", "signature", signature);
    TwoDeltas(codec, c, stub, filled, signed, thinking, signature);
  }

  lemma {:induction false} TwoDeltas(
    codec: Codec, c: Client, stub: Value, filled: Value, signed: Value, thinking: string, signature: string)
    requires Extended(Draft(stub, ""), Obj([("type", Str("thinking_delta")), ("thinking", Str(thinking))])) ==
               Draft(filled, "")
    requires Extended(Draft(filled, ""), Obj([("type", Str("signature_delta")), ("signature", Str(signature))])) ==
               Draft(signed, "")
    ensures var i := |c.blocks|;
            OnEvents(codec, c, [Opened(i, stub), Delta(i, "thinking_delta", "thinking", thinking),
              Delta(i, "signature_delta", "signature", signature), Stopped(i)]) ==
              c.(blocks := c.blocks + [signed], draft := None)
  {
    var i := |c.blocks|;
    EventsInTurn(codec, c, Opened(i, stub), Delta(i, "thinking_delta", "thinking", thinking),
      Delta(i, "signature_delta", "signature", signature), Stopped(i));
    OpenedIsRead(codec, c, stub);
    DeltaIsRead(codec, c.(draft := Some(Draft(stub, ""))), "thinking_delta", "thinking", thinking);
    DeltaIsRead(codec, c.(draft := Some(Draft(filled, ""))), "signature_delta", "signature", signature);
    StoppedIsRead(codec, c.(draft := Some(Draft(signed, ""))));
  }

  lemma {:induction false} ToolBlockBack(codec: Codec, c: Client, id: Value, name: Value, input: Value)
    requires codec.Sound() && WellFormed(input)
    ensures var i := |c.blocks|;
            OnEvents(codec, c,
              [Opened(i, Obj([("type", Str("tool_use")), ("id", id), ("name", name), ("input", Obj([]))])),
               Delta(i, "input_json_delta", "partial_json", codec.show(input)), Stopped(i)]) ==
              c.(blocks := c.blocks +
                   [Obj([("type", Str("tool_use")), ("id", id), ("name", name), ("input", input)])],
                 draft := None)
  {
    var stub := Obj([("type", Str("tool_use")), ("id", id), ("name", name), ("input", Obj([]))]);
    var shown := codec.show(input);
    InputBy(Draft(stub, ""), shown);
    assert "" + shown == shown && codec.fromStr(shown) == Some(input) && shown != "";
    SetFourth(("type", Str("tool_use")), ("id", id), ("name", name), "input", Obj([]), input);
    OneDelta(codec, c, stub, "input_json_delta", "partial_json", shown, Draft(stub, shown));
  }

  lemma {:induction false} SetFourth(
    a: (string, Value), b: (string, Value), c: (string, Value), key: string, x: Value, y: Value)
    requires a.0 != key && b.0 != key && c.0 != key
    ensures Put(Obj([a, b, c, (key, x)]), key, y) == Obj([a, b, c, (key, y)])
  {
    assert [a, b, c, (key, x)][1..] == [b, c, (key, x)] && [b, c, (key, x)][1..] == [c, (key, x)];
    assert [c, (key, x)][1..] == [(key, x)] && [(key, x)][1..] == [];
    assert SetField([(key, x)], key, y) == [(key, y)];
    assert SetField([c, (key, x)], key, y) == [c, (key, y)];
    assert SetField([b, c, (key, x)], key, y) == [b, c, (key, y)];
  }

  lemma {:induction false} WholeBlockBack(codec: Codec, c: Client, block: Value)
    ensures var i := |c.blocks|;
            OnEvents(codec, c, [Opened(i, block), Stopped(i)]) == c.(blocks := c.blocks + [block], draft := None)
  {
    var i := |c.blocks|;
    EventsInTurn(codec, c, Opened(i, block), Stopped(i), Stopped(i), Stopped(i));
    OpenedIsRead(codec, c, block);
    StoppedIsRead(codec, c.(draft := Some(Draft(block, ""))));
  }

  lemma {:induction false} BlockIsRebuilt(codec: Codec, c: Client, block: Value)
    requires codec.Sound() && WellFormed(block)
    ensures OnEvents(codec, c, BlockEvents(codec.show, |c.blocks|, block)) ==
              c.(blocks := c.blocks + [Rebuilt(block)], draft := None)
  {
    var kind := BlockType(block);
    if kind == "text" {
      TextBlockBack(codec, c, StrField(block, "text"));
    } else if kind == "tool_use" {
      SseRoundTrip.InputWellFormed(block);
      ToolBlockBack(codec, c, Get(block, "id").GetOr(Null), Get(block, "name").GetOr(Null), ToolInput(block));
    } else if kind == "thinking" {
      ThinkingBlockBack(codec, c, StrField(block, "thinking"), StrField(block, "signature"));
    } else {
      WholeBlockBack(codec, c, block);
    }
  }

  // ----- all events

  lemma {:induction false} EventsConcat(codec: Codec, c: Client, a: seq<Event>, b: seq<Event>)
    ensures OnEvents(codec, c, a + b) == OnEvents(codec, OnEvents(codec, c, a), b)
  {
    if b == [] {
      assert a + b == a;
    } else {
      assert (a + b)[..|a + b| - 1] == a + b[..|b| - 1];
      EventsConcat(codec, c, a, b[..|b| - 1]);
    }
  }

  function AllRebuilt(blocks: seq<Value>): (r: seq<Value>)
    ensures |r| == |blocks| && forall i :: 0 <= i < |r| ==> r[i] == Rebuilt(blocks[i])
  {
    if blocks == [] then [] else AllRebuilt(blocks[..|blocks| - 1]) + [Rebuilt(blocks[|blocks| - 1])]
  }

  lemma {:induction false} BlocksAreRebuilt(codec: Codec, c: Client, blocks: seq<Value>)
    requires codec.Sound() && c.blocks == [] && c.draft.None?
    requires forall i :: 0 <= i < |blocks| ==> WellFormed(blocks[i])
    ensures OnEvents(codec, c, BlocksEvents(codec.show, blocks)) == c.(blocks := AllRebuilt(blocks))
  {
    if blocks != [] {
      var n := |blocks| - 1;
      BlocksAreRebuilt(codec, c, blocks[..n]);
      LastIsRebuilt(codec, c, blocks, n, c.(blocks := AllRebuilt(blocks[..n])));
    }
  }

  lemma {:induction false} LastIsRebuilt(codec: Codec, c: Client, blocks: seq<Value>, n: nat, c1: Client)
    requires codec.Sound() && n + 1 == |blocks| && |c1.blocks| == n && c1.draft.None? && WellFormed(blocks[n])
    requires OnEvents(codec, c, BlocksEvents(codec.show, blocks[..n])) == c1
    ensures OnEvents(codec, c, BlocksEvents(codec.show, blocks)) == c1.(blocks := c1.blocks + [Rebuilt(blocks[n])])
  {
    EventsConcat(codec, c, BlocksEvents(codec.show, blocks[..n]), BlockEvents(codec.show, n, blocks[n]));
    BlockIsRebuilt(codec, c1, blocks[n]);
  }

  lemma {:induction false} StartIsRead(codec: Codec, msg: Value)
    ensures OnEvents(codec, NOTHING, StartEvents(msg)) == Client(Put(msg, "content", Arr([])), [], None, false)
  {
    SseRoundTrip.StartReads(msg);
    FieldIs(StartEvent(msg).fields, 1);
    assert StartEvents(msg)[..0] == [];
  }

  /** What the end of the stream says of the message. */
  function EndOf(msg: Value, m: Value): Value {
    Put(Put(m, "stop_reason", Get(msg, "stop_reason").GetOr(Null)), "usage", Get(msg, "usage").GetOr(Obj([])))
  }

  lemma {:induction false} StopReasonReads(msg: Value)
    ensures Pointer(DeltaEvent(msg), ["delta", "stop_reason"]) == Some(Get(msg, "stop_reason").GetOr(Null))
  {
    var d := Obj([("stop_reason", Get(msg, "stop_reason").GetOr(Null))]);
    FieldIs(DeltaEvent(msg).fields, 1);
    FieldIs(d.fields, 0);
    PointerTwo(DeltaEvent(msg), "delta", d, "stop_reason");
  }

  lemma {:induction false} EndIsRead(codec: Codec, c: Client, msg: Value)
    ensures OnEvents(codec, c, EndEvents(msg)) == c.(message := EndOf(msg, c.message), ended := true)
  {
    var stop := Obj([("type", Str("message_stop"))]);
    SseRoundTrip.EndReads(msg);
    SseRoundTrip.StopReads();
    StopReasonReads(msg);
    EventsInTurn(codec, c, ("message_delta", DeltaEvent(msg)), ("message_stop", stop), ("message_stop", stop),
      ("message_stop", stop));
    assert OnEvent(codec, c, DeltaEvent(msg)) == c.(message := EndOf(msg, c.message));
  }

  /** What the client holds after the whole stream. */
  function Complete(msg: Value): Client {
    Client(EndOf(msg, Put(msg, "content", Arr([]))), AllRebuilt(ContentBlocks(msg)), None, true)
  }

  lemma {:induction false} EventsAreReceived(codec: Codec, msg: Value)
    requires codec.Sound() && WellFormed(msg)
    ensures OnEvents(codec, NOTHING, Events(codec.show, msg)) == Complete(msg)
  {
    var s, b, e := StartEvents(msg), BlocksEvents(codec.show, ContentBlocks(msg)), EndEvents(msg);
    var c1 := Client(Put(msg, "content", Arr([])), [], None, false);
    EventsConcat(codec, NOTHING, s + b, e);
    EventsConcat(codec, NOTHING, s, b);
    StartIsRead(codec, msg);
    SseRoundTrip.BlocksWellFormed(msg);
    BlocksAreRebuilt(codec, c1, ContentBlocks(msg));
    EndIsRead(codec, c1.(blocks := AllRebuilt(ContentBlocks(msg))), msg);
  }

  // ----- from bytes

  function Lines(codec: Codec): LineReader<Client> {
    EventLines.Lines(codec, OnEventOf(codec))
  }

  function OnEventOf(codec: Codec): (Client, Value) -> Client {
    (c: Client, j: Value) => OnEvent(codec, c, j)
  }

  lemma {:induction false} EventIsFed(codec: Codec, c: Client, e: Event)
    requires codec.Sound() && Printable(e)
    ensures FeedBytes(Lines(codec), Progress(c, []), Encode(EventText(codec.show, e))) ==
              Progress(OnEvent(codec, c, e.1), [])
  {
    var step := OnEventOf(codec);
    var l1, l2 := "event: " + e.0, "data: " + codec.show(e.1);
    assert EventText(codec.show, e) == (l1 + "\n") + ((l2 + "\n") + ("" + "\n"));
    EventLines.LineThenRest(codec, step, c, l1, (l2 + "\n") + ("" + "\n"));
    EventLines.NameLineIsSkipped(codec, step, c, e.0);
    EventLines.LineThenRest(codec, step, c, l2, "" + "\n");
    EventLines.DataLineIsRead(codec, step, c, e.1);
    EventLines.LineIsFed(codec, step, step(c, e.1), "");
    EventLines.EmptyLineIsSkipped(codec, step, step(c, e.1));
  }

  lemma {:induction false} EventsAreFed(codec: Codec, c: Client, es: seq<Event>)
    requires codec.Sound() && forall i :: 0 <= i < |es| ==> Printable(es[i])
    ensures FeedBytes(Lines(codec), Progress(c, []), Encode(Printed(codec.show, es))) ==
              Progress(OnEvents(codec, c, es), [])
  {
    if es != [] {
      var n := |es| - 1;
      EventsAreFed(codec, c, es[..n]);
      var a, b := Printed(codec.show, es[..n]), EventText(codec.show, es[n]);
      EncodeConcat(a, b);
      FeedConcat(Lines(codec), Progress(c, []), Encode(a), Encode(b));
      EventIsFed(codec, OnEvents(codec, c, es[..n]), es[n]);
    }
  }

  // ----- the theorem

  /** The blocks of the message, one by one: kind, text, thinking and signature, tool id, name and input. */
  ghost predicate KeepsAll(received: seq<Value>, blocks: seq<Value>) {
    |received| == |blocks| &&
    forall i :: 0 <= i < |blocks| ==>
      Keeps(received[i], blocks[i]) && (received[i] == blocks[i] <==> OnlyStreamed(blocks[i]))
  }

  lemma {:induction false} RebuiltKeepsAll(blocks: seq<Value>)
    ensures KeepsAll(AllRebuilt(blocks), blocks)
  {
    forall i | 0 <= i < |blocks|
      ensures Keeps(Rebuilt(blocks[i]), blocks[i]) && (Rebuilt(blocks[i]) == blocks[i] <==> OnlyStreamed(blocks[i]))
    {
      RebuiltKeeps(blocks[i]);
      RebuiltIsSame(blocks[i]);
    }
  }

  lemma {:induction false} StreamIsReceived(codec: Codec, msg: Value, chunks: seq<seq<byte>>)
    requires codec.Sound() && WellFormed(msg)
    requires Join(chunks, []) == Encode(Printed(codec.show, Events(codec.show, msg)))
    ensures FeedChunks(Lines(codec), Progress(NOTHING, []), chunks) == Progress(Complete(msg), [])
  {
    ChunkingIsIrrelevant(Lines(codec), Progress(NOTHING, []), chunks);
    SseRoundTrip.AllPrintable(codec.show, msg);
    EventsAreFed(codec, NOTHING, Events(codec.show, msg));
    EventsAreReceived(codec, msg);
  }

  /** The message has the blocks as its content, the stop reason, the usage and all other fields. */
  ghost predicate IsMessage(m: Value, blocks: seq<Value>, msg: Value) {
    Get(m, "content") == Some(Arr(blocks)) &&
    Get(m, "stop_reason") == Some(Get(msg, "stop_reason").GetOr(Null)) &&
    Get(m, "usage") == Some(Get(msg, "usage").GetOr(Obj([]))) &&
    forall k :: k != "content" && k != "stop_reason" && k != "usage" ==> Get(m, k) == Get(msg, k)
  }

  lemma {:induction false} CompleteIsMessage(msg: Value)
    requires msg.Obj?
    ensures IsMessage(Received(Complete(msg)), Complete(msg).blocks, msg)
  {
    FourPuts(msg, Arr([]), Get(msg, "stop_reason").GetOr(Null), Get(msg, "usage").GetOr(Obj([])),
      Arr(Complete(msg).blocks));
  }

  lemma {:induction false} FourPuts(msg: Value, a: Value, stop: Value, usage: Value, b: Value)
    requires msg.Obj?
    ensures var m := Put(Put(Put(Put(msg, "content", a), "stop_reason", stop), "usage", usage), "content", b);
            Get(m, "content") == Some(b) && Get(m, "stop_reason") == Some(stop) && Get(m, "usage") == Some(usage) &&
            forall k :: k != "content" && k != "stop_reason" && k != "usage" ==> Get(m, k) == Get(msg, k)
  {
    var m1 := Put(msg, "content", a);
    var m2 := Put(m1, "stop_reason", stop);
    var m3 := Put(m2, "usage", usage);
    var m := Put(m3, "content", b);
    assert Get(m, "usage") == Get(m3, "usage") && Get(m, "stop_reason") == Get(m3, "stop_reason");
    forall k | k != "content" && k != "stop_reason" && k != "usage" ensures Get(m, k) == Get(msg, k) {
      assert Get(m, k) == Get(m3, k) == Get(m2, k) == Get(m1, k);
    }
  }

  /** A client that reads the synthesised stream, in whatever pieces, ends with a message that has the
      content blocks in order, the stop reason, the usage, and every other field as it was. A block comes
      back unchanged exactly if it has nothing but what is streamed of its kind. */
  lemma {:induction false} ClientHasTheMessage(codec: Codec, msg: Value, chunks: seq<seq<byte>>) returns (c: Client)
    requires codec.Sound() && WellFormed(msg) && msg.Obj?
    requires Join(chunks, []) == Encode(Printed(codec.show, Events(codec.show, msg)))
    ensures FeedChunks(Lines(codec), Progress(NOTHING, []), chunks) == Progress(c, []) && c.ended
    ensures KeepsAll(c.blocks, AsArr(Get(msg, "content")).GetOr([])) && IsMessage(Received(c), c.blocks, msg)
  {
    c := Complete(msg);
    StreamIsReceived(codec, msg, chunks);
    RebuiltKeepsAll(ContentBlocks(msg));
    CompleteIsMessage(msg);
  }

  lemma {:induction false} BlockNames(show: Value -> string, i: nat, block: Value)
    ensures forall e :: e in BlockEvents(show, i, block) ==> Get(e.1, "type") == Some(Str(e.0))
  {
    forall e | e in BlockEvents(show, i, block) ensures Get(e.1, "type") == Some(Str(e.0)) {
      FieldIs(e.1.fields, 0);
    }
  }

  lemma {:induction false} BlocksNames(show: Value -> string, blocks: seq<Value>)
    ensures forall e :: e in BlocksEvents(show, blocks) ==> Get(e.1, "type") == Some(Str(e.0))
  {
    if blocks != [] {
      BlocksNames(show, blocks[..|blocks| - 1]);
      BlockNames(show, |blocks| - 1, blocks[|blocks| - 1]);
    }
  }

  /** The name in front of each event is the type of its data. */
  lemma {:induction false} EventsAreNamed(show: Value -> string, msg: Value)
    ensures forall e :: e in Events(show, msg) ==> Get(e.1, "type") == Some(Str(e.0))
  {
    StartNames(msg);
    EndNames(msg);
    BlocksNames(show, ContentBlocks(msg));
  }

  lemma {:induction false} StartNames(msg: Value)
    ensures forall e :: e in StartEvents(msg) ==> Get(e.1, "type") == Some(Str(e.0))
  {
    SseRoundTrip.StartReads(msg);
  }

  lemma {:induction false} EndNames(msg: Value)
    ensures forall e :: e in EndEvents(msg) ==> Get(e.1, "type") == Some(Str(e.0))
  {
    SseRoundTrip.EndReads(msg);
    SseRoundTrip.StopReads();
  }
}
