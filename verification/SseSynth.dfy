/**
  A complete Anthropic message printed as a stream of events, for a client that asked for one.
  The running tally must read back from that stream what the batch extraction reads from the
  message itself.
*/
module SseSynth {
  import opened Text
  import opened Json
  import opened Usage
  import opened Utf8
  import opened SseFraming
  import opened SseTally

  type Event = (string, Value)

  const BLOCK_START := "content_block_start"
  const BLOCK_DELTA := "content_block_delta"
  const BLOCK_STOP := "content_block_stop"

  // ----- the events of a message

  function StartEvent(msg: Value): Value {
    Obj([("type", Str("message_start")), ("message", Put(msg, "content", Arr([])))])
  }

  function BlockEvent(kind: string, i: nat, key: string, v: Value): Value {
    Obj([("type", Str(kind)), ("index", Int(i)), (key, v)])
  }

  function StopEvent(i: nat): Value {
    Obj([("type", Str(BLOCK_STOP)), ("index", Int(i))])
  }

  function Opened(i: nat, block: Value): Event {
    (BLOCK_START, BlockEvent(BLOCK_START, i, "content_block", block))
  }

  function Delta(i: nat, kind: string, key: string, text: string): Event {
    (BLOCK_DELTA, BlockEvent(BLOCK_DELTA, i, "delta", Obj([("type", Str(kind)), (key, Str(text))])))
  }

  function Stopped(i: nat): Event {
    (BLOCK_STOP, StopEvent(i))
  }

  function BlockType(block: Value): string {
    AsStr(Get(block, "type")).GetOr("text")
  }

  function StrField(block: Value, key: string): string {
    AsStr(Get(block, key)).GetOr("")
  }

  function ToolInput(block: Value): Value {
    Get(block, "input").GetOr(Obj([]))
  }

  function ToolStub(block: Value): Value {
    Obj([("type", Str("tool_use")), ("id", Get(block, "id").GetOr(Null)),
      ("name", Get(block, "name").GetOr(Null)), ("input", Obj([]))])
  }

  function BlockEvents(show: Value -> string, i: nat, block: Value): seq<Event> {
    var t := BlockType(block);
    if t == "text" then
      [Opened(i, Obj([("type", Str("text")), ("text", Str(""))])),
       Delta(i, "text_delta", "text", StrField(block, "text")), Stopped(i)]
    else if t == "tool_use" then
      [Opened(i, ToolStub(block)),
       Delta(i, "input_json_delta", "partial_json", show(ToolInput(block))), Stopped(i)]
    else if t == "thinking" then
      [Opened(i, Obj([("type", Str(t)), ("thinking", Str(""))])),
       Delta(i, "thinking_delta", "thinking", StrField(block, "thinking")),
       Delta(i, "signature_delta", "signature", StrField(block, "signature")), Stopped(i)]
    else
      [Opened(i, block), Stopped(i)]
  }

  /** The events of numbered blocks, one block after the other. */
  function Mapped(f: (nat, Value) -> seq<Event>, blocks: seq<Value>): seq<Event> {
    if blocks == [] then []
    else Mapped(f, blocks[..|blocks| - 1]) + f(|blocks| - 1, blocks[|blocks| - 1])
  }

  function BlockPrinter(show: Value -> string): (nat, Value) -> seq<Event> {
    (i: nat, block: Value) => BlockEvents(show, i, block)
  }

  function BlocksEvents(show: Value -> string, blocks: seq<Value>): seq<Event> {
    Mapped(BlockPrinter(show), blocks)
  }

  function DeltaEvent(msg: Value): Value {
    Obj([("type", Str("message_delta")),
      ("delta", Obj([("stop_reason", Get(msg, "stop_reason").GetOr(Null))])),
      ("usage", Get(msg, "usage").GetOr(Obj([])))])
  }

  function EndEvents(msg: Value): seq<Event> {
    [("message_delta", DeltaEvent(msg)), ("message_stop", Obj([("type", Str("message_stop"))]))]
  }

  function StartEvents(msg: Value): seq<Event> {
    [("message_start", StartEvent(msg))]
  }

  function Events(show: Value -> string, msg: Value): seq<Event> {
    StartEvents(msg) + BlocksEvents(show, ContentBlocks(msg)) + EndEvents(msg)
  }

  // ----- printing them

  function EventText(show: Value -> string, e: Event): string {
    "event: " + e.0 + "\ndata: " + show(e.1) + "\n\n"
  }

  function Printed(show: Value -> string, es: seq<Event>): string {
    if es == [] then "" else Printed(show, es[..|es| - 1]) + EventText(show, es[|es| - 1])
  }

  lemma {:induction false} PrintedConcat(show: Value -> string, a: seq<Event>, b: seq<Event>)
    ensures Printed(show, a + b) == Printed(show, a) + Printed(show, b)
  {
    if b == [] {
      assert a + b == a;
    } else {
      assert (a + b)[..|a + b| - 1] == a + b[..|b| - 1];
      PrintedConcat(show, a, b[..|b| - 1]);
    }
  }

  /** A complete response body as a stream; one that does not parse goes out as it is. */
  function AnthropicStream(codec: Codec, bytes: seq<byte>): string {
    match codec.fromSlice(bytes)
    case Some(msg) => Printed(codec.show, Events(codec.show, msg))
    case None => codec.lossy(bytes)
  }

  /** The synthesiser: events are appended to the output as it goes. */
  method Synthesize(codec: Codec, bytes: seq<byte>) returns (out: string)
    ensures out == AnthropicStream(codec, bytes)
  {
    var parsed := codec.fromSlice(bytes);
    if parsed.None? {
      return codec.lossy(bytes);
    }
    out := SynthesizeMessage(codec.show, parsed.value);
  }

  method SynthesizeMessage(show: Value -> string, msg: Value) returns (out: string)
    ensures out == Printed(show, Events(show, msg))
  {
    out := AppendAll(show, StartEvents(msg), BlockPrinter(show), ContentBlocks(msg), EndEvents(msg));
  }

  method AppendAll(show: Value -> string, start: seq<Event>, f: (nat, Value) -> seq<Event>, blocks: seq<Value>,
    end: seq<Event>) returns (out: string)
    ensures out == Printed(show, start + Mapped(f, blocks) + end)
  {
    ThreeParts(show, start, Mapped(f, blocks), end);
    out := AppendEvents("", show, start);
    out := AppendMapped(out, show, f, blocks);
    out := AppendEvents(out, show, end);
  }

  lemma ThreeParts(show: Value -> string, a: seq<Event>, b: seq<Event>, c: seq<Event>)
    ensures Printed(show, a + b + c) == "" + Printed(show, a) + Printed(show, b) + Printed(show, c)
  {
    PrintedConcat(show, a, b);
    PrintedConcat(show, a + b, c);
    NothingInFront(Printed(show, a));
  }

  lemma NothingInFront(s: string)
    ensures "" + s == s
  {
  }

  /** The loop over the content blocks. */
  method AppendMapped(out0: string, show: Value -> string, f: (nat, Value) -> seq<Event>, blocks: seq<Value>)
    returns (out: string)
    ensures out == out0 + Printed(show, Mapped(f, blocks))
  {
    out := out0;
    for i := 0 to |blocks|
      invariant out == out0 + Printed(show, Mapped(f, blocks[..i]))
    {
      MappedStep(show, f, blocks, i, out0);
      out := AppendEvents(out, show, f(i, blocks[i]));
    }
    assert blocks[..|blocks|] == blocks;
  }

  lemma MappedStep(show: Value -> string, f: (nat, Value) -> seq<Event>, blocks: seq<Value>, i: nat, out0: string)
    requires i < |blocks|
    ensures out0 + Printed(show, Mapped(f, blocks[..i])) + Printed(show, f(i, blocks[i]))
         == out0 + Printed(show, Mapped(f, blocks[..i + 1]))
  {
    var before, more := Mapped(f, blocks[..i]), f(i, blocks[i]);
    MappedOne(f, blocks, i);
    PrintedConcat(show, before, more);
    Associate(out0, Printed(show, before), Printed(show, more));
  }

  lemma MappedOne(f: (nat, Value) -> seq<Event>, blocks: seq<Value>, i: nat)
    requires i < |blocks|
    ensures Mapped(f, blocks[..i + 1]) == Mapped(f, blocks[..i]) + f(i, blocks[i])
  {
    assert blocks[..i + 1][..i] == blocks[..i];
  }

  lemma Associate(a: string, b: string, c: string)
    ensures a + b + c == a + (b + c)
  {
  }

  method AppendEvents(out0: string, show: Value -> string, es: seq<Event>) returns (out: string)
    ensures out == out0 + Printed(show, es)
  {
    out := out0;
    for i := 0 to |es|
      invariant out == out0 + Printed(show, es[..i])
    {
      assert es[..i + 1][..i] == es[..i];
      out := out + EventText(show, es[i]);
    }
    assert es[..|es|] == es;
  }

  // ----- reading printed events

  function ApplyAll(show: Value -> string, t: Tally, es: seq<Event>): Tally {
    if es == [] then t
    else Apply(Anthropic, show, ApplyAll(show, t, es[..|es| - 1]), es[|es| - 1].1)
  }

  ghost predicate Printable(e: Event) {
    e.0 != "" && '\n' !in e.0 && e.1.Obj? && WellFormed(e.1)
  }

  /** A text line is read back as the line it is. */
  lemma LineIsRead(r: Reader, t: Tally, line: string)
    requires r.codec.Sound() && '\n' !in line
    ensures FeedBytes(r.Read(), Progress(t, []), Encode(line + "\n")) == Progress(r.FeedLine(t, Trim(line)), [])
  {
    EncodeConcat(line, "\n");
    assert Encode("\n") == [NEWLINE] by { assert "\n"[1..] == ""; }
    NewlineFree(line);
    FeedOneLine(r.Read(), t, Encode(line));
  }

  lemma EventLineIsIgnored(r: Reader, t: Tally, name: string)
    ensures r.FeedLine(t, Trim("event: " + name)) == t
  {
    var line := "event: " + name;
    assert line[0] == 'e';
    TrimKeepsFirst(line);
  }

  lemma DataPayload(shown: string)
    requires |shown| >= 2 && shown[0] == '{' && shown[|shown| - 1] == '}'
    ensures var line := Trim("data: " + shown);
            "data:" <= line && Trim(line[5..]) == shown && shown != "[DONE]" && shown != ""
  {
    var line := "data: " + shown;
    TrimOfTight(line);
    assert line[..5] == "data:";
    assert line[5..] == " " + shown;
    TrimDropsSpace(shown);
    assert "[DONE]"[0] == '[';
  }

  lemma DataLineIsApplied(r: Reader, t: Tally, v: Value)
    requires r.codec.Sound() && v.Obj? && WellFormed(v)
    ensures r.FeedLine(t, Trim("data: " + r.codec.show(v))) == Apply(r.provider, r.codec.show, t, v)
  {
    DataPayload(r.codec.show(v));
  }

  lemma EventIsRead(r: Reader, t: Tally, e: Event)
    requires r.codec.Sound() && Printable(e)
    ensures FeedBytes(r.Read(), Progress(t, []), Encode(EventText(r.codec.show, e)))
         == Progress(Apply(r.provider, r.codec.show, t, e.1), [])
  {
    var l1, l2 := "event: " + e.0, "data: " + r.codec.show(e.1);
    assert EventText(r.codec.show, e) == (l1 + "\n") + ((l2 + "\n") + ("" + "\n"));
    EventLineIsIgnored(r, t, e.0);
    DataLineIsApplied(r, t, e.1);
    TwoLinesAreRead(r, t, l1, l2);
  }

  /** Two lines and an empty one are read one after the other. */
  lemma TwoLinesAreRead(r: Reader, t: Tally, l1: string, l2: string)
    requires r.codec.Sound() && '\n' !in l1 && '\n' !in l2
    ensures FeedBytes(r.Read(), Progress(t, []), Encode((l1 + "\n") + ((l2 + "\n") + ("" + "\n"))))
         == Progress(r.FeedLine(r.FeedLine(t, Trim(l1)), Trim(l2)), [])
  {
    var read := r.Read();
    var t1 := r.FeedLine(t, Trim(l1));
    var t2 := r.FeedLine(t1, Trim(l2));
    EncodeConcat(l1 + "\n", (l2 + "\n") + ("" + "\n"));
    EncodeConcat(l2 + "\n", "" + "\n");
    LineIsRead(r, t, l1);
    LineIsRead(r, t1, l2);
    LineIsRead(r, t2, "");
    assert r.FeedLine(t2, Trim("")) == t2;
    FeedConcat(read, Progress(t, []), Encode(l1 + "\n"), Encode(l2 + "\n") + Encode("" + "\n"));
    FeedConcat(read, Progress(t1, []), Encode(l2 + "\n"), Encode("" + "\n"));
  }

  lemma {:induction false} EventsAreRead(r: Reader, t: Tally, es: seq<Event>)
    requires r.codec.Sound() && r.provider == Anthropic
    requires forall i :: 0 <= i < |es| ==> Printable(es[i])
    ensures FeedBytes(r.Read(), Progress(t, []), Encode(Printed(r.codec.show, es)))
         == Progress(ApplyAll(r.codec.show, t, es), [])
  {
    if es != [] {
      var n := |es| - 1;
      EventsAreRead(r, t, es[..n]);
      var a, b := Printed(r.codec.show, es[..n]), EventText(r.codec.show, es[n]);
      EncodeConcat(a, b);
      FeedConcat(r.Read(), Progress(t, []), Encode(a), Encode(b));
      EventIsRead(r, ApplyAll(r.codec.show, t, es[..n]), es[n]);
    }
  }

  lemma {:induction false} ApplyConcat(show: Value -> string, t: Tally, a: seq<Event>, b: seq<Event>)
    ensures ApplyAll(show, t, a + b) == ApplyAll(show, ApplyAll(show, t, a), b)
  {
    if b == [] {
      assert a + b == a;
    } else {
      assert (a + b)[..|a + b| - 1] == a + b[..|b| - 1];
      ApplyConcat(show, t, a, b[..|b| - 1]);
    }
  }
}
