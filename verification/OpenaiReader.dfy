/** A client of the synthesised OpenAI stream: what it holds after the chunks is the message they were made of. */
module OpenaiReader {
  import opened Options
  import opened Text
  import opened Json
  import opened Utf8
  import opened SseFraming
  import opened SseSynthOpenai
  import EventLines

  /** What the chunks have said so far; `reason` is why the choice ended. */
  datatype Client = Client(id: Value, model: Value, role: Value, content: string, calls: seq<Value>, reason: Value)

  const NOTHING := Client(Null, Null, Null, "", [], Null)

  function OnChunk(c: Client, j: Value): Client {
    match Pointer(j, ["choices", "0"])
    case None => c
    case Some(choice) =>
      var delta := Get(choice, "delta").GetOr(Null);
      var reason := Get(choice, "finish_reason").GetOr(Null);
      Client(Get(j, "id").GetOr(Null), Get(j, "model").GetOr(Null), Get(delta, "role").GetOr(c.role),
        c.content + AsStr(Get(delta, "content")).GetOr(""), c.calls + AsArr(Get(delta, "tool_calls")).GetOr([]),
        if reason.Null? then c.reason else reason)
  }

  /** The first choice of a chunk. */
  lemma {:induction false} ChunkParts(j: Value, delta: Value, reason: Value)
    ensures var chunk := ChunkOf(j, delta, reason);
            Get(chunk, "id") == Some(Get(j, "id").GetOr(Null)) &&
            Get(chunk, "model") == Some(Get(j, "model").GetOr(Null)) &&
            Get(chunk, "object") == Some(Str("chat.completion.chunk")) &&
            Pointer(chunk, ["choices", "0"]) == Some(ChoiceOf(delta, reason))
  {
    var chunk := ChunkOf(j, delta, reason);
    FieldIs(chunk.fields, 0);
    FieldIs(chunk.fields, 1);
    FieldIs(chunk.fields, 2);
    FieldIs(chunk.fields, 3);
    FirstOf(chunk, ChoiceOf(delta, reason));
  }

  lemma {:induction false} FirstOf(v: Value, choice: Value)
    requires v.Obj? && Get(v, "choices") == Some(Arr([choice]))
    ensures Pointer(v, ["choices", "0"]) == Some(choice)
  {
    var all := Arr([choice]);
    assert Child(v, "choices") == Some(all) && Child(all, "0") == Some(choice);
    assert ["choices", "0"][1..] == ["0"] && ["0"][1..] == [];
    assert Pointer(choice, []) == Some(choice);
    assert Pointer(all, ["0"]) == Some(choice);
  }

  lemma {:induction false} ChoiceParts(delta: Value, reason: Value)
    ensures var choice := ChoiceOf(delta, reason);
            Get(choice, "delta") == Some(delta) && Get(choice, "finish_reason") == Some(reason)
  {
    FieldIs(ChoiceOf(delta, reason).fields, 1);
    FieldIs(ChoiceOf(delta, reason).fields, 2);
  }

  lemma {:induction false} ChunkIsRead(c: Client, j: Value, delta: Value, reason: Value)
    ensures OnChunk(c, ChunkOf(j, delta, reason)) ==
              Client(Get(j, "id").GetOr(Null), Get(j, "model").GetOr(Null), Get(delta, "role").GetOr(c.role),
                c.content + AsStr(Get(delta, "content")).GetOr(""), c.calls + AsArr(Get(delta, "tool_calls")).GetOr([]),
                if reason.Null? then c.reason else reason)
  {
    ChunkParts(j, delta, reason);
    ChoiceParts(delta, reason);
  }

  lemma {:induction false} DeltaParts(message: Value)
    ensures Get(DeltaOf(message), "role") == Some(Str("assistant"))
    ensures AsStr(Get(DeltaOf(message), "content")) == AsStr(Get(message, "content"))
    ensures AsArr(Get(DeltaOf(message), "tool_calls")) == AsArr(Get(message, "tool_calls"))
  {
    DeltaReads(message);
    FieldIs([("role", Str("assistant"))], 0);
  }

  /** What the client holds after the whole stream: the message's id, model, text, calls and reason. */
  function Complete(j: Value): Client {
    Client(Get(j, "id").GetOr(Null), Get(j, "model").GetOr(Null), Str("assistant"),
      AsStr(Pointer(j, ["choices", "0", "message", "content"])).GetOr(""),
      AsArr(Pointer(j, ["choices", "0", "message", "tool_calls"])).GetOr([]),
      Pointer(j, ["choices", "0", "finish_reason"]).GetOr(Null))
  }

  lemma {:induction false} MessageFields(j: Value, key: string)
    requires key != "0"
    ensures Get(MessageOf(j), key) == Pointer(j, ["choices", "0", "message", key])
  {
    assert ["choices", "0", "message", key] == MESSAGE_PATH + [key];
    PointerThrough(j, MESSAGE_PATH, [key]);
    assert [key][1..] == [];
    if Pointer(j, MESSAGE_PATH).Some? {
      var m := Pointer(j, MESSAGE_PATH).value;
      assert Pointer(m, [key]) == Child(m, key);
    }
  }

  lemma {:induction false} ChunksAreReceived(j: Value)
    ensures OnChunk(OnChunk(NOTHING, FirstChunk(j)), FinalChunk(j)) == Complete(j)
  {
    var c := Complete(j);
    var first := c.(reason := Null);
    FirstIsReceived(j, c);
    ChunkIsRead(first, j, Obj([]), Pointer(j, REASON_PATH).GetOr(Null));
    assert c.content + "" == c.content && c.calls + [] == c.calls;
  }

  lemma {:induction false} FirstIsReceived(j: Value, c: Client)
    requires c == Complete(j)
    ensures OnChunk(NOTHING, FirstChunk(j)) == c.(reason := Null)
  {
    MessageFields(j, "content");
    MessageFields(j, "tool_calls");
    DeltaParts(MessageOf(j));
    ChunkIsRead(NOTHING, j, DeltaOf(MessageOf(j)), Null);
    assert "" + c.content == c.content && [] + c.calls == c.calls;
  }

  function Step(): (Client, Value) -> Client {
    (c: Client, j: Value) => OnChunk(c, j)
  }

  /** Six lines of which two carry data. */
  lemma {:induction false} LinesAreFed(codec: Codec, c: Client, a: Value, b: Value)
    requires codec.Sound() && a.Obj? && b.Obj? && WellFormed(a) && WellFormed(b)
    ensures FeedBytes(EventLines.Lines(codec, Step()), Progress(c, []),
              Encode(Ended(["data: " + codec.show(a), "", "data: " + codec.show(b), "", "data: [DONE]", ""]))) ==
              Progress(OnChunk(OnChunk(c, a), b), [])
  {
    var le := "data: [DONE]";
    EndedIs("data: " + codec.show(a), "data: " + codec.show(b), le);
    ChunksAreFed(codec, c, a, b, "data: " + codec.show(b), (le + "\n") + ("" + "\n"));
    EndIsFed(codec, OnChunk(OnChunk(c, a), b), le);
  }

  lemma {:induction false} ChunksAreFed(codec: Codec, c: Client, a: Value, b: Value, lb: string, end: string)
    requires codec.Sound() && a.Obj? && b.Obj? && WellFormed(a) && WellFormed(b) && lb == "data: " + codec.show(b)
    ensures FeedBytes(EventLines.Lines(codec, Step()), Progress(c, []),
              Encode(("data: " + codec.show(a) + "\n") + (("" + "\n") + ((lb + "\n") + (("" + "\n") + end))))) ==
              FeedBytes(EventLines.Lines(codec, Step()), Progress(OnChunk(OnChunk(c, a), b), []), Encode(end))
  {
    ChunkIsFed(codec, c, a, (lb + "\n") + (("" + "\n") + end));
    ChunkIsFed(codec, OnChunk(c, a), b, end);
  }

  lemma {:induction false} EndIsFed(codec: Codec, c: Client, le: string)
    requires codec.Sound() && le == "data: [DONE]"
    ensures FeedBytes(EventLines.Lines(codec, Step()), Progress(c, []), Encode((le + "\n") + ("" + "\n"))) ==
              Progress(c, [])
  {
    assert '\n' !in le;
    EventLines.LineThenRest(codec, Step(), c, le, "" + "\n");
    EventLines.EndMarkIsSkipped(codec, Step(), c);
    EventLines.LineIsFed(codec, Step(), c, "");
    EventLines.EmptyLineIsSkipped(codec, Step(), c);
  }

  /** The line of a chunk and the empty one behind it. */
  lemma {:induction false} ChunkIsFed(codec: Codec, c: Client, a: Value, rest: string)
    requires codec.Sound() && a.Obj? && WellFormed(a)
    ensures FeedBytes(EventLines.Lines(codec, Step()), Progress(c, []),
              Encode(("data: " + codec.show(a) + "\n") + (("" + "\n") + rest))) ==
              FeedBytes(EventLines.Lines(codec, Step()), Progress(OnChunk(c, a), []), Encode(rest))
  {
    var la, c1 := "data: " + codec.show(a), OnChunk(c, a);
    EventLines.LineThenRest(codec, Step(), c, la, ("" + "\n") + rest);
    EventLines.DataLineIsRead(codec, Step(), c, a);
    EventLines.LineThenRest(codec, Step(), c1, "", rest);
    EventLines.EmptyLineIsSkipped(codec, Step(), c1);
  }

  lemma {:induction false} EndedIs(a: string, b: string, end: string)
    ensures Ended([a, "", b, "", end, ""]) ==
              (a + "\n") + (("" + "\n") + ((b + "\n") + (("" + "\n") + ((end + "\n") + ("" + "\n")))))
  {
    EndedFront("", []);
    assert ("" + "\n") + Ended([]) == "" + "\n" && [""] + [] == [""];
    EndedFront(end, [""]);
    assert [end] + [""] == [end, ""];
    EndedFront("", [end, ""]);
    assert [""] + [end, ""] == ["", end, ""];
    EndedFront(b, ["", end, ""]);
    assert [b] + ["", end, ""] == [b, "", end, ""];
    EndedFront("", [b, "", end, ""]);
    assert [""] + [b, "", end, ""] == ["", b, "", end, ""];
    EndedFront(a, ["", b, "", end, ""]);
    assert [a] + ["", b, "", end, ""] == [a, "", b, "", end, ""];
  }

  lemma {:induction false} EndedFront(line: string, rest: seq<string>)
    ensures Ended([line] + rest) == (line + "\n") + Ended(rest)
  {
    assert ([line] + rest)[1..] == rest;
  }

  /** A client that reads the synthesised stream, in whatever pieces, holds the id, the model, the role, the
      text, the calls as listed, and the reason of the first choice. */
  lemma {:induction false} ClientHasTheChoice(codec: Codec, j: Value, chunks: seq<seq<byte>>)
    requires codec.Sound() && WellFormed(j)
    requires Join(chunks, []) == Encode(Ended(StreamLines(codec.show, j)))
    ensures FeedChunks(EventLines.Lines(codec, Step()), Progress(NOTHING, []), chunks) == Progress(Complete(j), [])
  {
    ChunkingIsIrrelevant(EventLines.Lines(codec, Step()), Progress(NOTHING, []), chunks);
    ChunksWellFormed(j);
    LinesAreFed(codec, NOTHING, FirstChunk(j), FinalChunk(j));
    ChunksAreReceived(j);
  }
}
