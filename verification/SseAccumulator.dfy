/** The accumulator itself: fed raw chunks, it keeps the tally of the lines seen so far. */
module SseAccumulator {
  import opened Options
  import opened Text
  import opened Json
  import opened Usage
  import opened Utf8
  import opened SseFraming
  import opened SseTally
  import opened Keys

  class Accumulator {
    const reader: Reader
    var buf: seq<byte>
    var usage: Usage
    var text: string
    var tools: ToolBuffer

    ghost predicate Valid()
      reads this
    {
      NEWLINE !in buf && reader.codec.lossy([]) == ""
    }

    ghost function State(): Tally
      reads this
    {
      Tally(usage, text, tools)
    }

    ghost function Now(): Progress<Tally>
      reads this
    {
      Progress(State(), buf)
    }

    constructor (reader: Reader)
      requires reader.codec.lossy([]) == ""
      ensures Valid() && this.reader == reader && Now() == Progress(EMPTY, [])
    {
      this.reader := reader;
      buf := [];
      usage := ZERO;
      text := "";
      tools := map[];
    }

    /** Feeds a chunk; only complete lines are read, the rest waits. */
    method Feed(chunk: seq<byte>)
      requires Valid()
      modifies this
      ensures Valid() && Now() == FeedBytes(reader.Read(), old(Now()), chunk)
    {
      ghost var before := Now();
      ghost var read := reader.Read();
      buf := buf + chunk;
      var end := CompleteEnd(buf);
      if end == 0 {
        assert buf[0..] == buf;
        NoNewlineOnlyWaits(read, before, chunk);
        return;
      }
      var complete := buf[..end];
      buf := buf[end..];
      ghost var tail := buf;
      forall t ensures read(t, []) == t {
        reader.EmptyLineIsIgnored(t);
      }
      BatchIsBytewise(read, before, chunk, complete, buf);
      var lines := Split(complete, NEWLINE);
      assert lines[0..] == lines;
      for i := 0 to |lines|
        invariant Valid() && buf == tail
        invariant FeedLines(read, State(), lines[i..]) == FeedLines(read, before.state, lines)
      {
        assert lines[i..][1..] == lines[i + 1..];
        FeedLine(Trim(reader.codec.lossy(lines[i])));
      }
      assert lines[|lines|..] == [];
    }

    method MergeUsage(u: Value)
      modifies this`usage
      ensures usage == Merge(old(usage), UsageFromObj(reader.provider, u))
    {
      var n := UsageFromObj(reader.provider, u);
      if n.input > 0 { usage := usage.(input := n.input); }
      if n.output > 0 { usage := usage.(output := n.output); }
      if n.cacheCreation > 0 { usage := usage.(cacheCreation := n.cacheCreation); }
      if n.cacheRead > 0 { usage := usage.(cacheRead := n.cacheRead); }
    }

    method FeedUsage(j: Value)
      modifies this`usage
      ensures usage == UsageAfter(reader.provider, old(usage), j)
    {
      var u := MessageUsage(j);
      if u.Some? { MergeUsage(u.value); }
      u := NonNull(Get(j, "usage"));
      if u.Some? { MergeUsage(u.value); }
      u := NonNull(Get(j, "usageMetadata"));
      if u.Some? { MergeUsage(u.value); }
    }

    method FeedLine(line: string)
      modifies this`usage, this`text, this`tools
      ensures State() == reader.FeedLine(old(State()), line)
    {
      if !("data:" <= line) {
        return;
      }
      var data := Trim(line[5..]);
      if data == "[DONE]" || data == "" {
        return;
      }
      var parsed := reader.codec.fromStr(data);
      if parsed.Some? {
        FeedUsage(parsed.value);
        FeedText(parsed.value);
        FeedToolUse(parsed.value);
      }
    }

    method FeedText(j: Value)
      modifies this`text
      ensures text == old(text) + TextOf(reader.provider, j)
    {
      match reader.provider
      case Anthropic => text := text + TextOf(Anthropic, j);
      case Google => FeedPartTexts(Parts(j));
      case Openai => FeedChoiceTexts(AsArr(Get(j, "choices")).GetOr([]));
    }

    method FeedPartTexts(parts: seq<Value>)
      modifies this`text
      ensures text == old(text) + TextOfParts(parts)
    {
      for i := 0 to |parts|
        invariant text == old(text) + TextOfParts(parts[..i])
      {
        assert parts[..i + 1][..i] == parts[..i];
        text := text + AsStr(Get(parts[i], "text")).GetOr("");
      }
      assert parts[..|parts|] == parts;
    }

    method FeedChoiceTexts(choices: seq<Value>)
      modifies this`text
      ensures text == old(text) + TextOfChoices(choices)
    {
      for i := 0 to |choices|
        invariant text == old(text) + TextOfChoices(choices[..i])
      {
        NextChoiceText(old(text), choices, i);
        text := text + DeltaText(choices[i], "content");
      }
      assert choices[..|choices|] == choices;
    }

    method FeedToolUse(j: Value)
      modifies this`tools
      ensures tools == ToolsAfter(reader.provider, reader.codec.show, old(tools), j)
    {
      match reader.provider
      case Google => FeedPartCalls(Parts(j));
      case Openai => FeedChoiceCalls(AsArr(Get(j, "choices")).GetOr([]));
      case Anthropic => FeedBlockCall(j);
    }

    method FeedPartCalls(parts: seq<Value>)
      modifies this`tools
      ensures tools == PartCalls(reader.codec.show, old(tools), parts)
    {
      for i := 0 to |parts|
        invariant tools == PartCalls(reader.codec.show, old(tools), parts[..i])
      {
        assert parts[..i + 1][..i] == parts[..i];
        var fc := Get(parts[i], "functionCall");
        if fc.Some? {
          var name := AsStr(Get(fc.value, "name"));
          if name.Some? {
            var args := Get(fc.value, "args");
            var shown := if args.Some? then reader.codec.show(args.value) else "null";
            tools := tools[|tools| as int := (name.value, shown)];
          }
        }
      }
      assert parts[..|parts|] == parts;
    }

    method FeedCallFragment(tc: Value)
      modifies this`tools
      ensures tools == CallFragment(old(tools), tc)
    {
      var index := IntOr0(Get(tc, "index"));
      if index !in tools {
        tools := tools[index := ("", "")];
      }
      assert tools[index].1 + "" == tools[index].1;
      var name := AsStr(Pointer(tc, ["function", "name"]));
      if name.Some? && name.value != "" {
        tools := tools[index := (name.value, tools[index].1)];
      }
      var frag := AsStr(Pointer(tc, ["function", "arguments"]));
      if frag.Some? {
        tools := tools[index := (tools[index].0, tools[index].1 + frag.value)];
      }
      assert tools == old(tools)[index := tools[index]];
    }

    method FeedCallFragments(tcs: seq<Value>)
      modifies this`tools
      ensures tools == CallFragments(old(tools), tcs)
    {
      for i := 0 to |tcs|
        invariant tools == CallFragments(old(tools), tcs[..i])
      {
        assert tcs[..i + 1][..i] == tcs[..i];
        FeedCallFragment(tcs[i]);
      }
      assert tcs[..|tcs|] == tcs;
    }

    method FeedChoiceCalls(choices: seq<Value>)
      modifies this`tools
      ensures tools == ChoiceCalls(old(tools), choices)
    {
      for i := 0 to |choices|
        invariant tools == ChoiceCalls(old(tools), choices[..i])
      {
        assert choices[..i + 1][..i] == choices[..i];
        FeedCallFragments(AsArr(Pointer(choices[i], ["delta", "tool_calls"])).GetOr([]));
      }
      assert choices[..|choices|] == choices;
    }

    method FeedBlockCall(j: Value)
      modifies this`tools
      ensures tools == BlockCall(old(tools), j)
    {
      var index := IntOr0(Get(j, "index"));
      match AsStr(Get(j, "type"))
      case Some("content_block_start") =>
        var block := Get(j, "content_block");
        if block.Some? && IsToolUse(block.value) {
          tools := tools[index := (AsStr(Get(block.value, "name")).GetOr(""), "")];
        }
      case Some("content_block_delta") =>
        if AsStr(Pointer(j, ["delta", "type"])) == Some("input_json_delta") {
          var frag := AsStr(Pointer(j, ["delta", "partial_json"]));
          if frag.Some? && index in tools {
            tools := tools[index := (tools[index].0, tools[index].1 + frag.value)];
          }
        }
      case _ =>
    }

    /** The tool calls buffered so far, in ascending index order. */
    method CollectCalls() returns (calls: seq<ToolCall>)
      ensures calls == ToolCalls(reader.codec, tools)
    {
      calls := [];
      var rest := tools;
      while rest != map[]
        invariant ToolCalls(reader.codec, rest) + calls == ToolCalls(reader.codec, tools)
        decreases |rest|
      {
        var k := Largest(rest.Keys);
        LastCall(reader.codec, rest);
        calls := [CallFrom(reader.codec, rest[k])] + calls;
        rest := rest - {k};
      }
    }
  }

  lemma NextChoiceText(text: string, choices: seq<Value>, i: nat)
    requires i < |choices|
    ensures text + TextOfChoices(choices[..i + 1])
         == text + TextOfChoices(choices[..i]) + DeltaText(choices[i], "content")
  {
    assert choices[..i + 1][..i] == choices[..i];
  }

  method Largest(keys: set<int>) returns (m: int)
    requires keys != {}
    ensures m == MaxKey(keys)
  {
    HasMember(keys);
    m :| m in keys;
    var rest := keys - {m};
    while rest != {}
      invariant m in keys && rest <= keys && forall k :: k in keys ==> k in rest || k <= m
    {
      HasMember(rest);
      var k :| k in rest;
      m := if k > m then k else m;
      rest := rest - {k};
    }
  }

  /** Feeds a whole stream, cut into chunks in any way: the tally is that of the uncut stream. */
  method TallyStream(reader: Reader, chunks: seq<seq<byte>>) returns (t: Tally, rest: seq<byte>)
    requires reader.codec.lossy([]) == ""
    ensures Progress(t, rest) == FeedBytes(reader.Read(), Progress(EMPTY, []), Join(chunks, []))
    ensures NEWLINE !in rest
  {
    var acc := new Accumulator(reader);
    ghost var read := reader.Read();
    assert chunks[0..] == chunks;
    for i := 0 to |chunks|
      invariant fresh(acc) && acc.Valid() && acc.reader == reader
      invariant FeedChunks(read, acc.Now(), chunks[i..]) == FeedChunks(read, Progress(EMPTY, []), chunks)
    {
      assert chunks[i..][1..] == chunks[i + 1..];
      acc.Feed(chunks[i]);
    }
    assert chunks[|chunks|..] == [];
    ChunkingIsIrrelevant(read, Progress(EMPTY, []), chunks);
    t, rest := Tally(acc.usage, acc.text, acc.tools), acc.buf;
  }
}
