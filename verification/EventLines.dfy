/** Reading a stream line by line with any state: what the lines of printed events do to it. */
module EventLines {
  import opened Options
  import opened Text
  import opened Json
  import opened Utf8
  import opened SseFraming
  import SseSynth

  /** One decoded, trimmed line: data is parsed and taken in, all else is skipped. */
  function OnLine<S>(codec: Codec, step: (S, Value) -> S, s: S, line: string): S {
    if !("data:" <= line) || Trim(line[5..]) == "[DONE]" then s
    else match codec.fromStr(Trim(line[5..]))
      case Some(j) => step(s, j)
      case None => s
  }

  function Lines<S>(codec: Codec, step: (S, Value) -> S): LineReader<S> {
    (s: S, line: seq<byte>) => OnLine(codec, step, s, Trim(codec.lossy(line)))
  }

  lemma {:induction false} LineIsFed<S>(codec: Codec, step: (S, Value) -> S, s: S, line: string)
    requires codec.Sound() && '\n' !in line
    ensures FeedBytes(Lines(codec, step), Progress(s, []), Encode(line + "\n")) ==
              Progress(OnLine(codec, step, s, Trim(line)), [])
  {
    EncodeConcat(line, "\n");
    assert Encode("\n") == [NEWLINE] by { assert "\n"[1..] == ""; }
    NewlineFree(line);
    FeedOneLine(Lines(codec, step), s, Encode(line));
  }

  lemma {:induction false} NameLineIsSkipped<S>(codec: Codec, step: (S, Value) -> S, s: S, name: string)
    ensures OnLine(codec, step, s, Trim("event: " + name)) == s
  {
    assert ("event: " + name)[0] == 'e';
    TrimKeepsFirst("event: " + name);
  }

  lemma {:induction false} EmptyLineIsSkipped<S>(codec: Codec, step: (S, Value) -> S, s: S)
    ensures OnLine(codec, step, s, Trim("")) == s
  {
  }

  lemma {:induction false} EndMarkIsSkipped<S>(codec: Codec, step: (S, Value) -> S, s: S)
    ensures OnLine(codec, step, s, Trim("data: [DONE]")) == s
  {
    var line := "data: [DONE]";
    TrimOfTight(line);
    assert line[5..] == " " + "[DONE]";
    TrimDropsSpace("[DONE]");
  }

  lemma {:induction false} DataLineIsRead<S>(codec: Codec, step: (S, Value) -> S, s: S, v: Value)
    requires codec.Sound() && v.Obj? && WellFormed(v)
    ensures OnLine(codec, step, s, Trim("data: " + codec.show(v))) == step(s, v)
  {
    SseSynth.DataPayload(codec.show(v));
  }

  /** A line and what follows it. */
  lemma {:induction false} LineThenRest<S>(codec: Codec, step: (S, Value) -> S, s: S, line: string, rest: string)
    requires codec.Sound() && '\n' !in line
    ensures FeedBytes(Lines(codec, step), Progress(s, []), Encode((line + "\n") + rest)) ==
              FeedBytes(Lines(codec, step), Progress(OnLine(codec, step, s, Trim(line)), []), Encode(rest))
  {
    EncodeConcat(line + "\n", rest);
    LineIsFed(codec, step, s, line);
    FeedConcat(Lines(codec, step), Progress(s, []), Encode(line + "\n"), Encode(rest));
  }
}
