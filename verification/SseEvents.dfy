/** From the bytes of a stream to its events: what the tally of any stream of printed events is. */
module SseEvents {
  import opened Text
  import opened Json
  import opened Usage
  import opened Utf8
  import opened SseFraming
  import opened SseTally
  import opened SseUsage
  import opened SseDialects
  import SseSynth

  /** The events one after the other, each as a data line and an empty one. */
  function StreamText(show: Value -> string, events: seq<Value>): string {
    if events == [] then ""
    else StreamText(show, events[..|events| - 1]) + (("data: " + show(events[|events| - 1]) + "\n") + ("" + "\n"))
  }

  function TextsOf(p: Provider, events: seq<Value>): string {
    if events == [] then "" else TextsOf(p, events[..|events| - 1]) + TextOf(p, events[|events| - 1])
  }

  /** The usage, the text and the calls that all the events add up to. */
  function TallyOf(p: Provider, show: Value -> string, events: seq<Value>): Tally {
    Tally(UsageOf(p, events), TextsOf(p, events), ToolsOf(p, show, events))
  }

  ghost predicate AreObjects(events: seq<Value>) {
    forall i :: 0 <= i < |events| ==> events[i].Obj? && WellFormed(events[i])
  }

  lemma TallyStep(p: Provider, show: Value -> string, events: seq<Value>)
    requires events != []
    ensures TallyOf(p, show, events) ==
              Apply(p, show, TallyOf(p, show, events[..|events| - 1]), events[|events| - 1])
  {
  }

  lemma EventIsFed(r: Reader, t: Tally, e: Value)
    requires r.codec.Sound() && e.Obj? && WellFormed(e)
    ensures FeedBytes(r.Read(), Progress(t, []), Encode(("data: " + r.codec.show(e) + "\n") + ("" + "\n")))
         == Progress(Apply(r.provider, r.codec.show, t, e), [])
  {
    var line := "data: " + r.codec.show(e);
    var t1 := Apply(r.provider, r.codec.show, t, e);
    EncodeConcat(line + "\n", "" + "\n");
    SseSynth.LineIsRead(r, t, line);
    SseSynth.DataLineIsApplied(r, t, e);
    SseSynth.LineIsRead(r, t1, "");
    assert r.FeedLine(t1, Trim("")) == t1;
    FeedConcat(r.Read(), Progress(t, []), Encode(line + "\n"), Encode("" + "\n"));
  }

  lemma {:induction false} EventsAreFed(r: Reader, events: seq<Value>)
    requires r.codec.Sound() && AreObjects(events)
    ensures FeedBytes(r.Read(), Progress(EMPTY, []), Encode(StreamText(r.codec.show, events)))
         == Progress(TallyOf(r.provider, r.codec.show, events), [])
  {
    if events != [] {
      var n := |events| - 1;
      var t := TallyOf(r.provider, r.codec.show, events[..n]);
      var line := ("data: " + r.codec.show(events[n]) + "\n") + ("" + "\n");
      EventsAreFed(r, events[..n]);
      EncodeConcat(StreamText(r.codec.show, events[..n]), line);
      FeedConcat(r.Read(), Progress(EMPTY, []), Encode(StreamText(r.codec.show, events[..n])), Encode(line));
      EventIsFed(r, t, events[n]);
      TallyStep(r.provider, r.codec.show, events);
    }
  }

  /** Any stream of printed events, however it is cut into chunks, is tallied as the usage, the text and
      the calls its events add up to. */
  lemma StreamIsTallied(r: Reader, events: seq<Value>, chunks: seq<seq<byte>>)
    requires r.codec.Sound() && AreObjects(events)
    requires Join(chunks, []) == Encode(StreamText(r.codec.show, events))
    ensures FeedChunks(r.Read(), Progress(EMPTY, []), chunks)
         == Progress(TallyOf(r.provider, r.codec.show, events), [])
  {
    ChunkingIsIrrelevant(r.Read(), Progress(EMPTY, []), chunks);
    EventsAreFed(r, events);
  }
}
