/**
  Responses written the way each provider writes them, from counts and calls that are given: exactly
  these must come out of the batch reading and of the tally.
*/
module WrittenResponses {
  import opened Options
  import opened Text
  import opened Json
  import opened Usage
  import opened Utf8
  import opened SseFraming
  import opened SseTally
  import opened SseUsage
  import opened SseEvents

  // ----- usage objects

  function AnthropicObject(input: nat, output: nat, created: nat, read: nat): Value {
    Obj([("input_tokens", Int(input)), ("output_tokens", Int(output)),
      ("cache_creation_input_tokens", Int(created)), ("cache_read_input_tokens", Int(read))])
  }

  /** The prompt count includes what was read from the cache. */
  function OpenaiObject(input: nat, output: nat, cached: nat): Value {
    Obj([("prompt_tokens", Int(input + cached)), ("completion_tokens", Int(output)),
      ("prompt_tokens_details", Obj([("cached_tokens", Int(cached))]))])
  }

  /** So does this one; and thoughts stand beside the candidates. */
  function GoogleObject(input: nat, candidates: nat, thoughts: nat, cached: nat): Value {
    Obj([("promptTokenCount", Int(input + cached)), ("candidatesTokenCount", Int(candidates)),
      ("thoughtsTokenCount", Int(thoughts)), ("cachedContentTokenCount", Int(cached))])
  }

  lemma {:induction false} FourFields(
    a: string, x: Value, b: string, y: Value, c: string, z: Value, d: string, w: Value)
    requires a != b && a != c && a != d && b != c && b != d && c != d
    ensures var j := Obj([(a, x), (b, y), (c, z), (d, w)]);
            Get(j, a) == Some(x) && Get(j, b) == Some(y) && Get(j, c) == Some(z) && Get(j, d) == Some(w)
  {
    var fields := [(a, x), (b, y), (c, z), (d, w)];
    FieldIs(fields, 0);
    FieldIs(fields, 1);
    FieldIs(fields, 2);
    FieldIs(fields, 3);
  }

  lemma {:induction false} AnthropicIsCounted(input: nat, output: nat, created: nat, read: nat)
    requires input <= I64_MAX && output <= I64_MAX && created <= I64_MAX && read <= I64_MAX
    ensures UsageFromObj(Anthropic, AnthropicObject(input, output, created, read)) ==
              Usage(input, output, created, read)
  {
    FourFields("input_tokens", Int(input), "output_tokens", Int(output), "cache_creation_input_tokens", Int(created),
      "cache_read_input_tokens", Int(read));
  }

  lemma {:induction false} OpenaiIsCounted(input: nat, output: nat, cached: nat)
    requires input + cached <= I64_MAX && output <= I64_MAX
    ensures UsageFromObj(Openai, OpenaiObject(input, output, cached)) == Usage(input, output, 0, cached)
  {
    var fields := OpenaiObject(input, output, cached).fields;
    FieldIs(fields, 0);
    FieldIs(fields, 1);
    FieldIs(fields, 2);
    FieldIs([("cached_tokens", Int(cached))], 0);
  }

  lemma {:induction false} GoogleIsCounted(input: nat, candidates: nat, thoughts: nat, cached: nat)
    requires input + cached <= I64_MAX && candidates <= I64_MAX && thoughts <= I64_MAX
    ensures UsageFromObj(Google, GoogleObject(input, candidates, thoughts, cached)) ==
              Usage(input, candidates + thoughts, 0, cached)
  {
    FourFields("promptTokenCount", Int(input + cached), "candidatesTokenCount", Int(candidates),
      "thoughtsTokenCount", Int(thoughts), "cachedContentTokenCount", Int(cached));
  }

  /** `u` is an object in which the provider reports these counts. */
  ghost predicate Reports(p: Provider, u: Value, counts: Usage) {
    match p
    case Anthropic =>
      counts.NonNegative() && counts.input <= I64_MAX && counts.output <= I64_MAX &&
      counts.cacheCreation <= I64_MAX && counts.cacheRead <= I64_MAX &&
      u == AnthropicObject(counts.input, counts.output, counts.cacheCreation, counts.cacheRead)
    case Openai =>
      counts.NonNegative() && counts.cacheCreation == 0 && counts.input + counts.cacheRead <= I64_MAX &&
      counts.output <= I64_MAX && u == OpenaiObject(counts.input, counts.output, counts.cacheRead)
    case Google =>
      counts.NonNegative() && counts.cacheCreation == 0 && counts.input + counts.cacheRead <= I64_MAX &&
      exists candidates: nat, thoughts: nat
        {:trigger GoogleObject(counts.input, candidates, thoughts, counts.cacheRead)} ::
        candidates <= I64_MAX && thoughts <= I64_MAX && candidates + thoughts == counts.output &&
        u == GoogleObject(counts.input, candidates, thoughts, counts.cacheRead)
  }

  lemma {:induction false} PlainWellFormed(fields: seq<(string, Value)>)
    requires forall i, j :: 0 <= i < j < |fields| ==> fields[i].0 != fields[j].0
    requires forall i :: 0 <= i < |fields| ==> WellFormed(fields[i].1)
    ensures WellFormed(Obj(fields))
  {
  }

  lemma {:induction false} ObjectsWellFormed(a: nat, b: nat, c: nat, d: nat)
    ensures WellFormed(AnthropicObject(a, b, c, d)) && WellFormed(OpenaiObject(a, b, c))
    ensures WellFormed(GoogleObject(a, b, c, d))
  {
    PlainWellFormed(AnthropicObject(a, b, c, d).fields);
    PlainWellFormed([("cached_tokens", Int(c))]);
    PlainWellFormed(OpenaiObject(a, b, c).fields);
    PlainWellFormed(GoogleObject(a, b, c, d).fields);
  }

  /** Whatever counts a provider reports in its way are read back. */
  lemma {:induction false} CountsAreRead(p: Provider, u: Value, counts: Usage)
    requires Reports(p, u, counts)
    ensures UsageFromObj(p, u) == counts && u.Obj? && WellFormed(u)
  {
    match p
    case Anthropic =>
      AnthropicIsCounted(counts.input, counts.output, counts.cacheCreation, counts.cacheRead);
      ObjectsWellFormed(counts.input, counts.output, counts.cacheCreation, counts.cacheRead);
    case Openai =>
      OpenaiIsCounted(counts.input, counts.output, counts.cacheRead);
      ObjectsWellFormed(counts.input, counts.output, counts.cacheRead, 0);
    case Google =>
      var candidates: nat, thoughts: nat :|
        candidates <= I64_MAX && thoughts <= I64_MAX && candidates + thoughts == counts.output &&
        u == GoogleObject(counts.input, candidates, thoughts, counts.cacheRead);
      GoogleIsCounted(counts.input, candidates, thoughts, counts.cacheRead);
      ObjectsWellFormed(counts.input, candidates, thoughts, counts.cacheRead);
  }

  // ----- where a response and a stream carry them

  function UsageKey(p: Provider): string {
    match p case Google => "usageMetadata" case _ => "usage"
  }

  /** A response body, or an event of a stream, with a usage object. */
  function Carrying(p: Provider, u: Value): Value {
    Obj([(UsageKey(p), u)])
  }

  /** The event that starts an Anthropic stream. */
  function Starting(u: Value): Value {
    Obj([("type", Str("message_start")), ("message", Obj([("usage", u)]))])
  }

  lemma {:induction false} CarryingReads(p: Provider, u: Value, counts: Usage)
    requires Reports(p, u, counts)
    ensures UsageFromResponse(p, Carrying(p, u)) == counts
    ensures UsageObjects(Carrying(p, u)) == [u] && WellFormed(Carrying(p, u))
  {
    CountsAreRead(p, u, counts);
    FieldIs([(UsageKey(p), u)], 0);
    var j := Carrying(p, u);
    assert Get(j, UsageKey(p)) == Some(u) && Get(j, "message").None?;
    assert p == Google ==> Get(j, "usage").None?;
    assert p != Google ==> Get(j, "usageMetadata").None?;
  }

  lemma {:induction false} StartingReads(u: Value)
    requires u.Obj? && WellFormed(u)
    ensures UsageObjects(Starting(u)) == [u] && WellFormed(Starting(u))
  {
    var message := Obj([("usage", u)]);
    FieldIs(Starting(u).fields, 1);
    FieldIs(message.fields, 0);
    assert Get(Starting(u), "message") == Some(message);
    assert Get(Starting(u), "usage").None? && Get(Starting(u), "usageMetadata").None?;
    assert WellFormed(message);
  }

  /** The batch reading of a response and the tally of a stream that reports it once, however it is cut,
      both have exactly the counts that were written. */
  lemma {:induction false} WrittenCountsComeBack(r: Reader, u: Value, counts: Usage, chunks: seq<seq<byte>>)
    requires r.codec.Sound() && Reports(r.provider, u, counts)
    requires Join(chunks, []) == Encode(StreamText(r.codec.show, [Carrying(r.provider, u)]))
    ensures UsageFromResponse(r.provider, Carrying(r.provider, u)) == counts
    ensures FeedChunks(r.Read(), Progress(EMPTY, []), chunks).state.usage == counts
  {
    var e := Carrying(r.provider, u);
    CarryingReads(r.provider, u, counts);
    CountsAreRead(r.provider, u, counts);
    OneReport(r, e, u, counts, chunks);
  }

  lemma {:induction false} OneReport(r: Reader, e: Value, u: Value, counts: Usage, chunks: seq<seq<byte>>)
    requires r.codec.Sound() && AreObjects([e]) && UsageObjects(e) == [u]
    requires UsageFromObj(r.provider, u) == counts && counts.NonNegative()
    requires Join(chunks, []) == Encode(StreamText(r.codec.show, [e]))
    ensures FeedChunks(r.Read(), Progress(EMPTY, []), chunks).state.usage == counts
  {
    StreamIsTallied(r, [e], chunks);
    UsageStep(r.provider, [], e);
    OneMerges(r.provider, ZERO, [u]);
    assert [] + [e] == [e];
  }

  lemma {:induction false} TwoReports(r: Reader, a: Value, b: Value, u: Value, v: Value, first: Usage, second: Usage,
    chunks: seq<seq<byte>>)
    requires r.codec.Sound() && AreObjects([a, b]) && UsageObjects(a) == [u] && UsageObjects(b) == [v]
    requires UsageFromObj(r.provider, u) == first && UsageFromObj(r.provider, v) == second && first.NonNegative()
    requires Join(chunks, []) == Encode(StreamText(r.codec.show, [a, b]))
    ensures FeedChunks(r.Read(), Progress(EMPTY, []), chunks).state.usage == Merge(first, second)
  {
    StreamIsTallied(r, [a, b], chunks);
    TwoMerge(r.provider, a, b);
    ZeroGivesWay(first);
  }

  lemma {:induction false} ZeroGivesWay(u: Usage)
    requires u.NonNegative()
    ensures Merge(ZERO, u) == u
  {
  }

  lemma {:induction false} StartAndEnd(u: Value, counts: Usage, v: Value, final: nat, a: Value, b: Value)
    requires Reports(Anthropic, u, counts) && Reports(Anthropic, v, Usage(0, final, 0, 0)) && final > 0
    requires a == Starting(u) && b == Carrying(Anthropic, v)
    ensures UsageObjects(a) == [u] && UsageObjects(b) == [v] && AreObjects([a, b])
    ensures UsageFromObj(Anthropic, u) == counts && UsageFromObj(Anthropic, v) == Usage(0, final, 0, 0)
    ensures Merge(counts, Usage(0, final, 0, 0)) == counts.(output := final) && counts.NonNegative()
  {
    StartIs(u, counts, a);
    EndIs(v, Usage(0, final, 0, 0), b);
    OutputReplaces(counts, final);
  }

  lemma {:induction false} OutputReplaces(counts: Usage, final: nat)
    requires final > 0
    ensures Merge(counts, Usage(0, final, 0, 0)) == counts.(output := final)
  {
  }

  lemma {:induction false} EndIs(v: Value, counts: Usage, b: Value)
    requires Reports(Anthropic, v, counts) && b == Carrying(Anthropic, v)
    ensures UsageObjects(b) == [v] && b.Obj? && WellFormed(b) && UsageFromObj(Anthropic, v) == counts
  {
    CountsAreRead(Anthropic, v, counts);
    CarryingReads(Anthropic, v, counts);
  }

  lemma {:induction false} StartIs(u: Value, counts: Usage, a: Value)
    requires Reports(Anthropic, u, counts) && a == Starting(u)
    ensures UsageObjects(a) == [u] && a.Obj? && WellFormed(a)
    ensures UsageFromObj(Anthropic, u) == counts && counts.NonNegative()
  {
    CountsAreRead(Anthropic, u, counts);
    StartingReads(u);
  }

  /** An Anthropic stream reports its counts at the start and its output again at the end: the tally has
      the counts of the start with the output of the end. */
  lemma {:induction false} AnthropicStreamIsCounted(
    r: Reader, u: Value, counts: Usage, v: Value, final: nat, a: Value, b: Value, chunks: seq<seq<byte>>)
    requires r.codec.Sound() && r.provider == Anthropic && final > 0
    requires Reports(Anthropic, u, counts) && Reports(Anthropic, v, Usage(0, final, 0, 0))
    requires a == Starting(u) && b == Carrying(Anthropic, v)
    requires Join(chunks, []) == Encode(StreamText(r.codec.show, [a, b]))
    ensures FeedChunks(r.Read(), Progress(EMPTY, []), chunks).state.usage == counts.(output := final)
  {
    StartAndEnd(u, counts, v, final, a, b);
    TwoReports(r, a, b, u, v, counts, Usage(0, final, 0, 0), chunks);
  }
}
