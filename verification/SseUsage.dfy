/**
  The usage tallied over the events of a stream, against the usage the batch extraction reads from the
  complete response: the last count that is positive, kind by kind, against the last usage object.
*/
module SseUsage {
  import opened Options
  import opened Json
  import opened Usage
  import opened SseTally

  datatype Kind = InputTokens | OutputTokens | CacheCreation | CacheRead

  function Count(u: Usage, k: Kind): int {
    match k
    case InputTokens => u.input
    case OutputTokens => u.output
    case CacheCreation => u.cacheCreation
    case CacheRead => u.cacheRead
  }

  lemma SameCounts(u: Usage, v: Usage)
    ensures u == v <==> forall k :: Count(u, k) == Count(v, k)
  {
    if forall k :: Count(u, k) == Count(v, k) {
      assert Count(u, InputTokens) == Count(v, InputTokens) && Count(u, OutputTokens) == Count(v, OutputTokens);
      assert Count(u, CacheCreation) == Count(v, CacheCreation) && Count(u, CacheRead) == Count(v, CacheRead);
    }
  }

  // ----- the usage objects of a stream

  /** The usage after some events. */
  function UsageOf(p: Provider, events: seq<Value>): Usage {
    if events == [] then ZERO else UsageAfter(p, UsageOf(p, events[..|events| - 1]), events[|events| - 1])
  }

  function AsList(v: Option<Value>): seq<Value> {
    match v case Some(x) => [x] case None => []
  }

  /** The usage objects of one event, in the order they are merged. */
  function UsageObjects(j: Value): seq<Value> {
    AsList(MessageUsage(j)) + AsList(NonNull(Get(j, "usage"))) + AsList(NonNull(Get(j, "usageMetadata")))
  }

  function AllUsageObjects(events: seq<Value>): seq<Value> {
    if events == [] then [] else AllUsageObjects(events[..|events| - 1]) + UsageObjects(events[|events| - 1])
  }

  function MergeAll(p: Provider, start: Usage, objects: seq<Value>): Usage {
    if objects == [] then start
    else Merge(MergeAll(p, start, objects[..|objects| - 1]), UsageFromObj(p, objects[|objects| - 1]))
  }

  lemma {:induction false} MergeConcat(p: Provider, start: Usage, a: seq<Value>, b: seq<Value>)
    ensures MergeAll(p, start, a + b) == MergeAll(p, MergeAll(p, start, a), b)
  {
    if b == [] {
      assert a + b == a;
    } else {
      assert (a + b)[..|a + b| - 1] == a + b[..|b| - 1];
      MergeConcat(p, start, a, b[..|b| - 1]);
    }
  }

  lemma MergeList(p: Provider, u: Usage, v: Option<Value>)
    ensures MergeAll(p, u, AsList(v)) == MergeIf(p, u, v)
  {
    if v.Some? {
      assert [v.value][..0] == [];
    }
  }

  lemma EventMerges(p: Provider, u: Usage, j: Value)
    ensures UsageAfter(p, u, j) == MergeAll(p, u, UsageObjects(j))
  {
    var a, b, c := MessageUsage(j), NonNull(Get(j, "usage")), NonNull(Get(j, "usageMetadata"));
    MergeConcat(p, u, AsList(a) + AsList(b), AsList(c));
    MergeConcat(p, u, AsList(a), AsList(b));
    MergeList(p, u, a);
    MergeList(p, MergeIf(p, u, a), b);
    MergeList(p, MergeIf(p, MergeIf(p, u, a), b), c);
  }

  lemma {:induction false} EventsMerge(p: Provider, events: seq<Value>)
    ensures UsageOf(p, events) == MergeAll(p, ZERO, AllUsageObjects(events))
  {
    if events != [] {
      var n := |events| - 1;
      EventsMerge(p, events[..n]);
      EventMerges(p, UsageOf(p, events[..n]), events[n]);
      MergeConcat(p, ZERO, AllUsageObjects(events[..n]), UsageObjects(events[n]));
    }
  }

  // ----- the last positive count

  /** Some object counts tokens of the kind. */
  ghost predicate EverPositive(p: Provider, objects: seq<Value>, k: Kind) {
    Ever(objects, Positive(p, k))
  }

  function Positive(p: Provider, k: Kind): Value -> bool {
    v => Count(UsageFromObj(p, v), k) > 0
  }

  ghost predicate Ever(objects: seq<Value>, f: Value -> bool) {
    exists i :: 0 <= i < |objects| && f(objects[i])
  }

  lemma EverStep(objects: seq<Value>, f: Value -> bool)
    requires objects != []
    ensures Ever(objects, f) <==> Ever(objects[..|objects| - 1], f) || f(objects[|objects| - 1])
  {
    var last := |objects| - 1;
    if i :| 0 <= i < last && f(objects[i]) {
      assert f(objects[..last][i]);
    }
  }

  /** A tallied count is positive if it ever was, and zero otherwise. */
  lemma {:induction false} TalliedCount(p: Provider, objects: seq<Value>, k: Kind)
    ensures var n := Count(MergeAll(p, ZERO, objects), k); n >= 0 && (n > 0 <==> EverPositive(p, objects, k))
  {
    if objects != [] {
      var last := |objects| - 1;
      TalliedCount(p, objects[..last], k);
      MergedCount(MergeAll(p, ZERO, objects[..last]), UsageFromObj(p, objects[last]), k);
      EverStep(objects, Positive(p, k));
    }
  }

  lemma MergedCount(u: Usage, v: Usage, k: Kind)
    ensures Count(Merge(u, v), k) == if Count(v, k) > 0 then Count(v, k) else Count(u, k)
  {
  }

  /** The last object reports the kind, or no object ever did. */
  ghost predicate ReportedLast(p: Provider, objects: seq<Value>, k: Kind)
    requires objects != []
  {
    var n := Count(UsageFromObj(p, objects[|objects| - 1]), k);
    n > 0 || (n == 0 && !EverPositive(p, objects, k))
  }

  lemma LastCount(p: Provider, objects: seq<Value>, k: Kind)
    requires objects != []
    ensures Count(MergeAll(p, ZERO, objects), k) == Count(UsageFromObj(p, objects[|objects| - 1]), k) <==>
              ReportedLast(p, objects, k)
  {
    var last := |objects| - 1;
    MergedCount(MergeAll(p, ZERO, objects[..last]), UsageFromObj(p, objects[last]), k);
    TalliedCount(p, objects, k);
  }

  /** The usage of a streamed response is that of its last usage object, which the complete response
      carries, exactly if every kind that was ever positive still is there. */
  lemma StreamedUsageIsExact(p: Provider, events: seq<Value>, msg: Value)
    requires AllUsageObjects(events) != []
    requires UsageFromResponse(p, msg) == UsageFromObj(p, AllUsageObjects(events)[|AllUsageObjects(events)| - 1])
    ensures UsageOf(p, events) == UsageFromResponse(p, msg) <==>
              forall k :: ReportedLast(p, AllUsageObjects(events), k)
  {
    var objects := AllUsageObjects(events);
    EventsMerge(p, events);
    SameCounts(UsageOf(p, events), UsageFromResponse(p, msg));
    forall k
      ensures Count(UsageOf(p, events), k) == Count(UsageFromResponse(p, msg), k) <==> ReportedLast(p, objects, k)
    {
      LastCount(p, objects, k);
    }
  }

  // ----- an example

  function GoogleEvent(prompt: int, cached: int): Value {
    Obj([("usageMetadata", Obj([("promptTokenCount", Int(prompt)), ("cachedContentTokenCount", Int(cached))]))])
  }

  lemma GoogleEventReads(prompt: int, cached: int)
    requires 0 <= cached <= prompt <= I64_MAX
    ensures UsageObjects(GoogleEvent(prompt, cached)) == [GoogleEvent(prompt, cached).fields[0].1]
    ensures UsageFromObj(Google, GoogleEvent(prompt, cached).fields[0].1) == Usage(prompt - cached, 0, 0, cached)
    ensures UsageFromResponse(Google, GoogleEvent(prompt, cached)) == Usage(prompt - cached, 0, 0, cached)
  {
    var j := GoogleEvent(prompt, cached);
    var u := j.fields[0].1;
    FieldIs(j.fields, 0);
    FieldIs(u.fields, 0);
    FieldIs(u.fields, 1);
    assert Get(j, "usageMetadata") == Some(u);
    assert Get(j, "message").None? && Get(j, "usage").None?;
  }

  /** For example: a prompt of 100 tokens reported first as not cached and then as cached is tallied as 100
      tokens of either kind, though the response itself has no uncached token. */
  lemma CachedLaterCountsTwice()
    ensures UsageOf(Google, [GoogleEvent(100, 0), GoogleEvent(100, 100)]) == Usage(100, 0, 0, 100)
    ensures UsageFromResponse(Google, GoogleEvent(100, 100)) == Usage(0, 0, 0, 100)
  {
    GoogleEventReads(100, 0);
    GoogleEventReads(100, 100);
    TwoMerge(Google, GoogleEvent(100, 0), GoogleEvent(100, 100));
  }

  lemma TwoMerge(p: Provider, a: Value, b: Value)
    requires |UsageObjects(a)| == 1 && |UsageObjects(b)| == 1
    ensures UsageOf(p, [a, b]) ==
              Merge(Merge(ZERO, UsageFromObj(p, UsageObjects(a)[0])), UsageFromObj(p, UsageObjects(b)[0]))
  {
    UsageStep(p, [], a);
    UsageStep(p, [a], b);
    OneMerges(p, ZERO, UsageObjects(a));
    OneMerges(p, UsageOf(p, [a]), UsageObjects(b));
    assert [] + [a] == [a] && [a] + [b] == [a, b];
  }

  lemma UsageStep(p: Provider, events: seq<Value>, j: Value)
    ensures UsageOf(p, events + [j]) == MergeAll(p, UsageOf(p, events), UsageObjects(j))
  {
    EventMerges(p, UsageOf(p, events), j);
    assert (events + [j])[..|events|] == events;
  }

  lemma OneMerges(p: Provider, u: Usage, objects: seq<Value>)
    requires |objects| == 1
    ensures MergeAll(p, u, objects) == Merge(u, UsageFromObj(p, objects[0]))
  {
    assert objects[..0] == [];
  }
}
