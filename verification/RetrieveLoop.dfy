/**
  The retrieve loop: a response that asks for compressed content is answered by the proxy itself
  and the conversation is posted again, for a bounded number of rounds. The outcome reports one
  final response, the usage of the whole exchange and the number of calls served.

  The upstream is a function from the round and the posted body to a reply, or to nothing on a
  transport failure; what a call is answered with is a function as well.
*/
module RetrieveLoop {
  import opened Options
  import opened Json
  import opened Usage
  import opened Utf8
  import opened Dialects
  import SseSynth
  import SseSynthOpenai
  import TextCut

  const MAX_ROUNDS: nat := 6

  type Reply = (nat, seq<byte>)
  type Upstream = (nat, Value) -> Option<Reply>
  type Resolver = (nat, Call) -> string

  /** How the client wants its answer: as one body or as a stream, which `synth` makes of a body. */
  datatype Client = Client(stream: bool, synth: seq<byte> -> string)

  /** `bytes` is the final body, `response` what the client is sent. */
  datatype Outcome = Outcome(
    status: nat, bytes: seq<byte>, response: seq<byte>, usage: Usage, retrieveCalls: nat,
    toolCalls: seq<ToolCall>, errorBody: Option<seq<byte>>)

  // ----- one reply

  /** Usage of a response body, or none when it does not parse. */
  function BodyUsage(p: Provider, codec: Codec, bytes: seq<byte>): Usage {
    match codec.fromSlice(bytes) case Some(j) => UsageFromResponse(p, j) case None => ZERO
  }

  function BodyCalls(p: Provider, codec: Codec, bytes: seq<byte>): seq<ToolCall> {
    match codec.fromSlice(bytes) case Some(j) => CallsFromResponse(p, codec, j) case None => []
  }

  /** The calls of a reply that the proxy answers itself. */
  function ServedCalls(d: Dialect, codec: Codec, r: Reply): seq<Call> {
    match codec.fromSlice(r.1)
    case Some(j) => if r.0 < 400 && !d.foreign(j) then d.calls(j) else []
    case None => []
  }

  function Messages(body: Value): Option<seq<Value>> {
    AsArr(Get(body, "messages"))
  }

  function ResolveAll(resolve: Resolver, round: nat, calls: seq<Call>): seq<(Call, string)> {
    if calls == [] then []
    else ResolveAll(resolve, round, calls[..|calls| - 1]) + [(calls[|calls| - 1], resolve(round, calls[|calls| - 1]))]
  }

  /** The body of the next round: the same conversation with the follow-up behind it. */
  function NextBody(d: Dialect, codec: Codec, resolve: Resolver, round: nat, body: Value, r: Reply): Value {
    match (Messages(body), codec.fromSlice(r.1))
    case (Some(ms), Some(j)) =>
      Put(body, "messages", Arr(ms + d.followup(j, ResolveAll(resolve, round, d.calls(j)))))
    case _ => body
  }

  /** Another round follows. */
  predicate Continues(d: Dialect, codec: Codec, body: Value, r: Reply) {
    ServedCalls(d, codec, r) != [] && Messages(body).Some?
  }

  // ----- whole exchanges

  function SumUsage(p: Provider, codec: Codec, rs: seq<Reply>): Usage {
    if rs == [] then ZERO else SumUsage(p, codec, rs[..|rs| - 1]).Plus(BodyUsage(p, codec, rs[|rs| - 1].1))
  }

  function SumServed(d: Dialect, codec: Codec, rs: seq<Reply>): nat {
    if rs == [] then 0 else SumServed(d, codec, rs[..|rs| - 1]) + |ServedCalls(d, codec, rs[|rs| - 1])|
  }

  /** `posts` and `replies` are what the protocol exchanges from the first body on. */
  ghost predicate Exchange(d: Dialect, codec: Codec, first: Value, post: Upstream, resolve: Resolver,
    posts: seq<Value>, replies: seq<Reply>)
  {
    |posts| <= MAX_ROUNDS && |replies| <= |posts| <= |replies| + 1 &&
    (posts != [] ==> posts[0] == first) &&
    (forall i :: 0 <= i < |replies| ==> post(i, posts[i]) == Some(replies[i])) &&
    (forall i :: 0 <= i < |posts| - 1 ==>
      Continues(d, codec, posts[i], replies[i]) &&
      posts[i + 1] == NextBody(d, codec, resolve, i, posts[i], replies[i]))
  }

  /** The last post got no reply. */
  predicate Failed(posts: seq<Value>, replies: seq<Reply>) {
    |replies| < |posts|
  }

  /** Nothing is left to do: a failure, the bound, or a reply that ends the loop. */
  ghost predicate Finished(d: Dialect, codec: Codec, post: Upstream, posts: seq<Value>, replies: seq<Reply>) {
    posts != [] && |replies| <= |posts| &&
    if Failed(posts, replies) then |posts| == |replies| + 1 && post(|replies|, posts[|replies|]).None?
    else |posts| == MAX_ROUNDS || !Continues(d, codec, posts[|posts| - 1], replies[|replies| - 1])
  }

  /** The whole exchange, from the first post to its end. */
  ghost predicate Complete(d: Dialect, codec: Codec, first: Value, post: Upstream, resolve: Resolver,
    posts: seq<Value>, replies: seq<Reply>)
  {
    Exchange(d, codec, first, post, resolve, posts, replies) && Finished(d, codec, post, posts, replies)
  }

  /** What the outcome counts: every reply once, and the last one again after a late failure. */
  function Reported(p: Provider, codec: Codec, posts: seq<Value>, replies: seq<Reply>): Usage {
    var sum := SumUsage(p, codec, replies);
    if Failed(posts, replies) && replies != [] then sum.Plus(BodyUsage(p, codec, replies[|replies| - 1].1)) else sum
  }

  // ----- steps of the loop

  lemma SumMore(d: Dialect, codec: Codec, rs: seq<Reply>, r: Reply)
    ensures SumUsage(d.provider, codec, rs + [r])
         == SumUsage(d.provider, codec, rs).Plus(BodyUsage(d.provider, codec, r.1))
    ensures SumServed(d, codec, rs + [r]) == SumServed(d, codec, rs) + |ServedCalls(d, codec, r)|
  {
    assert (rs + [r])[..|rs|] == rs;
  }

  method ResolveCalls(resolve: Resolver, round: nat, calls: seq<Call>, served0: nat)
    returns (resolved: seq<(Call, string)>, served: nat)
    ensures resolved == ResolveAll(resolve, round, calls) && served == served0 + |calls|
  {
    resolved, served := [], served0;
    for i := 0 to |calls|
      invariant resolved == ResolveAll(resolve, round, calls[..i]) && served == served0 + i
    {
      assert calls[..i + 1][..i] == calls[..i];
      var content := resolve(round, calls[i]);
      served := served + 1;
      resolved := resolved + [(calls[i], content)];
    }
    assert calls[..|calls|] == calls;
  }

  /** `body` is what the protocol posts next. */
  ghost predicate NextToPost(d: Dialect, codec: Codec, first: Value, resolve: Resolver,
    posts: seq<Value>, replies: seq<Reply>, body: Value)
  {
    |posts| == |replies| &&
    if posts == [] then body == first
    else
      var k := |posts| - 1;
      Continues(d, codec, posts[k], replies[k]) && body == NextBody(d, codec, resolve, k, posts[k], replies[k])
  }

  lemma Posting(d: Dialect, codec: Codec, first: Value, post: Upstream, resolve: Resolver,
    posts: seq<Value>, replies: seq<Reply>, body: Value)
    requires Exchange(d, codec, first, post, resolve, posts, replies) && |posts| < MAX_ROUNDS
    requires NextToPost(d, codec, first, resolve, posts, replies, body)
    ensures Exchange(d, codec, first, post, resolve, posts + [body], replies)
  {
    var more := posts + [body];
    forall i | 0 <= i < |more| - 1
      ensures Continues(d, codec, more[i], replies[i])
      ensures more[i + 1] == NextBody(d, codec, resolve, i, more[i], replies[i])
    {
      assert more[i] == posts[i];
    }
  }

  lemma Replying(d: Dialect, codec: Codec, first: Value, post: Upstream, resolve: Resolver,
    posts: seq<Value>, replies: seq<Reply>, r: Reply)
    requires Exchange(d, codec, first, post, resolve, posts, replies) && |replies| < |posts|
    requires post(|replies|, posts[|replies|]) == Some(r)
    ensures Exchange(d, codec, first, post, resolve, posts, replies + [r])
  {
  }

  // ----- what the client gets

  /** A response body without its retrieve calls; one that has none, or does not parse, as it is. */
  function Sanitised(d: Dialect, codec: Codec, bytes: seq<byte>): seq<byte> {
    match codec.fromSlice(bytes)
    case None => bytes
    case Some(j) =>
      match d.sanitize(j)
      case Some(clean) => Encode(codec.show(clean))
      case None => bytes
  }

  /** The body handed on for a final reply: errors as they are. */
  function Delivered(d: Dialect, codec: Codec, r: Reply): seq<byte> {
    if r.0 < 400 then Sanitised(d, codec, r.1) else r.1
  }

  lemma SanitizedIsRead(d: Dialect, codec: Codec, j: Value, clean: Value)
    requires d.Lawful() && codec.Sound() && WellFormed(j) && d.sanitize(j) == Some(clean)
    ensures codec.fromSlice(Encode(codec.show(clean))) == Some(clean) && d.IsCleanOf(clean, j)
  {
  }

  /** The client can answer everything it gets, the usage is the one reported upstream, and sanitising
      again changes nothing. */
  lemma SanitisedIsClean(d: Dialect, codec: Codec, bytes: seq<byte>)
    requires d.Lawful() && codec.Sound()
    ensures var out := Sanitised(d, codec, bytes);
            BodyUsage(d.provider, codec, out) == BodyUsage(d.provider, codec, bytes) &&
            (codec.fromSlice(out).Some? <==> codec.fromSlice(bytes).Some?) &&
            (codec.fromSlice(out).Some? ==> d.calls(codec.fromSlice(out).value) == []) &&
            Sanitised(d, codec, out) == out
  {
    var parsed := codec.fromSlice(bytes);
    assert codec.ParsesWell(bytes);
    if parsed.Some? && d.sanitize(parsed.value).Some? {
      var clean := d.sanitize(parsed.value).value;
      SanitizedIsRead(d, codec, parsed.value, clean);
      assert d.sanitize(clean).None?;
    }
  }

  method ForClient(d: Dialect, codec: Codec, bytes: seq<byte>) returns (out: seq<byte>)
    ensures out == Sanitised(d, codec, bytes)
  {
    out := bytes;
    var parsed := codec.fromSlice(bytes);
    if parsed.Some? {
      var clean := d.sanitize(parsed.value);
      if clean.Some? {
        out := Encode(codec.show(clean.value));
      }
    }
  }

  function ResponseFor(client: Client, status: nat, bytes: seq<byte>): seq<byte> {
    if client.stream && status < 400 then Encode(client.synth(bytes)) else bytes
  }

  ghost predicate IsErrorOf(codec: Codec, status: nat, bytes: seq<byte>, error: Option<seq<byte>>) {
    if status >= 400 then TextCut.IsStoredError(bytes, codec.lossy, error) else error.None?
  }

  /** What is recorded of the final body, and how the client gets it. */
  ghost predicate Describes(o: Outcome, p: Provider, codec: Codec, client: Client) {
    o.response == ResponseFor(client, o.status, o.bytes) && o.toolCalls == BodyCalls(p, codec, o.bytes) &&
    IsErrorOf(codec, o.status, o.bytes, o.errorBody)
  }

  method CollectBodyCalls(p: Provider, codec: Codec, bytes: seq<byte>) returns (calls: seq<ToolCall>)
    ensures calls == BodyCalls(p, codec, bytes)
  {
    calls := [];
    var parsed := codec.fromSlice(bytes);
    if parsed.Some? {
      calls := ToolCallsFromResponse(p, codec, parsed.value);
    }
  }

  /** The end of the loop: what is handed on, and what is reported. */
  method Finalize(d: Dialect, codec: Codec, client: Client, status: nat, bytes: seq<byte>,
    prior: Usage, retrieveCalls: nat) returns (o: Outcome)
    requires d.Lawful() && codec.Sound()
    ensures o.status == status && o.retrieveCalls == retrieveCalls
    ensures o.usage == prior.Plus(BodyUsage(d.provider, codec, bytes))
    ensures o.bytes == Delivered(d, codec, (status, bytes)) && Describes(o, d.provider, codec, client)
  {
    var last := bytes;
    if status < 400 {
      last := ForClient(d, codec, last);
      SanitisedIsClean(d, codec, bytes);
    }
    var usage := BodyUsage(d.provider, codec, last);
    var calls := CollectBodyCalls(d.provider, codec, last);
    var error: Option<seq<byte>> := None;
    if status >= 400 {
      error := TextCut.StoredError(last, codec.lossy);
    }
    o := Outcome(status, last, ResponseFor(client, status, last), usage.Plus(prior), retrieveCalls, calls, error);
  }

  /** Usage of the previous round is added at the start of the next one. */
  function PriorWith(p: Provider, codec: Codec, prior: Usage, lastBytes: seq<byte>): Usage {
    if lastBytes == [] then prior
    else match codec.fromSlice(lastBytes)
      case Some(prev) => prior.Plus(UsageFromResponse(p, prev))
      case None => prior
  }

  lemma PriorWithIs(p: Provider, codec: Codec, prior: Usage, lastBytes: seq<byte>)
    ensures PriorWith(p, codec, prior, lastBytes)
         == if lastBytes == [] then prior else prior.Plus(BodyUsage(p, codec, lastBytes))
  {
    assert prior.Plus(ZERO) == prior;
  }

  lemma SumUsageLast(p: Provider, codec: Codec, replies: seq<Reply>)
    requires replies != []
    ensures SumUsage(p, codec, replies)
         == SumUsage(p, codec, replies[..|replies| - 1]).Plus(BodyUsage(p, codec, replies[|replies| - 1].1))
  {
  }

  lemma EmptyBodyUsage(p: Provider, codec: Codec, bytes: seq<byte>)
    requires codec.ParsesWell(bytes) && bytes == []
    ensures BodyUsage(p, codec, bytes) == ZERO
  {
  }

  lemma PlusZero(u: Usage, v: Usage)
    ensures u.Plus(v) == u <==> v == ZERO
  {
  }

  lemma PriorIsSum(p: Provider, codec: Codec, replies: seq<Reply>, prior: Usage, lastBytes: seq<byte>)
    requires codec.ParsesWell(lastBytes)
    requires if replies == [] then lastBytes == [] && prior == ZERO
             else lastBytes == replies[|replies| - 1].1 && prior == SumUsage(p, codec, replies[..|replies| - 1])
    ensures PriorWith(p, codec, prior, lastBytes) == SumUsage(p, codec, replies)
  {
    PriorWithIs(p, codec, prior, lastBytes);
    if replies != [] {
      SumUsageLast(p, codec, replies);
      if lastBytes == [] {
        EmptyBodyUsage(p, codec, lastBytes);
        PlusZero(prior, BodyUsage(p, codec, lastBytes));
      }
    }
  }

  /** Decides on one reply: serves its calls and extends the conversation, or ends the loop. */
  method Answer(d: Dialect, codec: Codec, resolve: Resolver, round: nat, body: Value, reply: Reply, served0: nat)
    returns (next: Option<Value>, lastBytes: seq<byte>, served: nat)
    requires d.Lawful() && codec.Sound()
    ensures next.Some? <==> Continues(d, codec, body, reply)
    ensures next.Some? ==> next.value == NextBody(d, codec, resolve, round, body, reply) && lastBytes == reply.1
    ensures BodyUsage(d.provider, codec, lastBytes) == BodyUsage(d.provider, codec, reply.1)
    ensures Delivered(d, codec, (reply.0, lastBytes)) == Delivered(d, codec, reply)
    ensures served == served0 + |ServedCalls(d, codec, reply)|
  {
    next, lastBytes, served := None, reply.1, served0;
    if reply.0 >= 400 {
      return;
    }
    var parsed := codec.fromSlice(lastBytes);
    if parsed.None? {
      return;
    }
    var j := parsed.value;
    var calls := d.calls(j);
    if calls == [] {
      return;
    }
    if d.foreign(j) {
      lastBytes := ForClient(d, codec, lastBytes);
      SanitisedIsClean(d, codec, reply.1);
      return;
    }
    var resolved;
    resolved, served := ResolveCalls(resolve, round, calls, served);
    var messages := Messages(body);
    if messages.Some? {
      next := Some(Put(body, "messages", Arr(messages.value + d.followup(j, resolved))));
    }
  }

  /** After the last reply was looked at: it is not in `prior` yet. */
  lemma ReportedLast(p: Provider, codec: Codec, posts: seq<Value>, replies: seq<Reply>, prior: Usage, bytes: seq<byte>)
    requires |posts| == |replies| > 0 && prior == SumUsage(p, codec, replies[..|replies| - 1])
    requires BodyUsage(p, codec, bytes) == BodyUsage(p, codec, replies[|replies| - 1].1)
    ensures Reported(p, codec, posts, replies) == prior.Plus(BodyUsage(p, codec, bytes))
  {
    SumUsageLast(p, codec, replies);
  }

  /** After a failed post: it is in `prior` already. */
  lemma ReportedFailed(p: Provider, codec: Codec, posts: seq<Value>, replies: seq<Reply>, prior: Usage)
    requires |posts| == |replies| + 1 > 1 && prior == SumUsage(p, codec, replies)
    ensures Reported(p, codec, posts, replies) == prior.Plus(BodyUsage(p, codec, replies[|replies| - 1].1))
  {
  }

  /** What the loop knows of its last reply: `prior` holds the usage of the replies before it. */
  ghost predicate Tracks(p: Provider, codec: Codec, replies: seq<Reply>, status: nat, bytes: seq<byte>, prior: Usage) {
    if replies == [] then bytes == [] && prior == ZERO
    else
      var last := replies[|replies| - 1];
      status == last.0 && bytes == last.1 && prior == SumUsage(p, codec, replies[..|replies| - 1])
  }

  /** The exchange is over, and status, bytes, prior usage and calls are what the end of the loop needs. */
  ghost predicate Ended(d: Dialect, codec: Codec, first: Value, post: Upstream, resolve: Resolver,
    posts: seq<Value>, replies: seq<Reply>, status: nat, bytes: seq<byte>, prior: Usage, served: nat)
  {
    Complete(d, codec, first, post, resolve, posts, replies) &&
    replies != [] && status == replies[|replies| - 1].0 && served == SumServed(d, codec, replies) &&
    Delivered(d, codec, (status, bytes)) == Delivered(d, codec, replies[|replies| - 1]) &&
    Reported(d.provider, codec, posts, replies) == prior.Plus(BodyUsage(d.provider, codec, bytes))
  }

  lemma EndsWithReply(d: Dialect, codec: Codec, first: Value, post: Upstream, resolve: Resolver,
    posts: seq<Value>, replies: seq<Reply>, status: nat, bytes: seq<byte>, prior: Usage, served: nat)
    requires Complete(d, codec, first, post, resolve, posts, replies) && !Failed(posts, replies)
    requires |replies| > 0 && served == SumServed(d, codec, replies)
    requires prior == SumUsage(d.provider, codec, replies[..|replies| - 1])
    requires var last := replies[|replies| - 1];
             status == last.0 && Delivered(d, codec, (status, bytes)) == Delivered(d, codec, last) &&
             BodyUsage(d.provider, codec, bytes) == BodyUsage(d.provider, codec, last.1)
    ensures Ended(d, codec, first, post, resolve, posts, replies, status, bytes, prior, served)
  {
    ReportedLast(d.provider, codec, posts, replies, prior, bytes);
  }

  lemma EndsByFailure(d: Dialect, codec: Codec, first: Value, post: Upstream, resolve: Resolver,
    posts: seq<Value>, replies: seq<Reply>, status: nat, bytes: seq<byte>, prior: Usage, served: nat)
    requires Complete(d, codec, first, post, resolve, posts, replies) && Failed(posts, replies)
    requires |replies| > 0 && served == SumServed(d, codec, replies) && prior == SumUsage(d.provider, codec, replies)
    requires var last := replies[|replies| - 1]; status == last.0 && bytes == last.1
    ensures Ended(d, codec, first, post, resolve, posts, replies, status, bytes, prior, served)
  {
    ReportedFailed(d.provider, codec, posts, replies, prior);
  }

  /** Usage of the last reply joins what came before it. */
  method AddPrior(p: Provider, codec: Codec, ghost replies: seq<Reply>, ghost status: nat,
    bytes: seq<byte>, prior0: Usage) returns (prior: Usage)
    requires codec.Sound() && Tracks(p, codec, replies, status, bytes, prior0)
    ensures prior == SumUsage(p, codec, replies)
  {
    assert codec.ParsesWell(bytes);
    PriorIsSum(p, codec, replies, prior0, bytes);
    prior := PriorWith(p, codec, prior0, bytes);
  }

  /** One reply: the next body to post, or the end of the exchange. */
  method TakeReply(d: Dialect, codec: Codec, ghost first: Value, ghost post: Upstream, resolve: Resolver,
    round: nat, body: Value, reply: Reply, served0: nat,
    ghost posts: seq<Value>, ghost replies0: seq<Reply>, ghost prior: Usage)
    returns (next: Option<Value>, lastBytes: seq<byte>, served: nat, ghost replies: seq<Reply>)
    requires d.Lawful() && codec.Sound()
    requires Exchange(d, codec, first, post, resolve, posts, replies0)
    requires round == |replies0| && |posts| == round + 1 && posts[round] == body && post(round, body) == Some(reply)
    requires served0 == SumServed(d, codec, replies0) && prior == SumUsage(d.provider, codec, replies0)
    ensures replies == replies0 + [reply] && Exchange(d, codec, first, post, resolve, posts, replies)
    ensures served == SumServed(d, codec, replies)
    ensures next.Some? ==>
              NextToPost(d, codec, first, resolve, posts, replies, next.value) &&
              Tracks(d.provider, codec, replies, reply.0, lastBytes, prior)
    ensures next.None? || |posts| == MAX_ROUNDS ==>
              Ended(d, codec, first, post, resolve, posts, replies, reply.0, lastBytes, prior, served)
  {
    Replying(d, codec, first, post, resolve, posts, replies0, reply);
    SumMore(d, codec, replies0, reply);
    replies := replies0 + [reply];
    assert replies[..|replies| - 1] == replies0;
    next, lastBytes, served := Answer(d, codec, resolve, round, body, reply, served0);
    if next.None? || |posts| == MAX_ROUNDS {
      EndsWithReply(d, codec, first, post, resolve, posts, replies, reply.0, lastBytes, prior, served);
    }
  }

  /** The loop. `posts` and `replies` record the exchange. */
  method Loop(d: Dialect, codec: Codec, first: Value, post: Upstream, resolve: Resolver)
    returns (ok: bool, lastStatus: nat, lastBytes: seq<byte>, prior: Usage, retrieveCalls: nat,
      ghost posts: seq<Value>, ghost replies: seq<Reply>)
    requires d.Lawful() && codec.Sound()
    ensures ok ==> Ended(d, codec, first, post, resolve, posts, replies, lastStatus, lastBytes, prior, retrieveCalls)
    ensures !ok ==> posts == [first] && replies == [] && post(0, first).None?
  {
    var body := first;
    ok, lastStatus, lastBytes, prior, retrieveCalls := true, 0, [], ZERO, 0;
    posts, replies := [], [];
    var round := 0;
    while round < MAX_ROUNDS
      invariant ok && round == |posts| == |replies| <= MAX_ROUNDS
      invariant Exchange(d, codec, first, post, resolve, posts, replies)
      invariant NextToPost(d, codec, first, resolve, posts, replies, body)
      invariant Tracks(d.provider, codec, replies, lastStatus, lastBytes, prior)
      invariant retrieveCalls == SumServed(d, codec, replies)
      invariant round == MAX_ROUNDS ==>
                  Ended(d, codec, first, post, resolve, posts, replies, lastStatus, lastBytes, prior, retrieveCalls)
    {
      prior := AddPrior(d.provider, codec, replies, lastStatus, lastBytes, prior);
      Posting(d, codec, first, post, resolve, posts, replies, body);
      var reply := post(round, body);
      posts := posts + [body];
      if reply.None? {
        ok := round > 0;
        if ok {
          EndsByFailure(d, codec, first, post, resolve, posts, replies, lastStatus, lastBytes, prior, retrieveCalls);
        }
        return;
      }
      lastStatus := reply.value.0;
      var next;
      next, lastBytes, retrieveCalls, replies :=
        TakeReply(d, codec, first, post, resolve, round, body, reply.value, retrieveCalls, posts, replies, prior);
      if next.None? {
        return;
      }
      body := next.value;
      round := round + 1;
    }
  }

  /** The outcome is nothing without a reply, and otherwise the last reply as the client may see it,
      with usage and calls counted over all replies. */
  ghost predicate Reports(d: Dialect, codec: Codec, client: Client, outcome: Option<Outcome>,
    posts: seq<Value>, replies: seq<Reply>)
  {
    (outcome.None? <==> replies == []) &&
    (outcome.Some? ==>
      var o, last := outcome.value, replies[|replies| - 1];
      o.status == last.0 && o.bytes == Delivered(d, codec, last) && Describes(o, d.provider, codec, client) &&
      o.usage == Reported(d.provider, codec, posts, replies) &&
      o.retrieveCalls == SumServed(d, codec, replies))
  }

  /** Nothing on a failed first post, and otherwise the outcome of the loop. */
  method Run(d: Dialect, codec: Codec, client: Client, request: Value, post: Upstream, resolve: Resolver)
    returns (outcome: Option<Outcome>)
    requires d.Lawful() && codec.Sound()
    ensures outcome.None? <==> post(0, d.prepare(request)).None?
    ensures exists posts, replies ::
              Complete(d, codec, d.prepare(request), post, resolve, posts, replies) &&
              Reports(d, codec, client, outcome, posts, replies)
  {
    ghost var posts, replies;
    var ok, status, bytes, prior, served;
    ok, status, bytes, prior, served, posts, replies := Loop(d, codec, d.prepare(request), post, resolve);
    if ok {
      var o := Finalize(d, codec, client, status, bytes, prior, served);
      outcome := Some(o);
    } else {
      outcome := None;
    }
    assert Complete(d, codec, d.prepare(request), post, resolve, posts, replies) &&
           Reports(d, codec, client, outcome, posts, replies);
  }

  // ----- what a run means

  /** Usage is reported exactly unless a post failed after a reply that reported some: that reply
      is counted once before the failed post and once at the end. */
  lemma ReportedIsExact(d: Dialect, codec: Codec, client: Client, o: Outcome, posts: seq<Value>, replies: seq<Reply>)
    requires Reports(d, codec, client, Some(o), posts, replies)
    ensures o.usage == SumUsage(d.provider, codec, replies)
       <==> !Failed(posts, replies) || BodyUsage(d.provider, codec, replies[|replies| - 1].1) == ZERO
  {
    PlusZero(SumUsage(d.provider, codec, replies), BodyUsage(d.provider, codec, replies[|replies| - 1].1));
  }

  /** A successful body that parses leaves the client nothing to retrieve. */
  lemma NothingLeftToRetrieve(d: Dialect, codec: Codec, client: Client, o: Outcome,
    posts: seq<Value>, replies: seq<Reply>)
    requires d.Lawful() && codec.Sound() && Reports(d, codec, client, Some(o), posts, replies)
    ensures o.status < 400 && codec.fromSlice(o.bytes).Some? ==> d.calls(codec.fromSlice(o.bytes).value) == []
    ensures BodyUsage(d.provider, codec, o.bytes) == BodyUsage(d.provider, codec, replies[|replies| - 1].1)
  {
    SanitisedIsClean(d, codec, replies[|replies| - 1].1);
  }

  // ----- a late failure

  /** A message that retrieves something and used 10 and 5 tokens. */
  function Retrieving(usage: Value, block: Value): Value {
    Obj([("content", Arr([block])), ("usage", usage)])
  }

  function TenAndFive(): Value {
    Obj([("input_tokens", Int(10)), ("output_tokens", Int(5))])
  }

  function RetrieveBlock(): Value {
    Obj([("type", Str("tool_use")), ("name", Str(RETRIEVE_TOOL))])
  }

  /** Answers the first post and fails from then on. */
  function OnceOnly(reply: Reply): Upstream {
    (round: nat, body: Value) => if round == 0 then Some(reply) else None
  }

  lemma TenAndFiveIsRead()
    ensures UsageFromObj(Anthropic, TenAndFive()) == Usage(10, 5, 0, 0) && WellFormed(TenAndFive())
  {
    FieldIs(TenAndFive().fields, 0);
    FieldIs(TenAndFive().fields, 1);
  }

  lemma RetrieveBlockIsRead()
    ensures IsRetrieveBlock(RetrieveBlock()) && WellFormed(RetrieveBlock())
  {
    FieldIs(RetrieveBlock().fields, 0);
    FieldIs(RetrieveBlock().fields, 1);
  }

  lemma RetrievingIsRead(usage: Value, block: Value)
    requires IsRetrieveBlock(block) && WellFormed(block) && WellFormed(usage)
    ensures var msg := Retrieving(usage, block);
            WellFormed(msg) && UsageFromResponse(Anthropic, msg) == UsageFromObj(Anthropic, usage) &&
            |AnthropicCalls(msg)| == 1 && !AnthropicForeign(msg)
  {
    var msg := Retrieving(usage, block);
    FieldIs(msg.fields, 0);
    FieldIs(msg.fields, 1);
    assert ContentBlocks(msg) == [block] && [block][1..] == [];
    assert WellFormed(Arr([block]));
    assert Pick([block], IsRetrieveBlock) == [block] + Pick([], IsRetrieveBlock);
  }

  function RetrievingReply(codec: Codec): Reply {
    (200, Encode(codec.show(Retrieving(TenAndFive(), RetrieveBlock()))))
  }

  function EmptyRequest(): Value {
    Obj([("messages", Arr([]))])
  }

  lemma ReplyIsRead(codec: Codec) returns (msg: Value)
    requires codec.Sound()
    ensures codec.fromSlice(RetrievingReply(codec).1) == Some(msg)
    ensures AnthropicCalls(msg) != [] && !AnthropicForeign(msg)
    ensures UsageFromResponse(Anthropic, msg) == Usage(10, 5, 0, 0)
  {
    msg := Retrieving(TenAndFive(), RetrieveBlock());
    TenAndFiveIsRead();
    RetrieveBlockIsRead();
    RetrievingIsRead(TenAndFive(), RetrieveBlock());
    assert codec.show(msg) == codec.show(msg);
  }

  /** The whole exchange of an empty conversation with an upstream that answers once. */
  ghost predicate FailsLate(codec: Codec, reply: Reply, resolve: Resolver, posts: seq<Value>, replies: seq<Reply>) {
    Complete(AnthropicDialect(NOTICE), codec, NonStreaming(EmptyRequest()), OnceOnly(reply), resolve, posts, replies)
  }

  lemma LateFailureIsTwice(codec: Codec, client: Client, resolve: Resolver, reply: Reply, msg: Value,
    outcome: Option<Outcome>, posts: seq<Value>, replies: seq<Reply>)
    requires reply.0 < 400 && codec.fromSlice(reply.1) == Some(msg)
    requires AnthropicCalls(msg) != [] && !AnthropicForeign(msg)
    requires FailsLate(codec, reply, resolve, posts, replies)
    requires Reports(AnthropicDialect(NOTICE), codec, client, outcome, posts, replies)
    ensures replies == [reply] && SumUsage(Anthropic, codec, replies) == UsageFromResponse(Anthropic, msg)
    ensures var usage := UsageFromResponse(Anthropic, msg);
            outcome.Some? && outcome.value.usage == usage.Plus(usage)
  {
    EmptyConversation();
    OneRoundThenFailure(AnthropicDialect(NOTICE), codec, NonStreaming(EmptyRequest()), resolve, reply, msg,
      posts, replies);
    SumOfOne(Anthropic, codec, replies);
  }

  /** For example: a message of 10 and 5 tokens that retrieves something, and then a failed post. The
      loop reports 20 and 10. */
  method LateFailureCountsTwice(codec: Codec, stream: bool, resolve: Resolver) returns (outcome: Option<Outcome>)
    requires codec.Sound()
    ensures outcome.Some? && outcome.value.usage == Usage(20, 10, 0, 0)
    ensures exists posts :: FailsLate(codec, RetrievingReply(codec), resolve, posts, [RetrievingReply(codec)])
    ensures SumUsage(Anthropic, codec, [RetrievingReply(codec)]) == Usage(10, 5, 0, 0)
  {
    outcome := RunAnthropic(codec, stream, EmptyRequest(), OnceOnly(RetrievingReply(codec)), resolve);
    ghost var posts, replies :|
      FailsLate(codec, RetrievingReply(codec), resolve, posts, replies) &&
      Reports(AnthropicDialect(NOTICE), codec, AnthropicClient(codec, stream), outcome, posts, replies);
    ghost var msg := ReplyIsRead(codec);
    LateFailureIsTwice(codec, AnthropicClient(codec, stream), resolve, RetrievingReply(codec), msg,
      outcome, posts, replies);
  }

  lemma EmptyConversation()
    ensures Messages(NonStreaming(EmptyRequest())) == Some([])
  {
    var body := EmptyRequest();
    FieldIs(body.fields, 0);
    assert Get(NonStreaming(body), "messages") == Get(body, "messages");
  }

  /** With a reply that continues and a failure after it, the exchange is one reply and a failed post. */
  lemma OneRoundThenFailure(d: Dialect, codec: Codec, first: Value, resolve: Resolver, reply: Reply, msg: Value,
    posts: seq<Value>, replies: seq<Reply>)
    requires reply.0 < 400 && codec.fromSlice(reply.1) == Some(msg) && d.calls(msg) != [] && !d.foreign(msg)
    requires Messages(first).Some?
    requires Complete(d, codec, first, OnceOnly(reply), resolve, posts, replies)
    ensures |posts| == 2 && replies == [reply]
  {
    var post := OnceOnly(reply);
    assert Continues(d, codec, first, reply);
    var second := NextBody(d, codec, resolve, 0, first, reply);
    assert post(0, first) == Some(reply) && post(1, second) == None;
    assert Complete(d, codec, first, post, resolve, [first, second], [reply]);
    CompleteIsUnique(d, codec, first, post, resolve, posts, replies, [first, second], [reply]);
  }

  lemma SumOfNone(p: Provider, codec: Codec)
    ensures SumUsage(p, codec, []) == ZERO
  {
  }

  lemma ZeroPlus(u: Usage)
    ensures ZERO.Plus(u) == u
  {
  }

  lemma SumOfOne(p: Provider, codec: Codec, replies: seq<Reply>)
    requires |replies| == 1
    ensures SumUsage(p, codec, replies) == BodyUsage(p, codec, replies[0].1)
  {
    assert replies[..0] == [];
    SumUsageLast(p, codec, replies);
    SumOfNone(p, codec);
    ZeroPlus(BodyUsage(p, codec, replies[0].1));
  }

  /** Every follow-up only appends to the conversation and touches nothing else. */
  lemma NextBodyExtends(d: Dialect, codec: Codec, resolve: Resolver, round: nat, body: Value, r: Reply)
    requires Continues(d, codec, body, r)
    ensures var next := NextBody(d, codec, resolve, round, body, r);
            Messages(next).Some? && Messages(body).value <= Messages(next).value &&
            forall key :: key != "messages" ==> Get(next, key) == Get(body, key)
  {
  }

  /** Along an exchange each request extends every earlier one. */
  lemma {:induction false} RequestsExtend(d: Dialect, codec: Codec, first: Value, post: Upstream, resolve: Resolver,
    posts: seq<Value>, replies: seq<Reply>, i: nat, j: nat)
    requires Exchange(d, codec, first, post, resolve, posts, replies)
    requires i < j < |posts|
    ensures Messages(posts[i]).Some? && Messages(posts[j]).Some?
    ensures Messages(posts[i]).value <= Messages(posts[j]).value
    ensures forall key :: key != "messages" ==> Get(posts[i], key) == Get(posts[j], key)
    decreases j - i
  {
    NextBodyExtends(d, codec, resolve, j - 1, posts[j - 1], replies[j - 1]);
    if i + 1 < j {
      RequestsExtend(d, codec, first, post, resolve, posts, replies, i, j - 1);
    }
  }

  /** Two exchanges with the same upstream agree as far as both go. */
  lemma {:induction false} ExchangeIsDetermined(d: Dialect, codec: Codec, first: Value, post: Upstream,
    resolve: Resolver, posts: seq<Value>, replies: seq<Reply>, posts': seq<Value>, replies': seq<Reply>, k: nat)
    requires Exchange(d, codec, first, post, resolve, posts, replies)
    requires Exchange(d, codec, first, post, resolve, posts', replies')
    requires k < |posts| && k < |posts'|
    ensures posts[k] == posts'[k]
    ensures k < |replies| && k < |replies'| ==> replies[k] == replies'[k]
  {
    if k > 0 {
      ExchangeIsDetermined(d, codec, first, post, resolve, posts, replies, posts', replies', k - 1);
      LaterPost(d, codec, first, post, resolve, posts, replies, k - 1);
      LaterPost(d, codec, first, post, resolve, posts', replies', k - 1);
    }
  }

  lemma LaterPost(d: Dialect, codec: Codec, first: Value, post: Upstream, resolve: Resolver,
    posts: seq<Value>, replies: seq<Reply>, k: nat)
    requires Exchange(d, codec, first, post, resolve, posts, replies) && k + 1 < |posts|
    ensures posts[k + 1] == NextBody(d, codec, resolve, k, posts[k], replies[k])
  {
  }

  /** Each upstream has one complete exchange, so the outcome says what was exchanged. */
  lemma CompleteIsUnique(d: Dialect, codec: Codec, first: Value, post: Upstream, resolve: Resolver,
    posts: seq<Value>, replies: seq<Reply>, posts': seq<Value>, replies': seq<Reply>)
    requires Complete(d, codec, first, post, resolve, posts, replies)
    requires Complete(d, codec, first, post, resolve, posts', replies')
    ensures posts == posts' && replies == replies'
  {
    NotLonger(d, codec, first, post, resolve, posts, replies, posts', replies');
    NotLonger(d, codec, first, post, resolve, posts', replies', posts, replies);
    forall k | 0 <= k < |posts| ensures posts[k] == posts'[k] && (k < |replies| ==> replies[k] == replies'[k]) {
      ExchangeIsDetermined(d, codec, first, post, resolve, posts, replies, posts', replies', k);
    }
  }

  lemma NotLonger(d: Dialect, codec: Codec, first: Value, post: Upstream, resolve: Resolver,
    posts: seq<Value>, replies: seq<Reply>, posts': seq<Value>, replies': seq<Reply>)
    requires Complete(d, codec, first, post, resolve, posts, replies)
    requires Exchange(d, codec, first, post, resolve, posts', replies')
    ensures |posts'| <= |posts| && |replies'| <= |replies|
  {
    var k := |posts| - 1;
    if k < |posts'| {
      ExchangeIsDetermined(d, codec, first, post, resolve, posts, replies, posts', replies', k);
    }
  }

  function AnthropicClient(codec: Codec, stream: bool): Client {
    Client(stream, bytes => SseSynth.AnthropicStream(codec, bytes))
  }

  function OpenaiClient(codec: Codec, stream: bool): Client {
    Client(stream, bytes => SseSynthOpenai.OpenaiStream(codec, bytes))
  }

  /** The Anthropic loop. */
  method RunAnthropic(codec: Codec, stream: bool, request: Value, post: Upstream, resolve: Resolver)
    returns (outcome: Option<Outcome>)
    requires codec.Sound()
    ensures outcome.None? <==> post(0, NonStreaming(request)).None?
    ensures exists posts, replies ::
              Complete(AnthropicDialect(NOTICE), codec, NonStreaming(request), post, resolve, posts, replies) &&
              Reports(AnthropicDialect(NOTICE), codec, AnthropicClient(codec, stream), outcome, posts, replies)
  {
    AnthropicIsLawful(NOTICE);
    outcome := Run(AnthropicDialect(NOTICE), codec, AnthropicClient(codec, stream), request, post, resolve);
  }

  /** The OpenAI loop. */
  method RunOpenai(codec: Codec, stream: bool, request: Value, post: Upstream, resolve: Resolver)
    returns (outcome: Option<Outcome>)
    requires codec.Sound()
    ensures outcome.None? <==> post(0, OpenaiPrepare(request)).None?
    ensures exists posts, replies ::
              Complete(OpenaiDialect(codec, NOTICE), codec, OpenaiPrepare(request), post, resolve, posts, replies) &&
              Reports(OpenaiDialect(codec, NOTICE), codec, OpenaiClient(codec, stream), outcome, posts, replies)
  {
    OpenaiIsLawful(codec, NOTICE);
    outcome := Run(OpenaiDialect(codec, NOTICE), codec, OpenaiClient(codec, stream), request, post, resolve);
  }
}
