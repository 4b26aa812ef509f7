/** What the client is handed of a final reply, read field by field. */
module CleanBody {
  import opened Options
  import opened Json
  import opened Utf8
  import opened Usage
  import opened Dialects
  import opened RetrieveLoop
  import opened Selection
  import opened FollowUp

  // ----- Anthropic

  /** The content is the old one without the retrieve blocks, in order; all other fields are kept. */
  ghost predicate Stripped(j: Value, clean: Value, blocks: seq<Value>) {
    exists kept, at ::
      Get(clean, "content") == Some(Arr(kept)) && SameBut(j, clean, "content") && Remain(blocks, kept, at, AsksProxy)
  }

  /** What is left stands at exactly the places without the property. */
  ghost predicate Remain(items: seq<Value>, kept: seq<Value>, at: seq<nat>, gone: Value -> bool) {
    |kept| == |at| && Ascending(at, |items|) && (forall m :: 0 <= m < |at| ==> kept[m] == items[at[m]]) &&
    forall k: nat :: k < |items| ==> (!gone(items[k]) <==> k in at)
  }

  ghost predicate IsApology(b: Value) {
    Get(b, "type") == Some(Str("text")) &&
    Get(b, "text") ==
      Some(Str("[ptk-proxy: a compressed-content retrieval could not be completed this turn]"))
  }

  /** An apology in place of each retrieve block, and every other block as it was. */
  ghost predicate Told(blocks: seq<Value>, told: seq<Value>) {
    |told| == |blocks| &&
    forall k :: 0 <= k < |blocks| ==> if AsksProxy(blocks[k]) then IsApology(told[k]) else told[k] == blocks[k]
  }

  /** Each retrieve block became an apology, the others stayed, and a turn that stopped for a tool ends. */
  ghost predicate Excused(j: Value, clean: Value, blocks: seq<Value>) {
    (exists told :: Get(clean, "content") == Some(Arr(told)) && Told(blocks, told)) &&
    Get(clean, "stop_reason") ==
      (if Get(j, "stop_reason") == Some(Str("tool_use")) then Some(Str("end_turn")) else Get(j, "stop_reason")) &&
    forall k :: k != "content" && k != "stop_reason" ==> Get(clean, k) == Get(j, k)
  }

  /** Nothing to do without retrieve blocks; beside other tool calls they are dropped, otherwise excused. */
  ghost predicate CleanedFrom(j: Value, out: Option<Value>) {
    var blocks := AsArr(Get(j, "content")).GetOr([]);
    if !SomeAsk(blocks) then out.None?
    else
      out.Some? && if SomeCallElse(blocks) then Stripped(j, out.value, blocks) else Excused(j, out.value, blocks)
  }

  ghost predicate SomeAsk(blocks: seq<Value>) {
    exists b :: b in blocks && AsksProxy(b)
  }

  /** Some block calls a tool that only the client has. */
  ghost predicate SomeCallElse(blocks: seq<Value>) {
    exists b :: b in blocks && CallsTool(b) && !AsksProxy(b)
  }

  lemma RestRemains(items: seq<Value>, p: Value -> bool, gone: Value -> bool)
    requires forall b :: p(b) <==> !gone(b)
    ensures Remain(items, Pick(items, p), Places(items, p), gone)
  {
    PickIsInOrder(items, p);
  }

  lemma StrippedIs(j: Value)
    requires j.Obj?
    ensures Stripped(j, AnthropicStripped(j), ContentBlocks(j))
  {
    var p := b => !IsRetrieveBlock(b);
    forall b ensures p(b) <==> !AsksProxy(b) {
      AsksMeans(b);
    }
    RestRemains(ContentBlocks(j), p, AsksProxy);
    assert Get(AnthropicStripped(j), "content") == Some(Arr(Pick(ContentBlocks(j), p)));
  }

  lemma ApologyReads()
    ensures IsApology(TextBlock(NOTICE))
  {
    FieldIs(TextBlock(NOTICE).fields, 0);
    FieldIs(TextBlock(NOTICE).fields, 1);
  }

  lemma ExcusedIs(j: Value)
    requires j.Obj?
    ensures Excused(j, AnthropicApologised(NOTICE, j), ContentBlocks(j))
  {
    var blocks := ContentBlocks(j);
    var told := Replace(blocks, IsRetrieveBlock, TextBlock(NOTICE));
    ToldIs(blocks);
    EndedReads(Put(j, "content", Arr(told)));
  }

  lemma ToldIs(blocks: seq<Value>)
    ensures Told(blocks, Replace(blocks, IsRetrieveBlock, TextBlock(NOTICE)))
  {
    ApologyReads();
    forall k | 0 <= k < |blocks| ensures IsRetrieveBlock(blocks[k]) <==> AsksProxy(blocks[k]) {
      AsksMeans(blocks[k]);
    }
  }

  lemma EndedReads(v: Value)
    requires v.Obj?
    ensures var stop := Get(v, "stop_reason");
            Get(Dialects.Ended(v), "stop_reason") ==
              (if stop == Some(Str("tool_use")) then Some(Str("end_turn")) else stop)
    ensures SameBut(v, Dialects.Ended(v), "stop_reason")
  {
  }

  lemma AnthropicCases(j: Value)
    ensures AnthropicSanitize(NOTICE, j) ==
              if !SomeAsk(ContentBlocks(j)) then None
              else if SomeCallElse(ContentBlocks(j)) then Some(AnthropicStripped(j))
              else Some(AnthropicApologised(NOTICE, j))
  {
    SameKinds(ContentBlocks(j));
  }

  lemma CleanedWhen(j: Value, out: Option<Value>, stripped: Value, excused: Value)
    requires out == if !SomeAsk(ContentBlocks(j)) then None
                    else if SomeCallElse(ContentBlocks(j)) then Some(stripped) else Some(excused)
    requires SomeAsk(ContentBlocks(j)) ==>
               Stripped(j, stripped, ContentBlocks(j)) && Excused(j, excused, ContentBlocks(j))
    ensures CleanedFrom(j, out)
  {
  }

  lemma AnthropicCleans(j: Value)
    ensures CleanedFrom(j, AnthropicSanitize(NOTICE, j))
  {
    if SomeAsk(ContentBlocks(j)) {
      assert ContentBlocks(j) != [];
      StrippedIs(j);
      ExcusedIs(j);
    }
    AnthropicCases(j);
    CleanedWhen(j, AnthropicSanitize(NOTICE, j), AnthropicStripped(j), AnthropicApologised(NOTICE, j));
  }

  lemma SameKinds(blocks: seq<Value>)
    ensures forall b :: b in blocks ==>
              (IsRetrieveBlock(b) <==> AsksProxy(b)) && (IsForeignBlock(b) <==> CallsTool(b) && !AsksProxy(b))
  {
    forall b | b in blocks
      ensures (IsRetrieveBlock(b) <==> AsksProxy(b)) && (IsForeignBlock(b) <==> CallsTool(b) && !AsksProxy(b))
    {
      AsksMeans(b);
    }
  }

  /** The body of a final Anthropic reply: an error, one that does not parse and one that asks for nothing
      as it is, any other printed anew without what only the proxy can serve. */
  lemma AnthropicDelivers(codec: Codec, r: Reply)
    ensures var out := Delivered(AnthropicDialect(NOTICE), codec, r);
            if r.0 >= 400 || codec.fromSlice(r.1).None? then out == r.1
            else exists clean :: CleanedFrom(codec.fromSlice(r.1).value, clean) &&
                   out == match clean case Some(v) => Encode(codec.show(v)) case None => r.1
  {
    if codec.fromSlice(r.1).Some? {
      AnthropicCleans(codec.fromSlice(r.1).value);
    }
  }

  // ----- OpenAI

  /** `b` is `a` but for what lies at the path. */
  ghost predicate SameOutside(a: Value, b: Value, path: seq<string>)
    decreases |path|
  {
    path == [] ||
    if a.Arr? then
      b.Arr? && |a.items| == |b.items| != 0 && a.items[1..] == b.items[1..] &&
      SameOutside(a.items[0], b.items[0], path[1..])
    else
      SameBut(a, b, path[0]) && Get(a, path[0]).Some? && Get(b, path[0]).Some? &&
      SameOutside(Get(a, path[0]).value, Get(b, path[0]).value, path[1..])
  }

  lemma {:induction false} PutAtKeepsRest(v: Value, path: seq<string>, x: Value)
    requires Pointer(v, path).Some?
    ensures SameOutside(v, PutAt(v, path, x), path)
    decreases |path|
  {
    if path != [] {
      PutAtKeepsRest(Child(v, path[0]).value, path[1..], x);
    }
  }

  ghost predicate StrippedItems(j: Value, clean: Value, items: seq<Value>) {
    SameOutside(j, clean, ["choices", "0", "message", "tool_calls"]) &&
    exists kept, at ::
      Pointer(clean, ["choices", "0", "message", "tool_calls"]) == Some(Arr(kept)) && Remain(items, kept, at, AsksItem)
  }

  /** The message says the apology and calls nothing; a choice that ended for its calls stops normally. */
  ghost predicate ExcusedMessage(j: Value, clean: Value) {
    SameOutside(j, clean, ["choices", "0"]) &&
    exists before, after, said, excuse ::
      Pointer(j, ["choices", "0"]) == Some(before) && Pointer(clean, ["choices", "0"]) == Some(after) &&
      Get(before, "message") == Some(said) && Get(after, "message") == Some(excuse) &&
      Get(excuse, "tool_calls").None? &&
      Get(excuse, "content") ==
        Some(Str("[ptk-proxy: a compressed-content retrieval could not be completed this turn]")) &&
      (forall k :: k != "tool_calls" && k != "content" ==> Get(excuse, k) == Get(said, k)) &&
      Get(after, "finish_reason") ==
        (if Get(before, "finish_reason") == Some(Str("tool_calls")) then Some(Str("stop"))
         else Get(before, "finish_reason")) &&
      forall k :: k != "message" && k != "finish_reason" ==> Get(after, k) == Get(before, k)
  }

  ghost predicate CleanedItems(j: Value, out: Option<Value>) {
    var items := AsArr(Pointer(j, ["choices", "0", "message", "tool_calls"])).GetOr([]);
    if !SomeItemAsks(items) then out.None?
    else out.Some? && if SomeItemElse(items) then StrippedItems(j, out.value, items) else ExcusedMessage(j, out.value)
  }

  ghost predicate SomeItemAsks(items: seq<Value>) {
    exists c :: c in items && AsksItem(c)
  }

  ghost predicate SomeItemElse(items: seq<Value>) {
    exists c :: c in items && !AsksItem(c)
  }

  lemma StrippedItemsAre(j: Value)
    requires CallItems(j) != []
    ensures StrippedItems(j, OpenaiStripped(j), CallItems(j))
  {
    var p := c => !IsRetrieveItem(c);
    var kept := Pick(CallItems(j), p);
    CallItemsAre(j);
    RestRemains(CallItems(j), p, AsksItem);
    PutAtKeepsRest(j, CALLS_PATH, Arr(kept));
    PutAtReads(j, CALLS_PATH, Arr(kept), []);
    assert CALLS_PATH + [] == CALLS_PATH;
    assert Pointer(OpenaiStripped(j), ["choices", "0", "message", "tool_calls"]) == Some(Arr(kept));
  }

  lemma ApologeticReads(said: Value)
    requires said.Obj?
    ensures var m := Apologetic(NOTICE, said);
            Get(m, "tool_calls").None? && Get(m, "content") == Some(Str(NOTICE)) &&
            forall k :: k != "tool_calls" && k != "content" ==> Get(m, k) == Get(said, k)
  {
  }

  lemma FinishedReads(choice: Value)
    requires choice.Obj?
    ensures var reason := Get(choice, "finish_reason");
            Get(Dialects.Finished(choice), "finish_reason") ==
              (if reason == Some(Str("tool_calls")) then Some(Str("stop")) else reason)
    ensures SameBut(choice, Dialects.Finished(choice), "finish_reason")
  {
  }

  lemma ChoiceOfItems(j: Value) returns (choice: Value, said: Value)
    requires CallItems(j) != []
    ensures Pointer(j, ["choices", "0"]) == Some(choice) && Get(choice, "message") == Some(said)
    ensures choice.Obj? && said.Obj? && Pointer(j, MESSAGE_PATH) == Some(said)
  {
    ItemsComeFromAMessage(j);
    PathsAgree();
    PointerThrough(j, CHOICE_PATH, ["message"]);
    choice := Pointer(j, CHOICE_PATH).value;
    said := Pointer(j, MESSAGE_PATH).value;
    assert ["message"][1..] == [] && Pointer(choice, ["message"]) == Child(choice, "message");
  }

  lemma {:induction false} SameOutsidePrefix(a: Value, b: Value, path: seq<string>, more: seq<string>)
    requires SameOutside(a, b, path + more)
    ensures SameOutside(a, b, path)
    decreases |path|
  {
    if path != [] {
      assert (path + more)[0] == path[0] && (path + more)[1..] == path[1..] + more;
      if a.Arr? {
        SameOutsidePrefix(a.items[0], b.items[0], path[1..], more);
      } else {
        SameOutsidePrefix(Get(a, path[0]).value, Get(b, path[0]).value, path[1..], more);
      }
    }
  }

  lemma {:induction false} SameOutsideTwice(a: Value, b: Value, c: Value, path: seq<string>)
    requires SameOutside(a, b, path) && SameOutside(b, c, path)
    ensures SameOutside(a, c, path)
    decreases |path|
  {
    if path != [] {
      if a.Arr? {
        SameOutsideTwice(a.items[0], b.items[0], c.items[0], path[1..]);
      } else {
        SameOutsideTwice(Get(a, path[0]).value, Get(b, path[0]).value, Get(c, path[0]).value, path[1..]);
      }
    }
  }

  /** Putting something further down is putting the changed value where the path leads first. */
  lemma {:induction false} PutAtThrough(v: Value, path: seq<string>, more: seq<string>, x: Value)
    requires Pointer(v, path).Some?
    ensures PutAt(v, path + more, x) == PutAt(v, path, PutAt(Pointer(v, path).value, more, x))
    decreases |path|
  {
    if path == [] {
      assert path + more == more;
    } else {
      assert (path + more)[0] == path[0] && (path + more)[1..] == path[1..] + more;
      PutAtThrough(Child(v, path[0]).value, path[1..], more, x);
    }
  }

  lemma PutInMessage(choice: Value, m: Value)
    requires choice.Obj? && Get(choice, "message").Some?
    ensures PutAt(choice, ["message"], m) == Put(choice, "message", m)
  {
    assert ["message"][1..] == [] && PutAt(Get(choice, "message").value, [], m) == m;
  }

  /** The choice after its message was excused, and the whole body around it. */
  lemma ExcusedChoice(j: Value, choice: Value, said: Value, m: Value)
    requires Pointer(j, CHOICE_PATH) == Some(choice) && choice.Obj? && Get(choice, "message") == Some(said)
    ensures Pointer(PutAt(j, MESSAGE_PATH, m), CHOICE_PATH) == Some(Put(choice, "message", m))
    ensures SameOutside(j, PutAt(j, MESSAGE_PATH, m), CHOICE_PATH)
  {
    PathsAgree();
    PointerThrough(j, CHOICE_PATH, ["message"]);
    assert ["message"][1..] == [] && Pointer(choice, ["message"]) == Child(choice, "message");
    PutAtThrough(j, CHOICE_PATH, ["message"], m);
    PutInMessage(choice, m);
    PutAtReads(j, CHOICE_PATH, Put(choice, "message", m), []);
    assert CHOICE_PATH + [] == CHOICE_PATH;
    PutAtKeepsRest(j, MESSAGE_PATH, m);
    SameOutsidePrefix(j, PutAt(j, MESSAGE_PATH, m), CHOICE_PATH, ["message"]);
  }

  lemma ExcusedMessageIs(j: Value)
    requires CallItems(j) != []
    ensures ExcusedMessage(j, OpenaiApologised(NOTICE, j))
  {
    var choice, said := ChoiceOfItems(j);
    var m := Apologetic(NOTICE, said);
    var out := PutAt(j, MESSAGE_PATH, m);
    var between := Put(choice, "message", m);
    var after := Dialects.Finished(between);
    var clean := OpenaiApologised(NOTICE, j);
    ApologeticReads(said);
    ExcusedChoice(j, choice, said, m);
    FinishedReads(between);
    assert clean == PutAt(out, CHOICE_PATH, after);
    PutAtReads(out, CHOICE_PATH, after, []);
    assert CHOICE_PATH + [] == CHOICE_PATH;
    PutAtKeepsRest(out, CHOICE_PATH, after);
    SameOutsideTwice(j, out, clean, CHOICE_PATH);
    ExcusedFrom(j, clean, choice, after, said, m);
  }

  lemma ExcusedFrom(j: Value, clean: Value, before: Value, after: Value, said: Value, excuse: Value)
    requires SameOutside(j, clean, CHOICE_PATH)
    requires Pointer(j, CHOICE_PATH) == Some(before) && Pointer(clean, CHOICE_PATH) == Some(after)
    requires Get(before, "message") == Some(said) && Get(after, "message") == Some(excuse)
    requires Get(excuse, "tool_calls").None? && Get(excuse, "content") == Some(Str(NOTICE))
    requires forall k :: k != "tool_calls" && k != "content" ==> Get(excuse, k) == Get(said, k)
    requires Get(after, "finish_reason") ==
               (if Get(before, "finish_reason") == Some(Str("tool_calls")) then Some(Str("stop"))
                else Get(before, "finish_reason"))
    requires forall k :: k != "message" && k != "finish_reason" ==> Get(after, k) == Get(before, k)
    ensures ExcusedMessage(j, clean)
  {
  }

  lemma OpenaiCases(j: Value)
    ensures OpenaiSanitize(NOTICE, j) ==
              if !SomeItemAsks(CallItems(j)) then None
              else if SomeItemElse(CallItems(j)) then Some(OpenaiStripped(j))
              else Some(OpenaiApologised(NOTICE, j))
  {
    assert forall c :: IsRetrieveItem(c) <==> AsksItem(c);
  }

  lemma ItemsCleanedWhen(j: Value, out: Option<Value>, stripped: Value, excused: Value)
    requires out == if !SomeItemAsks(CallItems(j)) then None
                    else if SomeItemElse(CallItems(j)) then Some(stripped) else Some(excused)
    requires SomeItemAsks(CallItems(j)) ==>
               StrippedItems(j, stripped, CallItems(j)) && ExcusedMessage(j, excused)
    ensures CleanedItems(j, out)
  {
  }

  lemma OpenaiCleans(j: Value)
    ensures CleanedItems(j, OpenaiSanitize(NOTICE, j))
  {
    if SomeItemAsks(CallItems(j)) {
      assert CallItems(j) != [];
      StrippedItemsAre(j);
      ExcusedMessageIs(j);
    }
    OpenaiCases(j);
    ItemsCleanedWhen(j, OpenaiSanitize(NOTICE, j), OpenaiStripped(j), OpenaiApologised(NOTICE, j));
  }

  /** Likewise for OpenAI, of whose answer only the first choice is looked at. */
  lemma OpenaiDelivers(codec: Codec, r: Reply)
    ensures var out := Delivered(OpenaiDialect(codec, NOTICE), codec, r);
            if r.0 >= 400 || codec.fromSlice(r.1).None? then out == r.1
            else exists clean :: CleanedItems(codec.fromSlice(r.1).value, clean) &&
                   out == match clean case Some(v) => Encode(codec.show(v)) case None => r.1
  {
    if codec.fromSlice(r.1).Some? {
      OpenaiCleans(codec.fromSlice(r.1).value);
    }
  }
}
