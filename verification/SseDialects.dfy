/**
  The tally of the two dialects that send their tool calls in other ways: OpenAI in fragments that
  carry the index of their call, Google in whole parts. Both must add up to what the batch
  extraction reads from the complete response.
*/
module SseDialects {
  import opened Options
  import opened Json
  import opened Usage
  import opened SseTally

  // ----- calls by position

  /** The keys are the first `n` numbers. */
  ghost predicate Dense(tools: ToolBuffer, n: nat) {
    forall k :: k in tools <==> 0 <= k < n
  }

  /** The calls of a dense buffer, in order. */
  lemma {:induction false} CallsOfDense(codec: Codec, tools: ToolBuffer, n: nat)
    requires Dense(tools, n)
    ensures |ToolCalls(codec, tools)| == n
    ensures forall i :: 0 <= i < n ==> ToolCalls(codec, tools)[i] == CallFrom(codec, tools[i])
    decreases n
  {
    if n == 0 {
      assert forall k :: k !in tools;
      assert tools.Keys == {};
    } else {
      assert n - 1 in tools;
      var before, last := tools - {n - 1}, tools[n - 1];
      assert tools == before[n - 1 := last];
      CallsOfDense(codec, before, n - 1);
      CallsWithLargest(codec, before, n - 1, last);
    }
  }

  // ----- Google: whole calls

  lemma {:induction false} PartCallsConcat(show: Value -> string, tools: ToolBuffer, a: seq<Value>, b: seq<Value>)
    ensures PartCalls(show, tools, a + b) == PartCalls(show, PartCalls(show, tools, a), b)
  {
    if b == [] {
      assert a + b == a;
    } else {
      assert (a + b)[..|a + b| - 1] == a + b[..|b| - 1];
      PartCallsConcat(show, tools, a, b[..|b| - 1]);
    }
  }

  /** Printed arguments are parsed again; absent ones print as `null`. */
  ghost predicate ReadsNull(codec: Codec) {
    codec.fromStr("null").GetOr(Null) == Null
  }

  lemma PartIsTallied(codec: Codec, tools: ToolBuffer, part: Value)
    requires codec.Sound() && ReadsNull(codec) && WellFormed(part) && Dense(tools, |tools|)
    ensures var more := PartCall(codec.show, tools, part);
            Dense(more, |more|) && ToolCalls(codec, more) == ToolCalls(codec, tools) + PartCallOf(part)
  {
    var fc := Get(part, "functionCall");
    if fc.Some? && AsStr(Get(fc.value, "name")).Some? {
      var name, args := AsStr(Get(fc.value, "name")).value, Get(fc.value, "args");
      CallOfPart(codec, tools, part, fc.value, name, args);
      ArgsWellFormed(part, fc.value, args);
      NewCall(codec, tools, name, args);
    }
  }

  lemma CallOfPart(codec: Codec, tools: ToolBuffer, part: Value, fc: Value, name: string, args: Option<Value>)
    requires Get(part, "functionCall") == Some(fc) && AsStr(Get(fc, "name")) == Some(name) && Get(fc, "args") == args
    ensures PartCall(codec.show, tools, part) == tools[|tools| as int := (name, Shown(codec, args))]
    ensures PartCallOf(part) == [ToolCall(name, args.GetOr(Null))]
  {
  }

  lemma ArgsWellFormed(part: Value, fc: Value, args: Option<Value>)
    requires WellFormed(part) && Get(part, "functionCall") == Some(fc) && Get(fc, "args") == args
    ensures args.Some? ==> WellFormed(args.value)
  {
    assert WellFormed(fc);
  }

  lemma NewCall(codec: Codec, tools: ToolBuffer, name: string, args: Option<Value>)
    requires codec.Sound() && ReadsNull(codec) && (args.Some? ==> WellFormed(args.value)) && Dense(tools, |tools|)
    ensures var more := tools[|tools| as int := (name, Shown(codec, args))];
            Dense(more, |more|) &&
            ToolCalls(codec, more) == ToolCalls(codec, tools) + [ToolCall(name, args.GetOr(Null))]
  {
    ShownIsRead(codec, args);
    CallsWithLargest(codec, tools, |tools|, (name, Shown(codec, args)));
  }

  function Shown(codec: Codec, args: Option<Value>): string {
    match args case Some(a) => codec.show(a) case None => "null"
  }

  lemma ShownIsRead(codec: Codec, args: Option<Value>)
    requires codec.Sound() && ReadsNull(codec) && (args.Some? ==> WellFormed(args.value))
    ensures codec.fromStr(Shown(codec, args)).GetOr(Null) == args.GetOr(Null)
  {
  }

  lemma {:induction false} PartsAreTallied(codec: Codec, parts: seq<Value>)
    requires codec.Sound() && ReadsNull(codec) && forall i :: 0 <= i < |parts| ==> WellFormed(parts[i])
    ensures var tools := PartCalls(codec.show, map[], parts);
            Dense(tools, |tools|) && ToolCalls(codec, tools) == CallsIn(PartCallOf, parts)
  {
    if parts != [] {
      var n := |parts| - 1;
      PartsAreTallied(codec, parts[..n]);
      PartIsTallied(codec, PartCalls(codec.show, map[], parts[..n]), parts[n]);
    }
  }

  /** The buffer after some events. */
  function ToolsOf(p: Provider, show: Value -> string, events: seq<Value>): ToolBuffer {
    if events == [] then map[]
    else ToolsAfter(p, show, ToolsOf(p, show, events[..|events| - 1]), events[|events| - 1])
  }

  function AllParts(events: seq<Value>): seq<Value> {
    if events == [] then [] else AllParts(events[..|events| - 1]) + Parts(events[|events| - 1])
  }

  lemma {:induction false} GoogleToolsOf(show: Value -> string, events: seq<Value>)
    ensures ToolsOf(Google, show, events) == PartCalls(show, map[], AllParts(events))
  {
    if events != [] {
      var n := |events| - 1;
      GoogleToolsOf(show, events[..n]);
      PartCallsConcat(show, map[], AllParts(events[..n]), Parts(events[n]));
    }
  }

  /** However a Google response spreads its parts over events, the tally has the calls of the whole. */
  lemma GoogleCallsAgree(codec: Codec, events: seq<Value>, msg: Value)
    requires codec.Sound() && ReadsNull(codec) && WellFormed(msg) && AllParts(events) == Parts(msg)
    ensures ToolCalls(codec, ToolsOf(Google, codec.show, events)) == CallsFromResponse(Google, codec, msg)
  {
    GoogleToolsOf(codec.show, events);
    PartsWellFormed(msg);
    PartsAreTallied(codec, Parts(msg));
  }

  lemma PartsWellFormed(msg: Value)
    requires WellFormed(msg)
    ensures forall i :: 0 <= i < |Parts(msg)| ==> WellFormed(Parts(msg)[i])
  {
    if Pointer(msg, PARTS_PATH).Some? {
      PointerWellFormed(msg, PARTS_PATH);
    }
  }

  // ----- OpenAI: fragments

  /** What the tally takes from a fragment: the call it belongs to, its name if it gives one, and a
      piece of the arguments. */
  datatype Fragment = Fragment(index: int, name: string, args: string)

  function FragmentOf(v: Value): Fragment {
    Fragment(IntOr0(Get(v, "index")), ItemName(v).GetOr(""), AsStr(Pointer(v, ["function", "arguments"])).GetOr(""))
  }

  function FragmentsOf(vs: seq<Value>): (fs: seq<Fragment>)
    ensures |fs| == |vs|
  {
    if vs == [] then [] else FragmentsOf(vs[..|vs| - 1]) + [FragmentOf(vs[|vs| - 1])]
  }

  function Add(tools: ToolBuffer, f: Fragment): ToolBuffer {
    var (name, args) := if f.index in tools then tools[f.index] else ("", "");
    tools[f.index := (if f.name != "" then f.name else name, args + f.args)]
  }

  function AddAll(fs: seq<Fragment>): ToolBuffer {
    if fs == [] then map[] else Add(AddAll(fs[..|fs| - 1]), fs[|fs| - 1])
  }

  lemma {:induction false} FragmentsAreAdded(vs: seq<Value>)
    ensures CallFragments(map[], vs) == AddAll(FragmentsOf(vs))
  {
    if vs != [] {
      FragmentsAreAdded(vs[..|vs| - 1]);
    }
  }

  /** The last name that a fragment of call `i` gives. */
  function NameOf(fs: seq<Fragment>, i: int): string {
    if fs == [] then ""
    else
      var last := fs[|fs| - 1];
      if last.index == i && last.name != "" then last.name else NameOf(fs[..|fs| - 1], i)
  }

  /** The argument pieces of call `i`, joined. */
  function ArgsOf(fs: seq<Fragment>, i: int): string {
    if fs == [] then ""
    else
      var last := fs[|fs| - 1];
      ArgsOf(fs[..|fs| - 1], i) + (if last.index == i then last.args else "")
  }

  predicate Mentions(fs: seq<Fragment>, i: int) {
    exists k :: 0 <= k < |fs| && fs[k].index == i
  }

  lemma {:induction false} AbsentCall(fs: seq<Fragment>, i: int)
    requires !Mentions(fs, i)
    ensures NameOf(fs, i) == "" && ArgsOf(fs, i) == ""
  {
    if fs != [] {
      assert fs[|fs| - 1].index != i;
      AbsentCall(fs[..|fs| - 1], i);
    }
  }

  lemma MentionsStep(fs: seq<Fragment>, i: int)
    requires fs != []
    ensures Mentions(fs, i) <==> Mentions(fs[..|fs| - 1], i) || fs[|fs| - 1].index == i
  {
    var before := fs[..|fs| - 1];
    if k :| 0 <= k < |before| && before[k].index == i {
      assert fs[k].index == i;
    }
  }

  /** Each buffered call has the last name and all the argument pieces of its fragments, in whatever
      order the fragments of different calls arrive. */
  lemma {:induction false} FragmentsAreGathered(fs: seq<Fragment>, i: int)
    ensures var tools := AddAll(fs);
            (i in tools <==> Mentions(fs, i)) && (i in tools ==> tools[i] == (NameOf(fs, i), ArgsOf(fs, i)))
  {
    if fs != [] {
      var before := fs[..|fs| - 1];
      FragmentsAreGathered(before, i);
      MentionsStep(fs, i);
      assert ArgsOf(before, i) + "" == ArgsOf(before, i);
      if !Mentions(before, i) {
        AbsentCall(before, i);
      }
    }
  }

  lemma {:induction false} FragmentsConcat(tools: ToolBuffer, a: seq<Value>, b: seq<Value>)
    ensures CallFragments(tools, a + b) == CallFragments(CallFragments(tools, a), b)
  {
    if b == [] {
      assert a + b == a;
    } else {
      assert (a + b)[..|a + b| - 1] == a + b[..|b| - 1];
      FragmentsConcat(tools, a, b[..|b| - 1]);
    }
  }

  function ChoiceFragments(choices: seq<Value>): seq<Value> {
    if choices == [] then [] else ChoiceFragments(choices[..|choices| - 1]) + DeltaCalls(choices[|choices| - 1])
  }

  function DeltaCalls(choice: Value): seq<Value> {
    AsArr(Pointer(choice, ["delta", "tool_calls"])).GetOr([])
  }

  function Fragments(events: seq<Value>): seq<Value> {
    if events == [] then []
    else Fragments(events[..|events| - 1]) + ChoiceFragments(AsArr(Get(events[|events| - 1], "choices")).GetOr([]))
  }

  lemma {:induction false} ChoicesAreFragments(tools: ToolBuffer, choices: seq<Value>)
    ensures ChoiceCalls(tools, choices) == CallFragments(tools, ChoiceFragments(choices))
  {
    if choices != [] {
      var n := |choices| - 1;
      ChoicesAreFragments(tools, choices[..n]);
      FragmentsConcat(tools, ChoiceFragments(choices[..n]), DeltaCalls(choices[n]));
    }
  }

  lemma {:induction false} OpenaiToolsOf(show: Value -> string, events: seq<Value>)
    ensures ToolsOf(Openai, show, events) == CallFragments(map[], Fragments(events))
  {
    if events != [] {
      var n := |events| - 1;
      var choices := AsArr(Get(events[n], "choices")).GetOr([]);
      OpenaiToolsOf(show, events[..n]);
      ChoicesAreFragments(ToolsOf(Openai, show, events[..n]), choices);
      FragmentsConcat(map[], Fragments(events[..n]), ChoiceFragments(choices));
    }
  }

  /** The fragments add up to the calls: every call has some, each call's pieces join to its argument
      text, and the last name given is its name. */
  ghost predicate AddUpTo(fs: seq<Fragment>, items: seq<Value>) {
    (forall i :: Mentions(fs, i) <==> 0 <= i < |items|) &&
    forall i :: 0 <= i < |items| ==>
      ItemName(items[i]) == Some(NameOf(fs, i)) &&
      AsStr(Pointer(items[i], ["function", "arguments"])) == Some(ArgsOf(fs, i))
  }

  lemma {:induction false} SingleCalls(f: Value -> seq<ToolCall>, items: seq<Value>)
    requires forall i :: 0 <= i < |items| ==> |f(items[i])| == 1
    ensures |CallsIn(f, items)| == |items|
    ensures forall i :: 0 <= i < |items| ==> CallsIn(f, items)[i] == f(items[i])[0]
  {
    if items != [] {
      SingleCalls(f, items[..|items| - 1]);
    }
  }

  /** However an OpenAI response is cut into fragments, and however the fragments of its calls are
      interleaved and spread over events and choices, the tally has the calls of the whole. */
  lemma OpenaiCallsAgree(codec: Codec, events: seq<Value>, msg: Value)
    requires AddUpTo(FragmentsOf(Fragments(events)), CallItems(msg))
    ensures ToolCalls(codec, ToolsOf(Openai, codec.show, events)) == CallsFromResponse(Openai, codec, msg)
  {
    OpenaiToolsOf(codec.show, events);
    FragmentsAreAdded(Fragments(events));
    GatheredCalls(codec, FragmentsOf(Fragments(events)), CallItems(msg), c => ItemCallOf(codec, c));
  }

  lemma GatheredCalls(codec: Codec, fs: seq<Fragment>, items: seq<Value>, f: Value -> seq<ToolCall>)
    requires AddUpTo(fs, items) && forall c :: f(c) == ItemCallOf(codec, c)
    ensures ToolCalls(codec, AddAll(fs)) == CallsIn(f, items)
  {
    var tools := AddAll(fs);
    forall k ensures k in tools <==> 0 <= k < |items| {
      FragmentsAreGathered(fs, k);
    }
    CallsOfDense(codec, tools, |items|);
    forall i | 0 <= i < |items| ensures f(items[i]) == [CallFrom(codec, tools[i])] {
      FragmentsAreGathered(fs, i);
    }
    SingleCalls(f, items);
  }
}
