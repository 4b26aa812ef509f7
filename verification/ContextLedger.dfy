/**
  How a request body fills the context: totals by kind, and the tokens that repeat an earlier
  block. The analyzer walks the body once and keeps a table of hashes already seen.
*/
module ContextLedger {
  import opened Options
  import opened Json
  import Utf8

  const IMAGE_TOKENS: nat := 1300

  datatype Kind = Other | ToolResult | ToolUseInput

  /** What the walk meets, in order. */
  datatype Event = Note(text: string, kind: Kind) | Tools(tokens: nat) | Image

  datatype Composition = Composition(total: nat, toolResult: nat, toolUseInput: nat, duplicate: nat, image: nat)

  /** Four bytes to a token, rounded up. */
  function EstTokens(s: string): nat {
    (Utf8.Size(s) + 3) / 4
  }

  // ----- the ledger, as a function of the events

  function TotalOf(e: Event): nat {
    match e case Note(t, _) => EstTokens(t) case Tools(n) => n case Image => IMAGE_TOKENS
  }
  function NotedOf(e: Event): nat { if e.Note? then EstTokens(e.text) else 0 }
  function ResultOf(e: Event): nat { if e.Note? && e.kind == ToolResult then EstTokens(e.text) else 0 }
  function InputOf(e: Event): nat { if e.Note? && e.kind == ToolUseInput then EstTokens(e.text) else 0 }
  function ImageOf(e: Event): nat { if e.Image? then IMAGE_TOKENS else 0 }

  function Sum(log: seq<Event>, f: Event -> nat): nat {
    if log == [] then 0 else Sum(log[..|log| - 1], f) + f(log[|log| - 1])
  }

  /** The distinct texts noted. An empty text is never accounted. */
  ghost function Texts(log: seq<Event>): set<string> {
    set e | e in log && e.Note? && e.text != "" :: e.text
  }

  /** Tokens of each distinct text, counted once. */
  ghost function DistinctTokens(texts: set<string>): nat {
    if texts == {} then 0 else
    var t :| t in texts;
    EstTokens(t) + DistinctTokens(texts - {t})
  }

  ghost predicate Injective(hash: string -> int) {
    forall s, t :: hash(s) == hash(t) ==> s == t
  }

  /** The hashes of the texts noted. */
  ghost function Hashes(log: seq<Event>, hash: string -> int): set<int> {
    if log == [] then {} else
    var before, e := log[..|log| - 1], log[|log| - 1];
    Hashes(before, hash) + if e.Note? && e.text != "" then {hash(e.text)} else {}
  }

  /** Tokens of the texts whose hash an earlier text had. */
  ghost function Repeated(log: seq<Event>, hash: string -> int): nat {
    if log == [] then 0 else
    var before, e := log[..|log| - 1], log[|log| - 1];
    Repeated(before, hash) + if e.Note? && hash(e.text) in Hashes(before, hash) then EstTokens(e.text) else 0
  }

  ghost function Compose(log: seq<Event>, hash: string -> int): Composition {
    Composition(Sum(log, TotalOf), Sum(log, ResultOf), Sum(log, InputOf), Repeated(log, hash), Sum(log, ImageOf))
  }

  /** One event's share of the composition. */
  function AddEvent(c: Composition, e: Event, repeats: bool): Composition {
    Composition(c.total + TotalOf(e), c.toolResult + ResultOf(e), c.toolUseInput + InputOf(e),
      c.duplicate + (if repeats then NotedOf(e) else 0), c.image + ImageOf(e))
  }

  lemma LedgerStep(log: seq<Event>, e: Event, hash: string -> int)
    ensures Compose(log + [e], hash) == AddEvent(Compose(log, hash), e, e.Note? && hash(e.text) in Hashes(log, hash))
    ensures Hashes(log + [e], hash) == Hashes(log, hash) + if e.Note? && e.text != "" then {hash(e.text)} else {}
  {
    assert (log + [e])[..|log|] == log;
  }

  lemma EmptyTextIsFree()
    ensures EstTokens("") == 0
  {
  }

  function AddTokens(c: Composition, t: nat, kind: Kind, repeats: bool): Composition {
    Composition(c.total + t, c.toolResult + (if kind == ToolResult then t else 0),
      c.toolUseInput + (if kind == ToolUseInput then t else 0), c.duplicate + (if repeats then t else 0), c.image)
  }

  /** Noting an empty text changes nothing. */
  lemma EmptyNoteStep(log: seq<Event>, kind: Kind, hash: string -> int)
    ensures Compose(log + [Note("", kind)], hash) == Compose(log, hash)
    ensures Hashes(log + [Note("", kind)], hash) == Hashes(log, hash)
  {
    LedgerStep(log, Note("", kind), hash);
    EmptyTextIsFree();
  }

  /** Noting any other text counts its tokens, and once more if its hash was seen. */
  lemma NoteStep(log: seq<Event>, text: string, kind: Kind, hash: string -> int)
    requires text != ""
    ensures Compose(log + [Note(text, kind)], hash)
         == AddTokens(Compose(log, hash), EstTokens(text), kind, hash(text) in Hashes(log, hash))
    ensures Hashes(log + [Note(text, kind)], hash) == Hashes(log, hash) + {hash(text)}
  {
    LedgerStep(log, Note(text, kind), hash);
  }

  // ----- properties of the ledger

  lemma {:induction false} DistinctInsert(texts: set<string>, t: string)
    requires t !in texts
    ensures DistinctTokens(texts + {t}) == DistinctTokens(texts) + EstTokens(t)
    decreases |texts|
  {
    var all := texts + {t};
    var x :| x in all && DistinctTokens(all) == EstTokens(x) + DistinctTokens(all - {x});
    if x == t {
      assert all - {x} == texts;
    } else {
      var y := x;
      assert all - {x} == (texts - {x}) + {t};
      DistinctInsert(texts - {x}, t);
      DistinctRemove(texts, x);
    }
  }

  lemma {:induction false} DistinctRemove(texts: set<string>, x: string)
    requires x in texts
    ensures DistinctTokens(texts) == EstTokens(x) + DistinctTokens(texts - {x})
    decreases |texts|, 0
  {
    var y :| y in texts && DistinctTokens(texts) == EstTokens(y) + DistinctTokens(texts - {y});
    if y != x {
      DistinctRemove(texts - {y}, x);
      DistinctRemove(texts - {x}, y);
      assert texts - {y} - {x} == texts - {x} - {y};
    }
  }

  lemma TextsOfMore(log: seq<Event>, e: Event)
    ensures Texts(log + [e]) == Texts(log) + if e.Note? && e.text != "" then {e.text} else {}
  {
  }

  /** Without collisions a hash was seen exactly when its text was. */
  lemma {:induction false} HashesAreTexts(log: seq<Event>, hash: string -> int, t: string)
    requires Injective(hash)
    ensures hash(t) in Hashes(log, hash) <==> t in Texts(log)
  {
    if log != [] {
      var before, e := log[..|log| - 1], log[|log| - 1];
      assert log == before + [e];
      HashesAreTexts(before, hash, t);
      TextsOfMore(before, e);
    }
  }

  /** Without hash collisions, duplicate tokens are all noted tokens less those of the distinct texts. */
  lemma {:induction false} DuplicatesAreRepeats(log: seq<Event>, hash: string -> int)
    requires Injective(hash)
    ensures Repeated(log, hash) + DistinctTokens(Texts(log)) == Sum(log, NotedOf)
  {
    if log == [] {
      assert Texts(log) == {};
    } else {
      var before, e := log[..|log| - 1], log[|log| - 1];
      assert log == before + [e];
      DuplicatesAreRepeats(before, hash);
      TextsOfMore(before, e);
      if e.Note? && e.text != "" {
        HashesAreTexts(before, hash, e.text);
        if e.text in Texts(before) {
          assert Texts(log) == Texts(before);
        } else {
          DistinctInsert(Texts(before), e.text);
        }
      } else {
        assert Texts(log) == Texts(before);
        EmptyTextIsFree();
      }
    }
  }

  lemma {:induction false} SumBounds(log: seq<Event>)
    ensures Sum(log, ResultOf) + Sum(log, InputOf) + Sum(log, ImageOf) <= Sum(log, TotalOf)
    ensures Sum(log, NotedOf) + Sum(log, ImageOf) <= Sum(log, TotalOf)
  {
    if log != [] {
      SumBounds(log[..|log| - 1]);
    }
  }

  lemma {:induction false} RepeatedAtMostNoted(log: seq<Event>, hash: string -> int)
    ensures Repeated(log, hash) <= Sum(log, NotedOf)
  {
    if log != [] {
      RepeatedAtMostNoted(log[..|log| - 1], hash);
    }
  }

  /** The parts never exceed the whole, even when hashes collide. */
  lemma PartsWithinTotal(log: seq<Event>, hash: string -> int)
    ensures var c := Compose(log, hash);
            c.toolResult + c.toolUseInput + c.image <= c.total && c.duplicate + c.image <= c.total
  {
    SumBounds(log);
    RepeatedAtMostNoted(log, hash);
  }

  lemma {:induction false} SumOfMultiset(a: seq<Event>, b: seq<Event>, f: Event -> nat)
    requires multiset(a) == multiset(b)
    ensures Sum(a, f) == Sum(b, f)
    decreases |a|
  {
    if a == [] {
      assert |multiset(b)| == 0;
    } else {
      var n := |a| - 1;
      assert a[n] in multiset(b);
      var i :| 0 <= i < |b| && b[i] == a[n];
      Without(a, n);
      Without(b, i);
      assert a[..n] + a[n + 1..] == a[..n];
      SumOfMultiset(a[..n], b[..i] + b[i + 1..], f);
      SumWithout(b, i, f);
    }
  }

  lemma Without(s: seq<Event>, i: nat)
    requires i < |s|
    ensures multiset(s[..i] + s[i + 1..]) == multiset(s) - multiset{s[i]}
  {
    assert s == s[..i] + [s[i]] + s[i + 1..];
  }

  lemma {:induction false} SumWithout(log: seq<Event>, i: nat, f: Event -> nat)
    requires i < |log|
    ensures Sum(log, f) == f(log[i]) + Sum(log[..i] + log[i + 1..], f)
  {
    var n := |log| - 1;
    if i == n {
      assert log[..i] + log[i + 1..] == log[..n];
    } else {
      var rest := log[..i] + log[i + 1..];
      assert rest[..n - 1] == log[..n][..i] + log[..n][i + 1..];
      SumWithout(log[..n], i, f);
    }
  }

  /** The composition does not depend on the order in which the blocks are visited. */
  lemma OrderDoesNotMatter(a: seq<Event>, b: seq<Event>, hash: string -> int)
    requires Injective(hash) && multiset(a) == multiset(b)
    ensures Compose(a, hash) == Compose(b, hash)
  {
    SumOfMultiset(a, b, TotalOf);
    SumOfMultiset(a, b, NotedOf);
    SumOfMultiset(a, b, ResultOf);
    SumOfMultiset(a, b, InputOf);
    SumOfMultiset(a, b, ImageOf);
    assert forall e :: e in a <==> e in multiset(a);
    assert forall e :: e in b <==> e in multiset(b);
    assert Texts(a) == Texts(b);
    DuplicatesAreRepeats(a, hash);
    DuplicatesAreRepeats(b, hash);
  }

  // ----- what a body contains: each function extends the log by the part it reads

  function AfterText(log: seq<Event>, v: Option<Value>): seq<Event> {
    match AsStr(v) case Some(s) => log + [Note(s, Other)] case None => log
  }

  function AfterTexts(log: seq<Event>, blocks: seq<Value>): seq<Event> {
    if blocks == [] then log
    else AfterText(AfterTexts(log, blocks[..|blocks| - 1]), Get(blocks[|blocks| - 1], "text"))
  }

  function AfterSystem(log: seq<Event>, body: Value): seq<Event> {
    match Get(body, "system")
    case Some(Str(s)) => log + [Note(s, Other)]
    case Some(Arr(blocks)) => AfterTexts(log, blocks)
    case _ => log
  }

  function AfterTools(log: seq<Event>, body: Value, show: Value -> string): seq<Event> {
    match Get(body, "tools")
    case Some(v) => if v.Null? then log else log + [Tools(EstTokens(show(v)))]
    case None => log
  }

  /** The text blocks of a tool result, joined by newlines. */
  function JoinedTexts(items: seq<Value>): string {
    if items == [] then ""
    else
      var out := JoinedTexts(items[..|items| - 1]);
      match AsStr(Get(items[|items| - 1], "text"))
      case Some(t) => (if out == "" then out else out + "\n") + t
      case None => out
  }

  function ToolResultText(block: Value): string {
    match Get(block, "content")
    case Some(Str(s)) => s
    case Some(Arr(items)) => JoinedTexts(items)
    case _ => ""
  }

  method CollectToolResultText(block: Value) returns (out: string)
    ensures out == ToolResultText(block)
  {
    match Get(block, "content")
    case Some(Str(s)) => out := s;
    case Some(Arr(items)) =>
      out := "";
      for i := 0 to |items|
        invariant out == JoinedTexts(items[..i])
      {
        assert items[..i + 1][..i] == items[..i];
        var t := AsStr(Get(items[i], "text"));
        if t.Some? {
          if out != "" {
            out := out + "\n";
          }
          out := out + t.value;
        }
      }
      assert items[..|items|] == items;
    case _ => out := "";
  }

  function ArgumentEvent(v: Value, show: Value -> string): Event {
    match v case Str(s) => Note(s, ToolUseInput) case other => Note(show(other), Other)
  }

  function AfterArguments(log: seq<Event>, fields: seq<(string, Value)>, show: Value -> string): seq<Event> {
    if fields == [] then log
    else AfterArguments(log, fields[..|fields| - 1], show) + [ArgumentEvent(fields[|fields| - 1].1, show)]
  }

  function AfterToolUse(log: seq<Event>, block: Value, show: Value -> string): seq<Event> {
    match Get(block, "input")
    case Some(Obj(fields)) => AfterArguments(log, fields, show)
    case Some(other) => log + [Note(show(other), Other)]
    case None => log
  }

  function AfterBlock(log: seq<Event>, b: Value, show: Value -> string): seq<Event> {
    match AsStr(Get(b, "type"))
    case Some("text") => AfterText(log, Get(b, "text"))
    case Some("tool_result") => log + [Note(ToolResultText(b), ToolResult)]
    case Some("tool_use") => AfterToolUse(log, b, show)
    case Some(t) =>
      if t == "image" || t == "document" then
        (if AsStr(Pointer(b, ["source", "data"])).Some? then log + [Image] else log)
      else if t == "image_url" && AsStr(Pointer(b, ["image_url", "url"])).Some? then log + [Image]
      else log
    case None => log
  }

  function AfterBlocks(log: seq<Event>, blocks: seq<Value>, show: Value -> string): seq<Event> {
    if blocks == [] then log
    else AfterBlock(AfterBlocks(log, blocks[..|blocks| - 1], show), blocks[|blocks| - 1], show)
  }

  function AfterMessage(log: seq<Event>, msg: Value, show: Value -> string): seq<Event> {
    match Get(msg, "content")
    case Some(Str(s)) => log + [Note(s, Other)]
    case Some(Arr(blocks)) => AfterBlocks(log, blocks, show)
    case _ => log
  }

  function AfterMessages(log: seq<Event>, messages: seq<Value>, show: Value -> string): seq<Event> {
    if messages == [] then log
    else AfterMessage(AfterMessages(log, messages[..|messages| - 1], show), messages[|messages| - 1], show)
  }

  /** Everything a body holds, in the order of the walk. */
  function BodyEvents(body: Value, show: Value -> string): seq<Event> {
    var log := AfterTools(AfterSystem([], body), body, show);
    match AsArr(Get(body, "messages"))
    case Some(messages) => AfterMessages(log, messages, show)
    case None => log
  }

  lemma OneMore<T>(items: seq<T>, i: nat)
    requires i < |items|
    ensures items[..i + 1] != [] && items[..i + 1][..|items[..i + 1]| - 1] == items[..i]
    ensures items[..i + 1][|items[..i + 1]| - 1] == items[i]
    ensures items[..|items|] == items
  {
  }

  // ----- the analyzer

  class Analyzer {
    const hash: string -> int
    const show: Value -> string
    var comp: Composition
    var seen: map<int, nat>
    ghost var log: seq<Event>

    ghost predicate Valid()
      reads this
    {
      comp == Compose(log, hash) && seen.Keys == Hashes(log, hash)
    }

    constructor (hash: string -> int, show: Value -> string)
      ensures Valid() && log == []
      ensures this.hash == hash && this.show == show
    {
      this.hash := hash;
      this.show := show;
      comp := Composition(0, 0, 0, 0, 0);
      seen := map[];
      log := [];
    }

    /** Accounts one block of text. */
    method NoteBlock(text: string, kind: Kind)
      requires Valid()
      modifies this
      ensures Valid() && log == old(log) + [Note(text, kind)]
    {
      ghost var before := log;
      log := log + [Note(text, kind)];
      if text == "" {
        EmptyNoteStep(before, kind, hash);
        return;
      }
      NoteStep(before, text, kind, hash);
      var t := EstTokens(text);
      var h := hash(text);
      var repeats := h in seen;
      Count(t, kind, repeats);
      if !repeats {
        seen := seen[h := t];
      }
    }

    /** Adds tokens to the counters they belong to. */
    method Count(t: nat, kind: Kind, repeats: bool)
      modifies this`comp
      ensures comp == AddTokens(old(comp), t, kind, repeats)
    {
      comp := comp.(total := comp.total + t);
      if kind == ToolResult {
        comp := comp.(toolResult := comp.toolResult + t);
      } else if kind == ToolUseInput {
        comp := comp.(toolUseInput := comp.toolUseInput + t);
      }
      if repeats {
        comp := comp.(duplicate := comp.duplicate + t);
      }
    }

    /** Accounts the tool definitions, or an image: neither is ever a duplicate. */
    method AddFlat(e: Event)
      requires Valid() && !e.Note?
      modifies this
      ensures Valid() && log == old(log) + [e]
    {
      ghost var before := log;
      log := log + [e];
      LedgerStep(before, e, hash);
      comp := comp.(total := comp.total + TotalOf(e), image := comp.image + ImageOf(e));
    }

    method NoteText(v: Option<Value>)
      requires Valid()
      modifies this
      ensures Valid() && log == AfterText(old(log), v)
    {
      var t := AsStr(v);
      if t.Some? {
        NoteBlock(t.value, Other);
      }
    }

    method NoteSystem(body: Value)
      requires Valid()
      modifies this
      ensures Valid() && log == AfterSystem(old(log), body)
    {
      match Get(body, "system")
      case Some(Str(s)) => NoteBlock(s, Other);
      case Some(Arr(blocks)) => NoteTexts(blocks);
      case _ =>
    }

    method NoteTexts(blocks: seq<Value>)
      requires Valid()
      modifies this
      ensures Valid() && log == AfterTexts(old(log), blocks)
    {
      for i := 0 to |blocks|
        invariant Valid() && log == AfterTexts(old(log), blocks[..i])
      {
        OneMore(blocks, i);
        NoteText(Get(blocks[i], "text"));
      }
      assert blocks[..|blocks|] == blocks;
    }

    method NoteArgument(v: Value)
      requires Valid()
      modifies this
      ensures Valid() && log == old(log) + [ArgumentEvent(v, show)]
    {
      match v
      case Str(s) => NoteBlock(s, ToolUseInput);
      case other => NoteBlock(show(other), Other);
    }

    method NoteArguments(fields: seq<(string, Value)>)
      requires Valid()
      modifies this
      ensures Valid() && log == AfterArguments(old(log), fields, show)
    {
      for i := 0 to |fields|
        invariant Valid() && log == AfterArguments(old(log), fields[..i], show)
      {
        OneMore(fields, i);
        NoteArgument(fields[i].1);
      }
      assert fields[..|fields|] == fields;
    }

    method NoteContentBlock(b: Value)
      requires Valid()
      modifies this
      ensures Valid() && log == AfterBlock(old(log), b, show)
    {
      match AsStr(Get(b, "type"))
      case Some("text") => NoteText(Get(b, "text"));
      case Some("tool_result") =>
        var text := CollectToolResultText(b);
        NoteBlock(text, ToolResult);
      case Some("tool_use") =>
        match Get(b, "input") {
          case Some(Obj(fields)) => NoteArguments(fields);
          case Some(other) => NoteBlock(show(other), Other);
          case None =>
        }
      case Some(t) =>
        if t == "image" || t == "document" {
          if AsStr(Pointer(b, ["source", "data"])).Some? {
            AddFlat(Image);
          }
        } else if t == "image_url" && AsStr(Pointer(b, ["image_url", "url"])).Some? {
          AddFlat(Image);
        }
      case None =>
    }

    method NoteContentBlocks(blocks: seq<Value>)
      requires Valid()
      modifies this
      ensures Valid() && log == AfterBlocks(old(log), blocks, show)
    {
      for i := 0 to |blocks|
        invariant Valid() && log == AfterBlocks(old(log), blocks[..i], show)
      {
        OneMore(blocks, i);
        NoteContentBlock(blocks[i]);
      }
      assert blocks[..|blocks|] == blocks;
    }

    method NoteMessages(messages: seq<Value>)
      requires Valid()
      modifies this
      ensures Valid() && log == AfterMessages(old(log), messages, show)
    {
      for i := 0 to |messages|
        invariant Valid() && log == AfterMessages(old(log), messages[..i], show)
      {
        OneMore(messages, i);
        match Get(messages[i], "content") {
          case Some(Str(s)) => NoteBlock(s, Other);
          case Some(Arr(blocks)) => NoteContentBlocks(blocks);
          case _ =>
        }
      }
      assert messages[..|messages|] == messages;
    }
  }

  /** The whole walk: the result is the ledger of everything in the body. */
  method Analyze(body: Value, show: Value -> string, hash: string -> int) returns (c: Composition)
    ensures c == Compose(BodyEvents(body, show), hash)
    ensures c.toolResult + c.toolUseInput + c.image <= c.total && c.duplicate + c.image <= c.total
  {
    var a := new Analyzer(hash, show);
    a.NoteSystem(body);
    var tools := Get(body, "tools");
    if tools.Some? && !tools.value.Null? {
      a.AddFlat(Tools(EstTokens(show(tools.value))));
    }
    assert a.log == AfterTools(AfterSystem([], body), body, show);
    var messages := AsArr(Get(body, "messages"));
    if messages.Some? {
      a.NoteMessages(messages.value);
    }
    PartsWithinTotal(a.log, hash);
    c := a.comp;
  }
}
