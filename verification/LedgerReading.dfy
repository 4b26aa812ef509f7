/**
  Requests written from what they are to contain: the counters of the ledger are exactly what the
  contents add up to, kind by kind.
*/
module LedgerReading {
  import opened Options
  import opened Text
  import opened Json
  import opened ContextLedger
  import Utf8

  // ----- requests

  datatype Piece =
    | TextPiece(text: string)
    | ResultText(text: string)
    | ResultParts(texts: seq<string>)
    | Use(args: seq<(string, Value)>)
    | UseOther(input: Value)
    | Picture(kind: string, data: string)
    | PictureAt(url: string)
    | Unknown(kind: string)

  datatype Turn = Plain(text: string) | Pieces(pieces: seq<Piece>)

  datatype System = NoSystem | SystemText(text: string) | SystemParts(texts: seq<string>)

  datatype Request = Request(system: System, tools: Option<Value>, turns: seq<Turn>)

  predicate IsPiece(p: Piece) {
    match p
    case UseOther(input) => !input.Obj?
    case Picture(kind, _) => kind == "image" || kind == "document"
    case Unknown(kind) =>
      kind != "text" && kind != "tool_result" && kind != "tool_use" && kind != "image" && kind != "document" &&
      kind != "image_url"
    case _ => true
  }

  ghost predicate IsTurn(t: Turn) {
    t.Pieces? ==> forall p :: p in t.pieces ==> IsPiece(p)
  }

  ghost predicate IsRequest(r: Request) {
    (r.tools.Some? ==> !r.tools.value.Null?) && forall t :: t in r.turns ==> IsTurn(t)
  }

  // ----- as JSON

  function TextBlock(text: string): Value {
    Obj([("type", Str("text")), ("text", Str(text))])
  }

  function TextBlocks(texts: seq<string>): seq<Value> {
    seq(|texts|, i requires 0 <= i < |texts| => TextBlock(texts[i]))
  }

  function Written(p: Piece): Value {
    match p
    case TextPiece(text) => TextBlock(text)
    case ResultText(text) => Obj([("type", Str("tool_result")), ("content", Str(text))])
    case ResultParts(texts) => Obj([("type", Str("tool_result")), ("content", Arr(TextBlocks(texts)))])
    case Use(args) => Obj([("type", Str("tool_use")), ("input", Obj(args))])
    case UseOther(input) => Obj([("type", Str("tool_use")), ("input", input)])
    case Picture(kind, data) => Obj([("type", Str(kind)), ("source", Obj([("data", Str(data))]))])
    case PictureAt(url) => Obj([("type", Str("image_url")), ("image_url", Obj([("url", Str(url))]))])
    case Unknown(kind) => Obj([("type", Str(kind)), ("data", Null)])
  }

  function WrittenAll(pieces: seq<Piece>): seq<Value> {
    seq(|pieces|, i requires 0 <= i < |pieces| => Written(pieces[i]))
  }

  function WrittenTurn(t: Turn): Value {
    match t
    case Plain(text) => Obj([("content", Str(text))])
    case Pieces(pieces) => Obj([("content", Arr(WrittenAll(pieces)))])
  }

  function WrittenTurns(turns: seq<Turn>): seq<Value> {
    seq(|turns|, i requires 0 <= i < |turns| => WrittenTurn(turns[i]))
  }

  function WrittenSystem(s: System): Value {
    match s case NoSystem => Null case SystemText(text) => Str(text) case SystemParts(texts) => Arr(TextBlocks(texts))
  }

  function Body(r: Request): Value {
    Obj([("system", WrittenSystem(r.system)), ("tools", r.tools.GetOr(Null)), ("messages", Arr(WrittenTurns(r.turns)))])
  }

  // ----- what it adds up to

  datatype Shares = Shares(total: nat, result: nat, input: nat, image: nat) {
    function Plus(s: Shares): Shares {
      Shares(total + s.total, result + s.result, input + s.input, image + s.image)
    }
  }

  const NONE := Shares(0, 0, 0, 0)

  /** Four bytes to a token, rounded up. */
  function Tokens(s: string): nat {
    (|Utf8.Encode(s)| + 3) / 4
  }

  /** Empty texts in front of a result leave no line behind. */
  function WithoutEmptyFront(texts: seq<string>): seq<string> {
    if texts != [] && texts[0] == "" then WithoutEmptyFront(texts[1..]) else texts
  }

  function ArgShare(v: Value, show: Value -> string): Shares {
    match v
    case Str(s) => Shares(Tokens(s), 0, Tokens(s), 0)
    case other => Shares(Tokens(show(other)), 0, 0, 0)
  }

  function ArgShares(args: seq<(string, Value)>, show: Value -> string): Shares {
    if args == [] then NONE else ArgShares(args[..|args| - 1], show).Plus(ArgShare(args[|args| - 1].1, show))
  }

  function TextShares(texts: seq<string>): Shares {
    if texts == [] then NONE else TextShares(texts[..|texts| - 1]).Plus(Shares(Tokens(texts[|texts| - 1]), 0, 0, 0))
  }

  function PieceShare(p: Piece, show: Value -> string): Shares {
    match p
    case TextPiece(text) => Shares(Tokens(text), 0, 0, 0)
    case ResultText(text) => Shares(Tokens(text), Tokens(text), 0, 0)
    case ResultParts(texts) =>
      var t := Tokens(Join(WithoutEmptyFront(texts), "\n"));
      Shares(t, t, 0, 0)
    case Use(args) => ArgShares(args, show)
    case UseOther(input) => Shares(Tokens(show(input)), 0, 0, 0)
    case Picture(_, _) => Shares(1300, 0, 0, 1300)
    case PictureAt(_) => Shares(1300, 0, 0, 1300)
    case Unknown(_) => NONE
  }

  function PieceShares(pieces: seq<Piece>, show: Value -> string): Shares {
    if pieces == [] then NONE
    else PieceShares(pieces[..|pieces| - 1], show).Plus(PieceShare(pieces[|pieces| - 1], show))
  }

  function TurnShare(t: Turn, show: Value -> string): Shares {
    match t case Plain(text) => Shares(Tokens(text), 0, 0, 0) case Pieces(pieces) => PieceShares(pieces, show)
  }

  function TurnShares(turns: seq<Turn>, show: Value -> string): Shares {
    if turns == [] then NONE
    else TurnShares(turns[..|turns| - 1], show).Plus(TurnShare(turns[|turns| - 1], show))
  }

  function SystemShare(s: System): Shares {
    match s
    case NoSystem => NONE
    case SystemText(text) => Shares(Tokens(text), 0, 0, 0)
    case SystemParts(texts) => TextShares(texts)
  }

  function ToolsShare(tools: Option<Value>, show: Value -> string): Shares {
    match tools case Some(v) => Shares(Tokens(show(v)), 0, 0, 0) case None => NONE
  }

  /** The system prompt, the printed tools, and every turn. */
  function RequestShares(r: Request, show: Value -> string): Shares {
    SystemShare(r.system).Plus(ToolsShare(r.tools, show)).Plus(TurnShares(r.turns, show))
  }

  // ----- reading it

  function SharesOf(log: seq<Event>): Shares {
    Shares(Sum(log, TotalOf), Sum(log, ResultOf), Sum(log, InputOf), Sum(log, ImageOf))
  }

  lemma {:induction false} MoreShares(log: seq<Event>, e: Event)
    ensures SharesOf(log + [e]) == SharesOf(log).Plus(Shares(TotalOf(e), ResultOf(e), InputOf(e), ImageOf(e)))
  {
    assert (log + [e])[..|log|] == log;
  }

  lemma {:induction false} Associate(a: Shares, b: Shares, c: Shares)
    ensures a.Plus(b).Plus(c) == a.Plus(b.Plus(c)) && a.Plus(NONE) == a
  {
  }

  lemma {:induction false} TwoFields(a: string, x: Value, b: string, y: Value)
    requires a != b
    ensures Get(Obj([(a, x), (b, y)]), a) == Some(x) && Get(Obj([(a, x), (b, y)]), b) == Some(y)
  {
    FieldIs([(a, x), (b, y)], 0);
    FieldIs([(a, x), (b, y)], 1);
  }

  lemma {:induction false} NoteShares(log: seq<Event>, text: string, kind: Kind)
    ensures SharesOf(log + [Note(text, kind)]) ==
              SharesOf(log).Plus(Shares(Tokens(text), if kind == ToolResult then Tokens(text) else 0,
                if kind == ToolUseInput then Tokens(text) else 0, 0))
  {
    MoreShares(log, Note(text, kind));
  }

  lemma {:induction false} TextBlockReads(text: string)
    ensures Get(TextBlock(text), "text") == Some(Str(text)) && Get(TextBlock(text), "type") == Some(Str("text"))
  {
    TwoFields("type", Str("text"), "text", Str(text));
  }

  lemma {:induction false} TextsAreShared(log: seq<Event>, texts: seq<string>)
    ensures SharesOf(AfterTexts(log, TextBlocks(texts))) == SharesOf(log).Plus(TextShares(texts))
  {
    if texts == [] {
      Associate(SharesOf(log), NONE, NONE);
    } else {
      var n := |texts| - 1;
      var before := AfterTexts(log, TextBlocks(texts[..n]));
      TextsAreShared(log, texts[..n]);
      assert TextBlocks(texts)[..n] == TextBlocks(texts[..n]);
      TextIsNoted(before, texts[n]);
      Associate(SharesOf(log), TextShares(texts[..n]), Shares(Tokens(texts[n]), 0, 0, 0));
    }
  }

  lemma {:induction false} TextIsNoted(log: seq<Event>, text: string)
    ensures SharesOf(AfterText(log, Get(TextBlock(text), "text"))) == SharesOf(log).Plus(Shares(Tokens(text), 0, 0, 0))
  {
    TextBlockReads(text);
    NoteShares(log, text, Other);
  }

  lemma {:induction false} JoinMore(texts: seq<string>, t: string)
    requires texts != []
    ensures Join(texts + [t], "\n") == Join(texts, "\n") + "\n" + t
  {
    assert (texts + [t])[1..] == texts[1..] + [t];
    if |texts| > 1 {
      JoinMore(texts[1..], t);
    }
  }

  lemma {:induction false} FrontStays(texts: seq<string>, t: string)
    ensures WithoutEmptyFront(texts + [t]) ==
              if WithoutEmptyFront(texts) == [] then WithoutEmptyFront([t]) else WithoutEmptyFront(texts) + [t]
  {
    if texts == [] {
      assert texts + [t] == [t];
    } else if texts[0] == "" {
      assert (texts + [t])[1..] == texts[1..] + [t];
      FrontStays(texts[1..], t);
    }
  }

  lemma {:induction false} JoinIsEmpty(texts: seq<string>)
    ensures Join(WithoutEmptyFront(texts), "\n") == "" <==> WithoutEmptyFront(texts) == []
  {
    if texts != [] && texts[0] == "" {
      JoinIsEmpty(texts[1..]);
    }
  }

  lemma {:induction false} JoinedIs(texts: seq<string>)
    ensures JoinedTexts(TextBlocks(texts)) == Join(WithoutEmptyFront(texts), "\n")
  {
    if texts != [] {
      var n := |texts| - 1;
      JoinedIs(texts[..n]);
      assert TextBlocks(texts)[..n] == TextBlocks(texts[..n]);
      TextBlockReads(texts[n]);
      assert texts == texts[..n] + [texts[n]];
      JoinedStep(texts[..n], texts[n]);
    }
  }

  lemma {:induction false} JoinedStep(texts: seq<string>, t: string)
    ensures var out := Join(WithoutEmptyFront(texts), "\n");
            Join(WithoutEmptyFront(texts + [t]), "\n") == (if out == "" then out else out + "\n") + t
  {
    FrontStays(texts, t);
    JoinIsEmpty(texts);
    if WithoutEmptyFront(texts) == [] {
      assert "" + t == t;
      assert t == "" ==> WithoutEmptyFront([t]) == [] by { assert [t][1..] == []; }
    } else {
      JoinMore(WithoutEmptyFront(texts), t);
    }
  }

  lemma {:induction false} ArgsAreShared(log: seq<Event>, args: seq<(string, Value)>, show: Value -> string)
    ensures SharesOf(AfterArguments(log, args, show)) == SharesOf(log).Plus(ArgShares(args, show))
  {
    if args == [] {
      Associate(SharesOf(log), NONE, NONE);
    } else {
      var n := |args| - 1;
      ArgsAreShared(log, args[..n], show);
      ArgIsShared(AfterArguments(log, args[..n], show), args[n].1, show);
      Associate(SharesOf(log), ArgShares(args[..n], show), ArgShare(args[n].1, show));
    }
  }

  lemma {:induction false} ArgIsShared(log: seq<Event>, v: Value, show: Value -> string)
    ensures SharesOf(log + [ArgumentEvent(v, show)]) == SharesOf(log).Plus(ArgShare(v, show))
  {
    match v
    case Str(s) => NoteShares(log, s, ToolUseInput);
    case other => NoteShares(log, show(other), Other);
  }

  lemma {:induction false} PictureReads(p: Piece)
    requires IsPiece(p) && (p.Picture? || p.PictureAt?)
    ensures p.Picture? ==> AsStr(Pointer(Written(p), ["source", "data"])) == Some(p.data)
    ensures p.PictureAt? ==> AsStr(Pointer(Written(p), ["image_url", "url"])) == Some(p.url)
  {
    match p
    case Picture(kind, data) =>
      TwoFields("type", Str(kind), "source", Obj([("data", Str(data))]));
      FieldIs([("data", Str(data))], 0);
      PointerTwo(Written(p), "source", Obj([("data", Str(data))]), "data");
    case PictureAt(url) =>
      TwoFields("type", Str("image_url"), "image_url", Obj([("url", Str(url))]));
      FieldIs([("url", Str(url))], 0);
      PointerTwo(Written(p), "image_url", Obj([("url", Str(url))]), "url");
    case _ =>
  }

  lemma {:induction false} AfterTextBlock(log: seq<Event>, b: Value, show: Value -> string, text: string)
    requires AsStr(Get(b, "type")) == Some("text") && Get(b, "text") == Some(Str(text))
    ensures AfterBlock(log, b, show) == log + [Note(text, Other)]
  {
  }

  lemma {:induction false} AfterResult(log: seq<Event>, b: Value, show: Value -> string)
    requires AsStr(Get(b, "type")) == Some("tool_result")
    ensures AfterBlock(log, b, show) == log + [Note(ToolResultText(b), ToolResult)]
  {
  }

  lemma {:induction false} AfterUse(log: seq<Event>, b: Value, show: Value -> string, input: Value)
    requires AsStr(Get(b, "type")) == Some("tool_use") && Get(b, "input") == Some(input)
    ensures AfterBlock(log, b, show) ==
              if input.Obj? then AfterArguments(log, input.fields, show) else log + [Note(show(input), Other)]
  {
  }

  lemma {:induction false} TextIsShared(log: seq<Event>, p: Piece, show: Value -> string)
    requires p.TextPiece? || p.ResultText? || p.ResultParts?
    ensures SharesOf(AfterBlock(log, Written(p), show)) == SharesOf(log).Plus(PieceShare(p, show))
  {
    if p.TextPiece? {
      TextBlockReads(p.text);
      AfterTextBlock(log, Written(p), show, p.text);
      NoteShares(log, p.text, Other);
    } else {
      var content := if p.ResultText? then Str(p.text) else Arr(TextBlocks(p.texts));
      TwoFields("type", Str("tool_result"), "content", content);
      AfterResult(log, Written(p), show);
      if p.ResultParts? {
        JoinedIs(p.texts);
      }
      NoteShares(log, ToolResultText(Written(p)), ToolResult);
    }
  }

  lemma {:induction false} UseIsShared(log: seq<Event>, p: Piece, show: Value -> string)
    requires IsPiece(p) && (p.Use? || p.UseOther?)
    ensures SharesOf(AfterBlock(log, Written(p), show)) == SharesOf(log).Plus(PieceShare(p, show))
  {
    var input := if p.Use? then Obj(p.args) else p.input;
    TwoFields("type", Str("tool_use"), "input", input);
    AfterUse(log, Written(p), show, input);
    if p.Use? {
      ArgsAreShared(log, p.args, show);
    } else {
      NoteShares(log, show(p.input), Other);
    }
  }

  lemma {:induction false} AfterPicture(log: seq<Event>, b: Value, show: Value -> string, kind: string)
    requires AsStr(Get(b, "type")) == Some(kind) && (kind == "image" || kind == "document")
    requires AsStr(Pointer(b, ["source", "data"])).Some?
    ensures AfterBlock(log, b, show) == log + [Image]
  {
  }

  lemma {:induction false} AfterPictureAt(log: seq<Event>, b: Value, show: Value -> string)
    requires AsStr(Get(b, "type")) == Some("image_url") && AsStr(Pointer(b, ["image_url", "url"])).Some?
    ensures AfterBlock(log, b, show) == log + [Image]
  {
  }

  lemma {:induction false} AfterUnknown(log: seq<Event>, b: Value, show: Value -> string, kind: string)
    requires AsStr(Get(b, "type")) == Some(kind) && IsPiece(Unknown(kind))
    ensures AfterBlock(log, b, show) == log
  {
  }

  lemma {:induction false} ImageShares(log: seq<Event>)
    ensures SharesOf(log + [Image]) == SharesOf(log).Plus(Shares(1300, 0, 0, 1300))
  {
    MoreShares(log, Image);
  }

  lemma {:induction false} TypeReads(kind: string, key: string, v: Value)
    requires key != "type"
    ensures AsStr(Get(Obj([("type", Str(kind)), (key, v)]), "type")) == Some(kind)
  {
    TwoFields("type", Str(kind), key, v);
  }

  lemma {:induction false} RestIsShared(log: seq<Event>, p: Piece, show: Value -> string)
    requires IsPiece(p) && (p.Picture? || p.PictureAt? || p.Unknown?)
    ensures SharesOf(AfterBlock(log, Written(p), show)) == SharesOf(log).Plus(PieceShare(p, show))
  {
    var b := Written(p);
    if p.Picture? {
      PictureReads(p);
      TypeReads(p.kind, "source", Obj([("data", Str(p.data))]));
      AfterPicture(log, b, show, p.kind);
      ImageShares(log);
    } else if p.PictureAt? {
      PictureReads(p);
      TypeReads("image_url", "image_url", Obj([("url", Str(p.url))]));
      AfterPictureAt(log, b, show);
      ImageShares(log);
    } else {
      TypeReads(p.kind, "data", Null);
      AfterUnknown(log, b, show, p.kind);
      Associate(SharesOf(log), NONE, NONE);
    }
  }

  lemma {:induction false} PiecesAreShared(log: seq<Event>, pieces: seq<Piece>, show: Value -> string)
    requires forall p :: p in pieces ==> IsPiece(p)
    ensures SharesOf(AfterBlocks(log, WrittenAll(pieces), show)) == SharesOf(log).Plus(PieceShares(pieces, show))
  {
    if pieces == [] {
      Associate(SharesOf(log), NONE, NONE);
    } else {
      var n := |pieces| - 1;
      var before := AfterBlocks(log, WrittenAll(pieces[..n]), show);
      PiecesAreShared(log, pieces[..n], show);
      assert WrittenAll(pieces)[..n] == WrittenAll(pieces[..n]);
      PieceIsShared(before, pieces[n], show);
      Associate(SharesOf(log), PieceShares(pieces[..n], show), PieceShare(pieces[n], show));
    }
  }

  lemma {:induction false} PieceIsShared(log: seq<Event>, p: Piece, show: Value -> string)
    requires IsPiece(p)
    ensures SharesOf(AfterBlock(log, Written(p), show)) == SharesOf(log).Plus(PieceShare(p, show))
  {
    if p.TextPiece? || p.ResultText? || p.ResultParts? {
      TextIsShared(log, p, show);
    } else if p.Use? || p.UseOther? {
      UseIsShared(log, p, show);
    } else {
      RestIsShared(log, p, show);
    }
  }

  lemma {:induction false} TurnIsShared(log: seq<Event>, t: Turn, show: Value -> string)
    requires IsTurn(t)
    ensures SharesOf(AfterMessage(log, WrittenTurn(t), show)) == SharesOf(log).Plus(TurnShare(t, show))
  {
    match t
    case Plain(text) =>
      FieldIs([("content", Str(text))], 0);
      NoteShares(log, text, Other);
    case Pieces(pieces) =>
      FieldIs([("content", Arr(WrittenAll(pieces)))], 0);
      PiecesAreShared(log, pieces, show);
  }

  lemma {:induction false} TurnsAreShared(log: seq<Event>, turns: seq<Turn>, show: Value -> string)
    requires forall t :: t in turns ==> IsTurn(t)
    ensures SharesOf(AfterMessages(log, WrittenTurns(turns), show)) == SharesOf(log).Plus(TurnShares(turns, show))
  {
    if turns == [] {
      Associate(SharesOf(log), NONE, NONE);
    } else {
      var n := |turns| - 1;
      var before := AfterMessages(log, WrittenTurns(turns[..n]), show);
      TurnsAreShared(log, turns[..n], show);
      assert WrittenTurns(turns)[..n] == WrittenTurns(turns[..n]);
      TurnIsShared(before, turns[n], show);
      Associate(SharesOf(log), TurnShares(turns[..n], show), TurnShare(turns[n], show));
    }
  }

  lemma {:induction false} BodyReads(r: Request)
    ensures Get(Body(r), "system") == Some(WrittenSystem(r.system))
    ensures Get(Body(r), "tools") == Some(r.tools.GetOr(Null))
    ensures Get(Body(r), "messages") == Some(Arr(WrittenTurns(r.turns)))
  {
    FieldIs(Body(r).fields, 0);
    FieldIs(Body(r).fields, 1);
    FieldIs(Body(r).fields, 2);
  }

  lemma {:induction false} NothingShared()
    ensures SharesOf([]) == NONE
  {
  }

  lemma {:induction false} NonePlus(a: Shares)
    ensures NONE.Plus(a) == a
  {
  }

  lemma {:induction false} AfterSystemIs(body: Value, v: Value)
    requires Get(body, "system") == Some(v) && (v.Null? || v.Str? || v.Arr?)
    ensures AfterSystem([], body) ==
              if v.Str? then [Note(v.s, Other)] else if v.Arr? then AfterTexts([], v.items) else []
  {
  }

  lemma {:induction false} SystemTextIsShared(text: string)
    ensures SharesOf([Note(text, Other)]) == Shares(Tokens(text), 0, 0, 0)
  {
    NothingShared();
    NoteShares([], text, Other);
    NonePlus(Shares(Tokens(text), 0, 0, 0));
    assert [] + [Note(text, Other)] == [Note(text, Other)];
  }

  lemma {:induction false} SystemIsShared(body: Value, system: System)
    requires Get(body, "system") == Some(WrittenSystem(system))
    ensures SharesOf(AfterSystem([], body)) == SystemShare(system)
  {
    AfterSystemIs(body, WrittenSystem(system));
    if system.SystemText? {
      SystemTextIsShared(system.text);
    } else if system.SystemParts? {
      TextsAreShared([], system.texts);
      NothingShared();
      NonePlus(TextShares(system.texts));
    } else {
      NothingShared();
    }
  }

  lemma {:induction false} ToolsAreShared(log: seq<Event>, body: Value, tools: Option<Value>, show: Value -> string)
    requires Get(body, "tools") == Some(tools.GetOr(Null)) && (tools.Some? ==> !tools.value.Null?)
    ensures SharesOf(AfterTools(log, body, show)) == SharesOf(log).Plus(ToolsShare(tools, show))
  {
    if tools.Some? {
      MoreShares(log, Tools(EstTokens(show(tools.value))));
    } else {
      Associate(SharesOf(log), NONE, NONE);
    }
  }

  lemma {:induction false} BodyIs(body: Value, messages: seq<Value>, show: Value -> string)
    requires Get(body, "messages") == Some(Arr(messages))
    ensures BodyEvents(body, show) == AfterMessages(AfterTools(AfterSystem([], body), body, show), messages, show)
  {
  }

  lemma {:induction false} BodyIsShared(body: Value, r: Request, show: Value -> string, a: seq<Event>, b: seq<Event>,
    c: seq<Event>)
    requires Get(body, "system") == Some(WrittenSystem(r.system)) && Get(body, "tools") == Some(r.tools.GetOr(Null))
    requires IsRequest(r) && a == AfterSystem([], body) && b == AfterTools(a, body, show)
    requires c == AfterMessages(b, WrittenTurns(r.turns), show)
    ensures SharesOf(c) == RequestShares(r, show)
  {
    SystemIsShared(body, r.system);
    ToolsAreShared(a, body, r.tools, show);
    TurnsAreShared(b, r.turns, show);
  }

  /** What the walk over a request counts is what the request contains: results, string arguments of tool
      calls and pictures under their own heads, and all of it, the tools included, in the total. */
  lemma {:induction false} CountersAddUp(r: Request, show: Value -> string, hash: string -> int)
    requires IsRequest(r)
    ensures var c := Compose(BodyEvents(Body(r), show), hash);
            Shares(c.total, c.toolResult, c.toolUseInput, c.image) == RequestShares(r, show)
  {
    var a := AfterSystem([], Body(r));
    var b := AfterTools(a, Body(r), show);
    BodyReads(r);
    BodyIs(Body(r), WrittenTurns(r.turns), show);
    BodyIsShared(Body(r), r, show, a, b, AfterMessages(b, WrittenTurns(r.turns), show));
  }
}
