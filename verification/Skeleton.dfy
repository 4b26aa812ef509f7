/**
  The outline of a JSON text: names and kinds of values down to the second level, cut short where it
  gets long.
*/
module Skeleton {
  import opened Options
  import opened Text
  import opened Lines
  import opened Elision
  import opened Json
  import opened Utf8

  const KEYS_LIMIT: nat := 700
  const BODY_LIMIT: nat := KEYS_LIMIT + 200
  const SHORT_TEXT: nat := 24
  const MAX_DEPTH: nat := 2

  function ShowInt(n: int): string {
    if n < 0 then "-" + Dec(-n) else Dec(n)
  }

  function ShowStr(s: string): string {
    if |s| > SHORT_TEXT then "\"" + s[..SHORT_TEXT] + "…\"(" + Dec(|s|) + " chars)" else "\"" + s + "\""
  }

  /** Values that take one piece of text at this depth. */
  function Leaf(v: Value, depth: nat): Option<string> {
    match v
    case Null => Some("null")
    case Bool(b) => Some(if b then "true" else "false")
    case Int(n) => Some(ShowInt(n))
    case Float(text) => Some(text)
    case Str(s) => Some(ShowStr(s))
    case Arr(items) =>
      if items == [] then Some("[]") else if depth == 0 then None else Some("[" + Dec(|items|) + " items]")
    case Obj(fields) => if depth >= MAX_DEPTH then Some("{" + Dec(|fields|) + " keys}") else None
  }

  // ----- what is put out

  function Left(depth: nat): nat {
    if depth < MAX_DEPTH then MAX_DEPTH - depth else 0
  }

  /** `out` with the outline of a value behind it. */
  function Skel(v: Value, depth: nat, out: string): string
    decreases Left(depth), 1, 0
  {
    var leaf := Leaf(v, depth);
    if leaf.Some? then out + leaf.value
    else if v.Arr? then Skel(v.items[0], depth + 1, out + "[" + Dec(|v.items|) + "× ") + "]"
    else SkelFields(v.fields, 0, depth, out + "{") + "}"
  }

  /** The fields from `i` on; once the text is too long the rest is only counted. */
  function SkelFields(fields: seq<(string, Value)>, i: nat, depth: nat, out: string): string
    requires i <= |fields| && depth < MAX_DEPTH
    decreases Left(depth), 0, |fields| - i
  {
    if i == |fields| then out
    else
      var before := out + Comma(i);
      if Size(before) > KEYS_LIMIT then before + MoreKeys(|fields| - i)
      else SkelFields(fields, i + 1, depth, Skel(fields[i].1, depth + 1, before + fields[i].0 + ": "))
  }

  function Comma(i: nat): string {
    if i > 0 then ", " else ""
  }

  function MoreKeys(n: nat): string {
    "… +" + Dec(n) + " more keys"
  }

  method PutSkel(v: Value, depth: nat, out0: string) returns (out: string)
    ensures out == Skel(v, depth, out0)
    decreases Left(depth), 1, 0
  {
    var leaf := Leaf(v, depth);
    if leaf.Some? {
      return out0 + leaf.value;
    }
    if v.Arr? {
      out := PutSkel(v.items[0], depth + 1, out0 + "[" + Dec(|v.items|) + "× ");
      return out + "]";
    }
    out := PutFields(v.fields, depth, out0 + "{");
    out := out + "}";
  }

  method PutFields(fields: seq<(string, Value)>, depth: nat, out0: string) returns (out: string)
    requires depth < MAX_DEPTH
    ensures out == SkelFields(fields, 0, depth, out0)
    decreases Left(depth), 0, |fields|
  {
    out := out0;
    var i := 0;
    while i < |fields|
      invariant i <= |fields| && SkelFields(fields, i, depth, out) == SkelFields(fields, 0, depth, out0)
    {
      FieldsStep(fields, i, depth, out);
      var before := PutComma(out, i);
      if Size(before) > KEYS_LIMIT {
        return before + MoreKeys(|fields| - i);
      }
      out := PutSkel(fields[i].1, depth + 1, before + fields[i].0 + ": ");
      i := i + 1;
    }
  }

  method PutComma(out0: string, i: nat) returns (out: string)
    ensures out == out0 + Comma(i)
  {
    out := out0;
    if i > 0 {
      out := out + ", ";
    }
  }

  lemma FieldsStep(fields: seq<(string, Value)>, i: nat, depth: nat, out: string)
    requires i < |fields| && depth < MAX_DEPTH
    ensures var before := out + Comma(i);
            SkelFields(fields, i, depth, out) ==
              if Size(before) > KEYS_LIMIT then before + MoreKeys(|fields| - i)
              else SkelFields(fields, i + 1, depth, Skel(fields[i].1, depth + 1, before + fields[i].0 + ": "))
  {
  }

  function KindOf(v: Value): string {
    match v
    case Arr(items) => "array, " + Dec(|items|) + " items"
    case Obj(fields) => "object, " + Dec(|fields|) + " keys"
    case _ => "value"
  }

  function Heading(v: Value): string {
    "[json " + KindOf(v) + "] "
  }

  /** How many characters begin within the first `max` bytes, the one at `max` included. */
  function Beginning(s: string, max: nat, k: nat): (n: nat)
    requires k <= |s|
    ensures k <= n <= |s|
    decreases |s| - k
  {
    if k == |s| || Size(s[..k]) > max then k else Beginning(s, max, k + 1)
  }

  /** A text over the limit keeps those characters and gets an ellipsis. */
  function Limited(s: string): string {
    if Size(s) > BODY_LIMIT then s[..Beginning(s, BODY_LIMIT, 0)] + "…" else s
  }

  function BodyOf(v: Value): string {
    Limited(Skel(v, 0, Heading(v)))
  }

  /** The strategy: an outline of the lines, if they parse. */
  function Outlined(xs: seq<SLine>, parse: string -> Option<Value>): Option<Applied> {
    match parse(Trim(Body(xs)))
    case Some(v) => Some(Applied(BodyOf(v), "json"))
    case None => None
  }

  method Limit(s: string) returns (r: string)
    ensures r == Limited(s)
  {
    if Size(s) <= BODY_LIMIT {
      return s;
    }
    var k, start := 0, 0;
    while k < |s| && start <= BODY_LIMIT
      invariant k <= |s| && start == Size(s[..k])
      invariant Beginning(s, BODY_LIMIT, k) == Beginning(s, BODY_LIMIT, 0)
    {
      EncodeNext(s, k);
      start := start + |EncodeChar(s[k])|;
      k := k + 1;
    }
    r := s[..k] + "…";
  }

  method ApplySkeleton(xs: seq<SLine>, parse: string -> Option<Value>) returns (r: Option<Applied>)
    ensures r == Outlined(xs, parse)
  {
    var v := parse(Trim(Body(xs)));
    if v.None? {
      return None;
    }
    var body := PutSkel(v.value, 0, Heading(v.value));
    body := Limit(body);
    r := Some(Applied(body, "json"));
  }

  // ----- the outline it stands for

  /** The whole outline of a value, whatever its length. */
  function Outline(v: Value, depth: nat): string
    decreases Left(depth), 1, 0
  {
    var leaf := Leaf(v, depth);
    if leaf.Some? then leaf.value
    else if v.Arr? then "[" + Dec(|v.items|) + "× " + Outline(v.items[0], depth + 1) + "]"
    else "{" + OutlineFields(v.fields, 0, depth) + "}"
  }

  function OutlineFields(fields: seq<(string, Value)>, i: nat, depth: nat): string
    requires i <= |fields| && depth < MAX_DEPTH
    decreases Left(depth), 0, |fields| - i
  {
    if i == |fields| then ""
    else
      Comma(i) + fields[i].0 + ": " + Outline(fields[i].1, depth + 1) + OutlineFields(fields, i + 1, depth)
  }

  lemma SizeConcat(a: string, b: string)
    ensures Size(a + b) == Size(a) + Size(b)
  {
    EncodeConcat(a, b);
  }

  lemma {:induction false} FitsAsOutline(v: Value, depth: nat, out: string)
    requires Size(out + Outline(v, depth)) <= KEYS_LIMIT
    ensures Skel(v, depth, out) == out + Outline(v, depth)
    decreases Left(depth), 1, 0
  {
    if Leaf(v, depth).None? {
      if v.Arr? {
        var front, inner := out + "[" + Dec(|v.items|) + "× ", Outline(v.items[0], depth + 1);
        assert out + Outline(v, depth) == front + inner + "]";
        SizeConcat(front + inner, "]");
        FitsAsOutline(v.items[0], depth + 1, front);
      } else {
        var front, inner := out + "{", OutlineFields(v.fields, 0, depth);
        assert out + Outline(v, depth) == front + inner + "}";
        SizeConcat(front + inner, "}");
        FieldsFit(v.fields, 0, depth, front);
      }
    }
  }

  lemma {:induction false} FieldsFit(fields: seq<(string, Value)>, i: nat, depth: nat, out: string)
    requires i <= |fields| && depth < MAX_DEPTH && Size(out + OutlineFields(fields, i, depth)) <= KEYS_LIMIT
    ensures SkelFields(fields, i, depth, out) == out + OutlineFields(fields, i, depth)
    decreases Left(depth), 0, |fields| - i
  {
    if i == |fields| {
      assert out + "" == out;
    } else {
      var before := out + Comma(i);
      var front, inner := before + fields[i].0 + ": ", Outline(fields[i].1, depth + 1);
      var rest := OutlineFields(fields, i + 1, depth);
      PiecesFit(out, Comma(i), fields[i].0, inner, rest);
      FitsAsOutline(fields[i].1, depth + 1, front);
      FieldsFit(fields, i + 1, depth, front + inner);
      FieldsStep(fields, i, depth, out);
    }
  }

  lemma PiecesFit(out: string, comma: string, key: string, inner: string, rest: string)
    ensures out + (comma + key + ": " + inner + rest) == out + comma + key + ": " + inner + rest
    ensures Size(out + comma) <= Size(out + comma + key + ": " + inner) <= Size(out + comma + key + ": " + inner + rest)
  {
    var before := out + comma;
    assert before + key + ": " + inner == before + (key + ": " + inner);
    SizeConcat(before, key + ": " + inner);
    SizeConcat(before + key + ": " + inner, rest);
    assert out + (comma + key + ": " + inner + rest) == before + key + ": " + inner + rest;
  }

  /** As long as heading and outline stay within 700 bytes, nothing is left out of them. */
  lemma ShortIsWhole(v: Value)
    requires Size(Heading(v) + Outline(v, 0)) <= KEYS_LIMIT
    ensures BodyOf(v) == Heading(v) + Outline(v, 0)
  {
    FitsAsOutline(v, 0, Heading(v));
  }

  // ----- keys left out are counted

  /** The fields from `i` up to `m`. */
  function Shown(fields: seq<(string, Value)>, i: nat, depth: nat, out: string, m: nat): string
    requires i <= m <= |fields| && depth < MAX_DEPTH
  {
    SkelFields(fields[..m], i, depth, out)
  }

  lemma ShownNone(fields: seq<(string, Value)>, i: nat, depth: nat, out: string)
    requires i <= |fields| && depth < MAX_DEPTH
    ensures Shown(fields, i, depth, out, i) == out
  {
  }

  function AfterField(fields: seq<(string, Value)>, i: nat, depth: nat, out: string): string
    requires i < |fields|
  {
    Skel(fields[i].1, depth + 1, out + Comma(i) + fields[i].0 + ": ")
  }

  lemma ShownNext(fields: seq<(string, Value)>, i: nat, depth: nat, out: string, m: nat)
    requires i < m <= |fields| && depth < MAX_DEPTH && Size(out + Comma(i)) <= KEYS_LIMIT
    ensures Shown(fields, i, depth, out, m) == Shown(fields, i + 1, depth, AfterField(fields, i, depth, out), m)
  {
    FieldsStep(fields[..m], i, depth, out);
  }

  /** Each of the fields up to `m` begins within the limit. */
  ghost predicate BeginInTime(fields: seq<(string, Value)>, i: nat, depth: nat, out: string, m: nat)
    requires i <= m <= |fields| && depth < MAX_DEPTH
  {
    forall j :: i <= j < m ==> Size(Shown(fields, i, depth, out, j) + Comma(j)) <= KEYS_LIMIT
  }

  /** `result` is the fields up to `m`, and a count of the others if there are any, which begin too late. */
  ghost predicate CountsOthers(fields: seq<(string, Value)>, m: nat, shown: string, result: string)
    requires m <= |fields|
  {
    if m == |fields| then result == shown
    else result == shown + Comma(m) + MoreKeys(|fields| - m) && Size(shown + Comma(m)) > KEYS_LIMIT
  }

  /** An object shows its first keys, as many as begin within the limit, and counts all the others. */
  lemma {:induction false} KeysAreCounted(fields: seq<(string, Value)>, i: nat, depth: nat, out: string)
    returns (m: nat)
    requires i <= |fields| && depth < MAX_DEPTH
    ensures i <= m <= |fields| && BeginInTime(fields, i, depth, out, m)
    ensures CountsOthers(fields, m, Shown(fields, i, depth, out, m), SkelFields(fields, i, depth, out))
    decreases |fields| - i
  {
    m := i;
    ShownNone(fields, i, depth, out);
    if i < |fields| {
      FieldsStep(fields, i, depth, out);
      if Size(out + Comma(i)) <= KEYS_LIMIT {
        m := KeysAreCounted(fields, i + 1, depth, AfterField(fields, i, depth, out));
        forall j | i < j <= m
          ensures Shown(fields, i, depth, out, j) == Shown(fields, i + 1, depth, AfterField(fields, i, depth, out), j)
        {
          ShownNext(fields, i, depth, out, j);
        }
      }
    }
  }

  // ----- never long

  lemma {:induction false} BeginningIs(s: string, max: nat, k: nat)
    requires k <= |s| && (k > 0 ==> Size(s[..k - 1]) <= max)
    ensures var n := Beginning(s, max, k);
            (n > 0 ==> Size(s[..n - 1]) <= max) && (n < |s| ==> Size(s[..n]) > max)
    decreases |s| - k
  {
    if k < |s| && Size(s[..k]) <= max {
      BeginningIs(s, max, k + 1);
    }
  }

  lemma EllipsisSize()
    ensures Size("…") == 3
  {
    assert "…" == ['…'] && "…"[1..] == [];
    assert |EncodeChar('…')| == 3;
  }

  /** No outline takes more than 907 bytes: the limit, what is left of its last character, the ellipsis. */
  lemma OutlineIsShort(v: Value)
    ensures Size(BodyOf(v)) <= BODY_LIMIT + 7
  {
    LimitedIsShort(Skel(v, 0, Heading(v)));
  }

  lemma LimitedIsShort(s: string)
    ensures Size(Limited(s)) <= BODY_LIMIT + 7
  {
    if Size(s) > BODY_LIMIT {
      var n := Beginning(s, BODY_LIMIT, 0);
      BeginningIs(s, BODY_LIMIT, 0);
      EllipsisSize();
      SizeConcat(s[..n], "…");
      if n > 0 {
        EncodeNext(s, n - 1);
      }
    }
  }

  /** The ellipsis stands for something left out, except that it also follows a whole text whose last
      character begins within the limit and ends beyond it. */
  lemma EllipsisIsExact(s: string)
    requires Size(s) > BODY_LIMIT
    ensures Limited(s) == s + "…" <==> Size(s[..|s| - 1]) <= BODY_LIMIT
    ensures Limited(s) != s + "…" ==> exists n :: 0 < n < |s| && Limited(s) == s[..n] + "…"
  {
    var n := Beginning(s, BODY_LIMIT, 0);
    BeginningIs(s, BODY_LIMIT, 0);
    assert s[..|s|] == s;
    if n < |s| {
      assert |s[..n] + "…"| < |s + "…"|;
      PrefixSizesGrow(s, n, |s| - 1);
      assert n > 0;
    }
  }
}
