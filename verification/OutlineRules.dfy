/**
  What a JSON outline tells about the values in it, with its numbers read back from the text.
*/
module OutlineRules {
  import opened Options
  import opened Text
  import opened Lines
  import opened Json
  import opened Skeleton

  /** A text that says a number: what is in front of it, the number, what is behind it. */
  ghost predicate SaysNumber(text: string, before: string, n: nat, after: string) {
    before <= text && ReadNumber(text[|before|..]) == Some((n, after))
  }

  lemma {:induction false} NumberIsSaid(before: string, n: nat, after: string)
    requires after == "" || !IsDigit(after[0])
    ensures SaysNumber(before + Dec(n) + after, before, n, after)
  {
    assert before + Dec(n) + after == before + (Dec(n) + after);
    assert (before + (Dec(n) + after))[|before|..] == Dec(n) + after;
    NumberIsRead(n, after);
  }

  /** Long texts tell their first 24 characters and how many there are. */
  lemma {:induction false} TextTells(s: string, depth: nat)
    ensures |s| <= 24 ==> Outline(Str(s), depth) == "\"" + s + "\""
    ensures |s| > 24 ==> SaysNumber(Outline(Str(s), depth), "\"" + s[..24] + "…\"(", |s|, " chars)")
  {
    NumberIsSaid("\"" + s[..if |s| > 24 then 24 else 0] + "…\"(", |s|, " chars)");
  }

  /** Arrays below the top tell how many items they have, one at the top also what the first one is. */
  lemma {:induction false} ArrayTells(items: seq<Value>, depth: nat)
    ensures items == [] ==> Outline(Arr(items), depth) == "[]"
    ensures items != [] && depth > 0 ==> SaysNumber(Outline(Arr(items), depth), "[", |items|, " items]")
    ensures items != [] && depth == 0 ==>
              SaysNumber(Outline(Arr(items), 0), "[", |items|, "× " + Outline(items[0], 1) + "]")
  {
    if items != [] {
      if depth > 0 {
        NumberIsSaid("[", |items|, " items]");
      } else {
        TopIsSaid(Dec(|items|), Outline(items[0], 1), "× " + Outline(items[0], 1) + "]");
        NumberIsSaid("[", |items|, "× " + Outline(items[0], 1) + "]");
      }
    }
  }

  lemma {:induction false} TopIsSaid(number: string, inner: string, rest: string)
    requires rest == "× " + inner + "]"
    ensures "[" + number + "× " + inner + "]" == "[" + number + rest
    ensures rest[0] == '×'
  {
  }

  /** The name of a field with the outline of its value. */
  function FieldText(field: (string, Value), depth: nat): string
    requires depth < MAX_DEPTH
  {
    field.0 + ": " + Outline(field.1, depth + 1)
  }

  function FieldTexts(fields: seq<(string, Value)>, depth: nat): (texts: seq<string>)
    requires depth < MAX_DEPTH
    ensures |texts| == |fields|
    ensures forall i :: 0 <= i < |fields| ==> texts[i] == FieldText(fields[i], depth)
  {
    seq(|fields|, i requires 0 <= i < |fields| => FieldText(fields[i], depth))
  }

  lemma {:induction false} FieldIsPut(fields: seq<(string, Value)>, i: nat, depth: nat)
    requires i < |fields| && depth < MAX_DEPTH
    ensures OutlineFields(fields, i, depth) ==
              Comma(i) + FieldText(fields[i], depth) + OutlineFields(fields, i + 1, depth)
  {
    var comma, name, inner := Comma(i), fields[i].0, Outline(fields[i].1, depth + 1);
    assert comma + name + ": " + inner == comma + (name + ": " + inner);
  }

  lemma {:induction false} JoinFrom(texts: seq<string>, i: nat, sep: string)
    requires i < |texts|
    ensures Join(texts[i..], sep) ==
              texts[i] + ((if i + 1 < |texts| then sep else "") + Join(texts[i + 1..], sep))
  {
    assert texts[i..][0] == texts[i] && texts[i..][1..] == texts[i + 1..];
    var rest := Join(texts[i + 1..], sep);
    if i + 1 < |texts| {
      assert texts[i] + sep + rest == texts[i] + (sep + rest);
    } else {
      assert texts[i] + ("" + rest) == texts[i];
    }
  }

  lemma {:induction false} FieldsAreJoined(fields: seq<(string, Value)>, texts: seq<string>, i: nat, depth: nat)
    requires i <= |fields| && depth < MAX_DEPTH && texts == FieldTexts(fields, depth)
    ensures OutlineFields(fields, i, depth) ==
              (if 0 < i < |fields| then ", " else "") + Join(texts[i..], ", ")
    decreases |fields| - i
  {
    if i < |fields| {
      FieldsAreJoined(fields, texts, i + 1, depth);
      FieldIsPut(fields, i, depth);
      JoinFrom(texts, i, ", ");
      var rest := OutlineFields(fields, i + 1, depth);
      assert Comma(i) + texts[i] + rest == Comma(i) + (texts[i] + rest);
    }
  }

  /** Objects on the first two levels tell the names of all fields, deeper ones only how many there are. */
  lemma {:induction false} ObjectTells(fields: seq<(string, Value)>, depth: nat)
    ensures depth < 2 ==> Outline(Obj(fields), depth) == "{" + Join(FieldTexts(fields, depth), ", ") + "}"
    ensures depth >= 2 ==> SaysNumber(Outline(Obj(fields), depth), "{", |fields|, " keys}")
  {
    if depth < 2 {
      var texts := FieldTexts(fields, depth);
      FieldsAreJoined(fields, texts, 0, depth);
      assert texts[0..] == texts;
      assert "" + Join(texts, ", ") == Join(texts, ", ");
    } else {
      NumberIsSaid("{", |fields|, " keys}");
    }
  }

  /** The heading tells the kind of the whole value and its size. */
  lemma {:induction false} HeadingTells(v: Value)
    ensures v.Arr? ==> SaysNumber(Heading(v), "[json array, ", |v.items|, " items] ")
    ensures v.Obj? ==> SaysNumber(Heading(v), "[json object, ", |v.fields|, " keys] ")
    ensures !v.Arr? && !v.Obj? ==> Heading(v) == "[json value] "
  {
    if v.Arr? {
      ListHeading(v.items);
    } else if v.Obj? {
      ObjectHeading(v.fields);
    }
  }

  lemma {:induction false} ListHeading(items: seq<Value>)
    ensures SaysNumber(Heading(Arr(items)), "[json array, ", |items|, " items] ")
  {
    SizeIsSaid(Heading(Arr(items)), "array, ", |items|, " items", "[json array, ", " items] ");
  }

  lemma {:induction false} ObjectHeading(fields: seq<(string, Value)>)
    ensures SaysNumber(Heading(Obj(fields)), "[json object, ", |fields|, " keys] ")
  {
    SizeIsSaid(Heading(Obj(fields)), "object, ", |fields|, " keys", "[json object, ", " keys] ");
  }

  lemma {:induction false} SizeIsSaid(
    heading: string, kind: string, n: nat, what: string, before: string, after: string)
    requires heading == "[json " + (kind + Dec(n) + what) + "] "
    requires before == "[json " + kind && after == what + "] "
    requires what != "" && !IsDigit(what[0])
    ensures SaysNumber(heading, before, n, after)
  {
    var d := Dec(n);
    NumberIsSaid(before, n, after);
    assert heading == before + d + after;
  }

  /** Plain values are told as they are. */
  lemma {:induction false} PlainTells(depth: nat, n: int, text: string)
    ensures Outline(Null, depth) == "null" && Outline(Float(text), depth) == text
    ensures Outline(Bool(true), depth) == "true" && Outline(Bool(false), depth) == "false"
    ensures n >= 0 ==> SaysNumber(Outline(Int(n), depth), "", n, "")
    ensures n < 0 ==> SaysNumber(Outline(Int(n), depth), "-", -n, "")
  {
    var size: nat := if n < 0 then -n else n;
    NumberIsSaid("", size, "");
    NumberIsSaid("-", size, "");
    assert "" + Dec(size) + "" == Dec(size) && "-" + Dec(size) + "" == "-" + Dec(size);
  }
}
