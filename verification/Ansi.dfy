/** Removing terminal escape sequences from a line. */
module Ansi {
  const ESC: char := '\U{1B}'
  const BEL: char := '\U{7}'

  predicate IsFinal(c: char) {
    0x40 <= c as int <= 0x7E
  }

  /** Behind a control sequence: after its first final character, if it has one. */
  function AfterCsi(s: string): (r: string)
    ensures |r| <= |s|
  {
    if s == "" then "" else if IsFinal(s[0]) then s[1..] else AfterCsi(s[1..])
  }

  /** Behind an operating system command: after BEL or ESC \. */
  function AfterOsc(s: string): (r: string)
    ensures |r| <= |s|
  {
    if s == "" then ""
    else if s[0] == BEL then s[1..]
    else if s[0] == ESC && |s| >= 2 && s[1] == '\\' then s[2..]
    else AfterOsc(s[1..])
  }

  function Strip(s: string): (r: string)
    ensures ESC !in r
    decreases |s|
  {
    if s == "" then ""
    else if s[0] != ESC then [s[0]] + Strip(s[1..])
    else if |s| == 1 then ""
    else if s[1] == '[' then Strip(AfterCsi(s[2..]))
    else if s[1] == ']' then Strip(AfterOsc(s[2..]))
    else Strip(s[2..])
  }

  lemma {:induction false} StripPlain(a: string, rest: string)
    requires ESC !in a
    ensures Strip(a + rest) == a + Strip(rest)
  {
    if a == "" {
      assert a + rest == rest;
    } else {
      assert (a + rest)[0] == a[0] && a[0] in a;
      assert (a + rest)[1..] == a[1..] + rest;
      StripPlain(a[1..], rest);
    }
  }

  /** Text without escapes is left alone, so stripping twice is stripping once. */
  lemma StripWithoutEscapes(s: string)
    requires ESC !in s
    ensures Strip(s) == s
  {
    StripPlain(s, "");
    assert s + "" == s;
  }

  /** The scanner: the cleaned text and whether any escape was seen. */
  method StripAnsi(s: string) returns (out: string, had: bool)
    ensures out == Strip(s) && had == (ESC in s)
  {
    if ESC !in s {
      StripWithoutEscapes(s);
      return s, false;
    }
    out := "";
    var i := 0;
    while i < |s|
      invariant i <= |s| && out + Strip(s[i..]) == Strip(s)
    {
      var c := s[i];
      i := i + 1;
      if c != ESC {
        assert s[i - 1..][1..] == s[i..];
        out := out + [c];
        continue;
      }
      if i == |s| {
        break;
      }
      assert s[i - 1..][1] == s[i] && s[i - 1..][2..] == s[i + 1..];
      if s[i] == '[' {
        i := SkipCsi(s, i + 1);
      } else if s[i] == ']' {
        i := SkipOsc(s, i + 1);
      } else {
        i := i + 1;
      }
    }
    had := true;
  }

  method SkipCsi(s: string, start: nat) returns (i: nat)
    requires start <= |s|
    ensures start <= i <= |s| && s[i..] == AfterCsi(s[start..])
  {
    i := start;
    while i < |s|
      invariant start <= i <= |s| && AfterCsi(s[i..]) == AfterCsi(s[start..])
    {
      var f := s[i];
      assert s[i..][1..] == s[i + 1..];
      i := i + 1;
      if IsFinal(f) {
        return;
      }
    }
  }

  lemma OscStep(s: string, i: nat)
    requires i < |s|
    ensures AfterOsc(s[i..]) ==
            if s[i] == BEL then s[i + 1..]
            else if s[i] == ESC && i + 1 < |s| && s[i + 1] == '\\' then s[i + 2..]
            else AfterOsc(s[i + 1..])
  {
  }

  method SkipOsc(s: string, start: nat) returns (i: nat)
    requires start <= |s|
    ensures start <= i <= |s| && s[i..] == AfterOsc(s[start..])
  {
    i := start;
    while i < |s|
      invariant start <= i <= |s| && AfterOsc(s[i..]) == AfterOsc(s[start..])
    {
      OscStep(s, i);
      var f := s[i];
      i := i + 1;
      if f == BEL {
        return;
      }
      if f == ESC && i < |s| && s[i] == '\\' {
        i := i + 1;
        return;
      }
    }
  }

  // ----- text made of plain stretches and escape sequences

  datatype Segment =
    | Plain(text: string)
    | Csi(params: string, final: char)
    | Osc(body: string, bell: bool)
    | Short(c: char)

  predicate Valid(g: Segment) {
    match g
    case Plain(text) => ESC !in text
    case Csi(params, final) => IsFinal(final) && forall i :: 0 <= i < |params| ==> !IsFinal(params[i])
    case Osc(body, _) => BEL !in body && forall i :: 0 <= i < |body| - 1 ==> !(body[i] == ESC && body[i + 1] == '\\')
    case Short(c) => c != '[' && c != ']'
  }

  function Written(g: Segment): string {
    match g
    case Plain(text) => text
    case Csi(params, final) => [ESC, '['] + params + [final]
    case Osc(body, bell) => [ESC, ']'] + body + (if bell then [BEL] else [ESC, '\\'])
    case Short(c) => [ESC, c]
  }

  function WrittenAll(gs: seq<Segment>): string {
    if gs == [] then "" else Written(gs[0]) + WrittenAll(gs[1..])
  }

  function ShownAll(gs: seq<Segment>): string {
    if gs == [] then "" else (if gs[0].Plain? then gs[0].text else "") + ShownAll(gs[1..])
  }

  lemma {:induction false} CsiEnds(params: string, final: char, rest: string)
    requires IsFinal(final) && forall i :: 0 <= i < |params| ==> !IsFinal(params[i])
    ensures AfterCsi(params + [final] + rest) == rest
  {
    var s := params + [final] + rest;
    if params == "" {
      assert s[1..] == rest;
    } else {
      assert s[1..] == params[1..] + [final] + rest;
      CsiEnds(params[1..], final, rest);
    }
  }

  lemma {:induction false} OscEnds(body: string, bell: bool, rest: string)
    requires Valid(Osc(body, bell))
    ensures AfterOsc(body + (if bell then [BEL] else [ESC, '\\']) + rest) == rest
  {
    var end := if bell then [BEL] else [ESC, '\\'];
    var s := body + end + rest;
    if body == "" {
      assert s == end + rest;
      assert s[|end|..] == rest;
    } else {
      assert s[0] == body[0] && body[0] in body;
      assert s[1..] == body[1..] + end + rest;
      assert |body| >= 2 ==> s[1] == body[1];
      OscEnds(body[1..], bell, rest);
    }
  }

  lemma CsiIsDropped(params: string, final: char, rest: string)
    requires Valid(Csi(params, final))
    ensures Strip(Written(Csi(params, final)) + rest) == Strip(rest)
  {
    var s := Written(Csi(params, final)) + rest;
    assert s[2..] == params + [final] + rest;
    CsiEnds(params, final, rest);
  }

  lemma OscIsDropped(body: string, bell: bool, rest: string)
    requires Valid(Osc(body, bell))
    ensures Strip(Written(Osc(body, bell)) + rest) == Strip(rest)
  {
    var s := Written(Osc(body, bell)) + rest;
    assert s[2..] == body + (if bell then [BEL] else [ESC, '\\']) + rest;
    OscEnds(body, bell, rest);
  }

  lemma ShortIsDropped(c: char, rest: string)
    requires Valid(Short(c))
    ensures Strip(Written(Short(c)) + rest) == Strip(rest)
  {
    assert (Written(Short(c)) + rest)[2..] == rest;
  }

  /** Of text written with escape sequences exactly the plain stretches remain. */
  lemma {:induction false} OnlyPlainTextRemains(gs: seq<Segment>)
    requires forall i :: 0 <= i < |gs| ==> Valid(gs[i])
    ensures Strip(WrittenAll(gs)) == ShownAll(gs)
  {
    if gs != [] {
      OnlyPlainTextRemains(gs[1..]);
      var rest := WrittenAll(gs[1..]);
      match gs[0]
      case Plain(text) => StripPlain(text, rest);
      case Csi(params, final) => CsiIsDropped(params, final, rest);
      case Osc(body, bell) => OscIsDropped(body, bell, rest);
      case Short(c) => ShortIsDropped(c, rest);
    }
  }
}
