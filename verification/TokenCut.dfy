/**
  Head and tail of over-long text, cut between tokens. A token is a piece of the text's bytes and
  need not end where a character does; a piece that is not UTF-8 by itself decodes to nothing.
*/
module TokenCut {
  import opened Options
  import opened Numbers
  import opened Text
  import opened Utf8
  import TextCut

  const MIN_TOKENS: nat := 16
  const NOTE_BEFORE := "\n…[ptk-proxy elided ~"
  const NOTE_AFTER := " tokens]…\n"

  type Token = seq<byte>

  function Bytes(toks: seq<Token>): seq<byte> {
    if toks == [] then [] else toks[0] + Bytes(toks[1..])
  }

  /** A byte-pair tokenizer, and the UTF-8 decoder its own decoder ends with. */
  datatype Tokenizer = Tokenizer(encode: string -> seq<Token>, fromUtf8: seq<byte> -> Option<string>)
  {
    /** What is assumed: tokens are the bytes of the text cut into pieces, and the decoder accepts
        exactly what the encoder makes. */
    ghost predicate Sound() {
      (forall s {:trigger encode(s)} :: Bytes(encode(s)) == Encode(s)) &&
      (forall s {:trigger fromUtf8(Encode(s))} :: fromUtf8(Encode(s)) == Some(s)) &&
      (forall bs {:trigger fromUtf8(bs)} :: fromUtf8(bs).Some? ==> Encode(fromUtf8(bs).value) == bs)
    }

    function Decode(toks: seq<Token>): Option<string> {
      fromUtf8(Bytes(toks))
    }

    function Count(s: string): nat {
      |encode(s)|
    }
  }

  // ----- whole characters

  /** A front part of encoded text is encoded text only up to a character boundary. */
  lemma {:induction false} PrefixIsTextAtBoundary(s: string, p: nat, t: string)
    requires p <= Size(s) && Encode(t) == Encode(s)[..p]
    ensures IsBoundary(Encode(s), p)
    decreases |s|
  {
    if p > 0 {
      var c, d := EncodeChar(s[0]), EncodeChar(t[0]);
      assert Encode(t)[0] == Encode(s)[0];
      assert d[0] == c[0];
      FirstByteTellsLength(s[0], t[0]);
      assert p >= |c|;
      assert Encode(s)[..p][|c|..] == Encode(s[1..])[..p - |c|];
      assert Encode(t)[|c|..] == Encode(t[1..]);
      PrefixIsTextAtBoundary(s[1..], p - |c|, t[1..]);
      if p < Size(s) {
        assert Encode(s)[p] == Encode(s[1..])[p - |c|];
        NextStartsCharacter(s[1..], p - |c|);
      }
    }
  }

  lemma NextStartsCharacter(s: string, p: nat)
    requires p < Size(s) && IsBoundary(Encode(s), p)
    ensures !IsContinuation(Encode(s)[p])
  {
  }

  /** A back part of encoded text is encoded text only from a character boundary on. */
  lemma SuffixIsTextAtBoundary(s: string, p: nat, t: string)
    requires p <= Size(s) && Encode(t) == Encode(s)[p..]
    ensures IsBoundary(Encode(s), p)
  {
  }

  // ----- cutting between tokens

  lemma {:induction false} BytesConcat(a: seq<Token>, b: seq<Token>)
    ensures Bytes(a + b) == Bytes(a) + Bytes(b)
  {
    if a == [] {
      assert a + b == b;
    } else {
      assert (a + b)[1..] == a[1..] + b;
      BytesConcat(a[1..], b);
    }
  }

  /** The place behind some tokens of the text falls between characters. */
  predicate EndsCharacter(text: string, front: seq<Token>) {
    IsBoundary(Encode(text), |Bytes(front)|)
  }

  lemma BytesOfParts(z: Tokenizer, text: string, front: seq<Token>, back: seq<Token>)
    requires z.Sound() && front + back == z.encode(text)
    ensures Encode(text) == Bytes(front) + Bytes(back)
    ensures Encode(text)[..|Bytes(front)|] == Bytes(front) && Encode(text)[|Bytes(front)|..] == Bytes(back)
  {
    BytesConcat(front, back);
  }

  /** Decoding the first tokens gives the text up to there, or nothing, and nothing exactly when the
      cut falls inside a character. */
  lemma FrontDecodes(z: Tokenizer, text: string, front: seq<Token>, back: seq<Token>) returns (k: nat)
    requires z.Sound() && front + back == z.encode(text)
    ensures k <= |text| && z.Decode(front) == if EndsCharacter(text, front) then Some(text[..k]) else None
    ensures if EndsCharacter(text, front) then Size(text[..k]) == |Bytes(front)| else k == 0
  {
    var p := |Bytes(front)|;
    BytesOfParts(z, text, front, back);
    k := 0;
    if EndsCharacter(text, front) {
      k := BoundaryIsPrefixEnd(text, p);
      EncodeSplit(text, k);
      assert Bytes(front) == Encode(text[..k]);
    } else if z.Decode(front).Some? {
      PrefixIsTextAtBoundary(text, p, z.Decode(front).value);
    }
  }

  /** Likewise for the tokens behind a cut. */
  lemma BackDecodes(z: Tokenizer, text: string, front: seq<Token>, back: seq<Token>) returns (j: nat)
    requires z.Sound() && front + back == z.encode(text)
    ensures j <= |text| && z.Decode(back) == if EndsCharacter(text, front) then Some(text[j..]) else None
    ensures if EndsCharacter(text, front) then Size(text[..j]) == |Bytes(front)| else j == |text|
  {
    var p := |Bytes(front)|;
    BytesOfParts(z, text, front, back);
    j := |text|;
    if EndsCharacter(text, front) {
      j := BoundaryIsPrefixEnd(text, p);
      EncodeSplit(text, j);
      assert Bytes(back) == Encode(text[j..]);
    } else if z.Decode(back).Some? {
      SuffixIsTextAtBoundary(text, p, z.Decode(back).value);
    }
  }

  function NoteFor(n: nat): string {
    NOTE_BEFORE + Dec(n) + NOTE_AFTER
  }

  /** What is left of the text around a note. */
  function Around(z: Tokenizer, text: string, keep: nat, note: string): string
    requires 2 * keep <= |z.encode(text)|
  {
    var toks := z.encode(text);
    z.Decode(toks[..keep]).GetOr("") + note + z.Decode(toks[|toks| - keep..]).GetOr("")
  }

  /** Elision by tokens, or by four bytes for each token when no tokenizer could be loaded. */
  method ElideToTokens(bpe: Option<Tokenizer>, text: string, maxTokens: nat) returns (out: seq<byte>, saved: nat)
    ensures var max := Max(maxTokens, MIN_TOKENS);
            match bpe
            case None =>
              TextCut.IsElided(text, SaturatingMul(max, 4), TextCut.ELIDED, out) &&
              saved == SaturatingSub(Size(text), |out|)
            case Some(z) =>
              var s := ElidedText(z, text, max);
              out == Encode(s) && saved == SaturatingSub(z.Count(text), z.Count(s))
  {
    var max := Max(maxTokens, MIN_TOKENS);
    match bpe
    case None => out, saved := TextCut.ByteFallback(text, SaturatingMul(max, 4));
    case Some(z) =>
      var s;
      s, saved := ElideWith(z, text, max);
      out := Encode(s);
  }

  /** The text itself within the budget, else what is left around a note on the tokens between. */
  function ElidedText(z: Tokenizer, text: string, max: nat): string {
    var n := |z.encode(text)|;
    if n <= max then text else Around(z, text, max / 2, NoteFor(n - 2 * (max / 2)))
  }

  method ElideWith(z: Tokenizer, text: string, max: nat) returns (out: string, saved: nat)
    requires max >= 2
    ensures out == ElidedText(z, text, max) && saved == SaturatingSub(z.Count(text), z.Count(out))
  {
    var toks := z.encode(text);
    if |toks| <= max {
      return text, 0;
    }
    var keep := Max(max / 2, 1);
    var head := z.Decode(toks[..keep]).GetOr("");
    var tail := z.Decode(toks[|toks| - keep..]).GetOr("");
    var elided := SaturatingSub(|toks|, 2 * keep);
    out := head + NoteFor(elided) + tail;
    saved := SaturatingSub(|toks|, z.Count(out));
  }

  /** The pieces kept are a front and a back part of the text that do not overlap, with exactly the
      tokens counted between them, if and only if both cuts fall between characters; a piece cut
      inside a character is dropped whole, which the count then misses. */
  lemma PiecesAreParts(z: Tokenizer, text: string, keep: nat, note: string) returns (k: nat, j: nat)
    requires z.Sound() && 2 * keep <= |z.encode(text)|
    ensures k <= j <= |text|
    ensures var toks := z.encode(text);
            var atHead := EndsCharacter(text, toks[..keep]);
            var atTail := EndsCharacter(text, toks[..|toks| - keep]);
            var head, tail := if atHead then text[..k] else "", if atTail then text[j..] else "";
            Around(z, text, keep, note) == head + note + tail &&
            (atHead && atTail ==> Encode(text[k..j]) == Bytes(toks[keep..|toks| - keep]))
  {
    var toks := z.encode(text);
    var a, mid, b := toks[..keep], toks[keep..|toks| - keep], toks[|toks| - keep..];
    assert a + mid == toks[..|toks| - keep] && a + mid + b == toks;
    k, j := ThreeParts(z, text, a, mid, b);
  }

  /** `out` is `keep` tokens from either end around a note, `n` tokens are between, and a piece cut inside
      a character is missing. */
  ghost predicate KeepsEnds(text: string, toks: seq<Token>, keep: nat, n: nat, note: string, k: nat, j: nat,
    out: string)
  {
    keep + n + keep == |toks| && k <= j <= |text| &&
    var atHead, atTail := EndsCharacter(text, toks[..keep]), EndsCharacter(text, toks[..keep + n]);
    out == (if atHead then text[..k] else "") + note + (if atTail then text[j..] else "") &&
    (atHead && atTail ==> Encode(text[k..j]) == Bytes(toks[keep..keep + n]))
  }

  lemma {:induction false} EndsAreKept(z: Tokenizer, text: string, toks: seq<Token>, keep: nat, n: nat, note: string)
    returns (k: nat, j: nat)
    requires z.Sound() && toks == z.encode(text) && keep + n + keep == |toks|
    ensures KeepsEnds(text, toks, keep, n, note, k, j, Around(z, text, keep, note))
  {
    var a, mid, b := toks[..keep], toks[keep..keep + n], toks[keep + n..];
    assert a + mid == toks[..keep + n] && a + mid + b == toks;
    k, j := ThreeParts(z, text, a, mid, b);
    EndsJoined(z, text, keep, note, a, b);
  }

  lemma {:induction false} EndsJoined(z: Tokenizer, text: string, keep: nat, note: string, a: seq<Token>, b: seq<Token>)
    requires 2 * keep <= |z.encode(text)|
    requires a == z.encode(text)[..keep] && b == z.encode(text)[|z.encode(text)| - keep..]
    ensures Around(z, text, keep, note) == z.Decode(a).GetOr("") + note + z.Decode(b).GetOr("")
  {
  }

  /** A text over the budget keeps half the budget of tokens at each end, around a note that counts the
      tokens between. */
  lemma {:induction false} ElidedIs(z: Tokenizer, text: string, max: nat) returns (n: nat, k: nat, j: nat)
    requires z.Sound() && 16 <= max < |z.encode(text)|
    ensures KeepsEnds(text, z.encode(text), max / 2, n, "\n…[ptk-proxy elided ~" + Dec(n) + " tokens]…\n", k, j,
              ElidedText(z, text, max))
  {
    n := |z.encode(text)| - 2 * (max / 2);
    k, j := EndsAreKept(z, text, z.encode(text), max / 2, n, NoteFor(n));
  }

  lemma ThreeParts(z: Tokenizer, text: string, a: seq<Token>, mid: seq<Token>, b: seq<Token>) returns (k: nat, j: nat)
    requires z.Sound() && a + mid + b == z.encode(text)
    ensures k <= j <= |text|
    ensures z.Decode(a) == if EndsCharacter(text, a) then Some(text[..k]) else None
    ensures z.Decode(b) == if EndsCharacter(text, a + mid) then Some(text[j..]) else None
    ensures EndsCharacter(text, a) && EndsCharacter(text, a + mid) ==> Encode(text[k..j]) == Bytes(mid)
  {
    assert a + (mid + b) == a + mid + b;
    k := FrontDecodes(z, text, a, mid + b);
    j := BackDecodes(z, text, a + mid, b);
    BytesConcat(a, mid);
    BytesOfParts(z, text, a + mid, b);
    if EndsCharacter(text, a) && EndsCharacter(text, a + mid) {
      MiddleIs(text, Bytes(a), Bytes(mid), Bytes(b), k, j);
    }
  }

  lemma MiddleIs(text: string, front: seq<byte>, mid: seq<byte>, back: seq<byte>, k: nat, j: nat)
    requires Encode(text) == front + mid + back && k <= |text| && j <= |text|
    requires Size(text[..k]) == |front| && Size(text[..j]) == |front + mid|
    ensures k <= j && Encode(text[k..j]) == mid
  {
    if j < k {
      PrefixSizesGrow(text, j, k);
    }
    var head := text[..j];
    assert head[..k] == text[..k] && head[k..] == text[k..j];
    EncodeSplit(text, j);
    EncodeSplit(head, k);
    assert Encode(text)[..|front + mid|] == front + mid;
    assert (front + mid)[|front|..] == mid;
  }

  // ----- a cut inside a character

  /** Every byte a token of its own, as a tokenizer does with characters it has no longer token for. */
  ghost function ByteTokens(bs: seq<byte>): seq<Token> {
    seq(|bs|, i requires 0 <= i < |bs| => [bs[i]])
  }

  ghost function FromUtf8(bs: seq<byte>): Option<string> {
    if exists s :: Encode(s) == bs then
      var s :| Encode(s) == bs;
      Some(s)
    else None
  }

  ghost function ByteTokenizer(): Tokenizer {
    Tokenizer(s => ByteTokens(Encode(s)), bs => FromUtf8(bs))
  }

  lemma {:induction false} BytesOfByteTokens(bs: seq<byte>)
    ensures Bytes(ByteTokens(bs)) == bs
  {
    if bs != [] {
      assert ByteTokens(bs)[1..] == ByteTokens(bs[1..]);
      BytesOfByteTokens(bs[1..]);
    }
  }

  lemma ByteTokenizerIsSound()
    ensures ByteTokenizer().Sound()
  {
    forall bs: seq<byte> ensures Bytes(ByteTokens(bs)) == bs {
      BytesOfByteTokens(bs);
    }
    forall s, t | Encode(s) == Encode(t) ensures s == t {
      EncodeIsInjective(s, t);
    }
    forall s: string ensures FromUtf8(Encode(s)) == Some(s) {
    }
  }

  /** `n` characters of two bytes each. */
  function Accented(n: nat): string {
    seq(n, i => 'é')
  }

  lemma {:induction false} AccentedBytes(n: nat)
    ensures Size(Accented(n)) == 2 * n
    ensures forall i :: 0 <= i < 2 * n && i % 2 == 1 ==> IsContinuation(Encode(Accented(n))[i])
  {
    if n > 0 {
      var s := Accented(n);
      AccentedBytes(n - 1);
      assert s[1..] == Accented(n - 1);
      assert Encode(s) == EncodeChar('é') + Encode(Accented(n - 1));
      forall i | 0 <= i < 2 * n && i % 2 == 1 ensures IsContinuation(Encode(s)[i]) {
        if i > 1 {
          assert Encode(s)[i] == Encode(Accented(n - 1))[i - 2];
        }
      }
    }
  }

  /** For example: ten accented letters of two tokens each, cut to 18 tokens, lose both kept pieces:
      all twenty tokens are gone, and the note says that two are. */
  lemma CutInsideCharacters(note: string)
    ensures var z, text := ByteTokenizer(), Accented(10);
            z.Sound() && |z.encode(text)| == 20 && Around(z, text, 9, note) == note &&
            ElidedText(z, text, 18) == NoteFor(2)
  {
    var z, text := ByteTokenizer(), Accented(10);
    ByteTokenizerIsSound();
    AccentedBytes(10);
    OddCutsLoseBoth(z, text, note);
    OddCutsLoseBoth(z, text, NoteFor(2));
  }

  lemma OddCutsLoseBoth(z: Tokenizer, text: string, note: string)
    requires z.Sound() && z.encode(text) == ByteTokens(Encode(text)) && Size(text) == 20
    requires IsContinuation(Encode(text)[9]) && IsContinuation(Encode(text)[11])
    ensures Around(z, text, 9, note) == note
  {
    var toks := z.encode(text);
    assert toks[..9] == ByteTokens(Encode(text)[..9]) && toks[..11] == ByteTokens(Encode(text)[..11]);
    BytesOfByteTokens(Encode(text)[..9]);
    BytesOfByteTokens(Encode(text)[..11]);
    var k, j := PiecesAreParts(z, text, 9, note);
    assert "" + note + "" == note;
  }
}
