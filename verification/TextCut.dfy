/** Byte-budget cuts of text that never split a character. */
module TextCut {
  import opened Options
  import opened Numbers
  import opened Text
  import opened Utf8

  const ELLIPSIS := "…"
  const TRUNCATED := "… (truncated)"
  const ELIDED := "\n…[ptk-proxy elided]…\n"
  const MAX_ERROR_BODY: nat := 4096

  /** `k` characters are the longest prefix of `s` within `budget` bytes. */
  ghost predicate LongestPrefix(s: string, k: nat, budget: nat) {
    k <= |s| && Size(s[..k]) <= budget && (k < |s| ==> Size(s[..k + 1]) > budget)
  }

  /** From character `j` on is the longest suffix of `s` within `budget` bytes. */
  ghost predicate LongestSuffix(s: string, j: nat, budget: nat) {
    j <= |s| && Size(s[j..]) <= budget && (j > 0 ==> Size(s[j - 1..]) > budget)
  }

  /** Walks a byte position down to a character boundary. */
  method BoundaryBelow(s: string, max: nat) returns (end: nat, ghost k: nat)
    requires max < Size(s)
    ensures end <= max && max - end <= 3
    ensures LongestPrefix(s, k, max) && end == Size(s[..k])
    ensures Encode(s)[..end] == Encode(s[..k])
  {
    var bs := Encode(s);
    end := max;
    while end > 0 && !IsBoundary(bs, end)
      invariant end <= max
      invariant forall i :: end < i <= max ==> !IsBoundary(bs, i)
    {
      end := end - 1;
    }
    k := BoundaryIsPrefixEnd(s, end);
    EncodeSplit(s, k);
    assert s[..|s|] == s;
    EncodeNext(s, k);
    PrefixEndIsBoundary(s, k + 1);
  }

  /** Walks a byte position up to a character boundary. */
  method BoundaryAbove(s: string, min: nat) returns (start: nat, ghost j: nat)
    requires 0 < min <= Size(s)
    ensures min <= start <= Size(s) && start - min <= 3
    ensures LongestSuffix(s, j, Size(s) - min) && start == Size(s[..j])
    ensures Encode(s)[start..] == Encode(s[j..])
  {
    var bs := Encode(s);
    start := min;
    while start < |bs| && !IsBoundary(bs, start)
      invariant min <= start <= |bs|
      invariant forall i :: min <= i < start ==> !IsBoundary(bs, i)
    {
      start := start + 1;
    }
    j := BoundaryIsPrefixEnd(s, start);
    EncodeSplit(s, j);
    assert s[..0] == [];
    EncodeSplit(s, j - 1);
    EncodeNext(s, j - 1);
    PrefixEndIsBoundary(s, j - 1);
  }

  /** The longest prefix is at most three bytes short: the next character has at most four. */
  lemma PrefixIsClose(s: string, k: nat, budget: nat)
    requires LongestPrefix(s, k, budget) && budget < Size(s)
    ensures budget - Size(s[..k]) <= 3
  {
    assert s[..|s|] == s;
    EncodeNext(s, k);
  }

  /** `out` is `s` if it fits, and otherwise the longest prefix of whole characters that fits, and `mark`. */
  ghost predicate IsTruncated(s: string, budget: nat, mark: string, out: seq<byte>) {
    if Size(s) <= budget then out == Encode(s)
    else exists k: nat :: LongestPrefix(s, k, budget) && out == Encode(s[..k] + mark)
  }

  method Truncate(s: string, budget: nat, mark: string) returns (out: seq<byte>)
    ensures IsTruncated(s, budget, mark, out)
  {
    if Size(s) <= budget {
      return Encode(s);
    }
    var end;
    ghost var k;
    end, k := BoundaryBelow(s, budget);
    EncodeConcat(s[..k], mark);
    out := Encode(s)[..end] + Encode(mark);
  }

  /** At most `max` bytes of `s`, with an ellipsis when something was cut. */
  method TruncateText(s: string, max: nat) returns (out: seq<byte>)
    ensures IsTruncated(s, max, ELLIPSIS, out)
  {
    out := Truncate(s, max, ELLIPSIS);
  }

  /** The stored form of an upstream error body: decoded, trimmed and truncated. */
  method TruncateError(bytes: seq<byte>, lossy: seq<byte> -> string) returns (out: Option<seq<byte>>)
    ensures out.None? <==> bytes == [] || Trim(lossy(bytes)) == ""
    ensures out.Some? ==> IsTruncated(Trim(lossy(bytes)), MAX_ERROR_BODY, TRUNCATED, out.value)
  {
    if bytes == [] {
      return None;
    }
    var trimmed := Trim(lossy(bytes));
    if trimmed == "" {
      return None;
    }
    var text := Truncate(trimmed, MAX_ERROR_BODY, TRUNCATED);
    out := Some(text);
  }

  /** The retrieve loop keeps error bodies untrimmed, with the other mark. */
  method StoredError(bytes: seq<byte>, lossy: seq<byte> -> string) returns (out: Option<seq<byte>>)
    ensures IsStoredError(bytes, lossy, out)
  {
    var text := lossy(bytes);
    if text == "" {
      return None;
    }
    var stored := TruncateText(text, MAX_ERROR_BODY);
    out := Some(stored);
  }

  ghost predicate IsStoredError(bytes: seq<byte>, lossy: seq<byte> -> string, out: Option<seq<byte>>) {
    (out.None? <==> lossy(bytes) == "") &&
    (out.Some? ==> IsTruncated(lossy(bytes), MAX_ERROR_BODY, ELLIPSIS, out.value))
  }

  /** Two pieces that leave something over do not overlap. */
  lemma PiecesApart(text: string, k: nat, j: nat, keep: nat)
    requires k <= |text| && j <= |text| && Size(text[..k]) <= keep && Size(text[j..]) <= keep && 2 * keep < Size(text)
    ensures k <= j
  {
    EncodeSplit(text, j);
    if j < k {
      PrefixSizesGrow(text, j, k);
    }
  }

  lemma PiecesJoined(head: string, mid: string, tail: string)
    ensures Encode(head + mid + tail) == Encode(head) + Encode(mid) + Encode(tail)
  {
    EncodeConcat(head + mid, tail);
    EncodeConcat(head, mid);
  }

  /** `out` is `text`, or a head and a tail of it around `mid`: whole characters, as many as fit in
      half the budget each, without overlap. */
  ghost predicate IsElided(text: string, maxBytes: nat, mid: string, out: seq<byte>) {
    if Size(text) <= maxBytes then out == Encode(text)
    else exists k: nat, j: nat :: Leaves(text, maxBytes / 2, k, j) && out == Encode(text[..k] + mid + text[j..])
  }

  ghost predicate Leaves(text: string, keep: nat, k: nat, j: nat) {
    LongestPrefix(text, k, keep) && LongestSuffix(text, j, keep) && k <= j
  }

  method Elide(text: string, maxBytes: nat, mid: string) returns (out: seq<byte>)
    ensures IsElided(text, maxBytes, mid, out)
  {
    if Size(text) <= maxBytes {
      return Encode(text);
    }
    var keep := maxBytes / 2;
    var head, tail;
    ghost var k, j;
    head, k := BoundaryBelow(text, keep);
    tail, j := BoundaryAbove(text, Size(text) - keep);
    PiecesApart(text, k, j, keep);
    PiecesJoined(text[..k], mid, text[j..]);
    out := Encode(text)[..head] + Encode(mid) + Encode(text)[tail..];
    assert Leaves(text, maxBytes / 2, k, j) && out == Encode(text[..k] + mid + text[j..]);
  }

  /** Keeps a head and a tail of over-long text, and says how many bytes that saved. */
  method ByteFallback(text: string, maxBytes: nat) returns (out: seq<byte>, saved: nat)
    ensures IsElided(text, maxBytes, ELIDED, out) && saved == SaturatingSub(Size(text), |out|)
  {
    out := Elide(text, maxBytes, ELIDED);
    saved := SaturatingSub(Size(text), |out|);
  }
}
