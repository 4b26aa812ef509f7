/** UTF-8 as section 3 of RFC 3629 defines it, and the character boundaries of encoded text. */
module Utf8 {
  type byte = b: int | 0 <= b < 256

  function EncodeChar(c: char): (bs: seq<byte>)
    ensures 1 <= |bs| <= 4
    ensures !IsContinuation(bs[0])
    ensures forall i :: 1 <= i < |bs| ==> IsContinuation(bs[i])
    ensures forall i :: 0 <= i < |bs| && bs[i] == 10 ==> c == '\n'
  {
    var n := c as int;
    if n < 0x80 then [n]
    else if n < 0x800 then [0xC0 + n / 64, 0x80 + n % 64]
    else if n < 0x10000 then [0xE0 + n / 4096, 0x80 + n / 64 % 64, 0x80 + n % 64]
    else [0xF0 + n / 262144, 0x80 + n / 4096 % 64, 0x80 + n / 64 % 64, 0x80 + n % 64]
  }

  function Encode(s: string): (bs: seq<byte>)
    ensures |bs| >= |s|
  {
    if s == [] then [] else EncodeChar(s[0]) + Encode(s[1..])
  }

  /** Length in bytes. */
  function Size(s: string): nat {
    |Encode(s)|
  }

  predicate IsContinuation(b: byte) {
    0x80 <= b < 0xC0
  }

  /** `str::is_char_boundary`. */
  predicate IsBoundary(bs: seq<byte>, i: nat) {
    i == 0 || i == |bs| || (i < |bs| && !IsContinuation(bs[i]))
  }

  lemma {:induction false} EncodeConcat(a: string, b: string)
    ensures Encode(a + b) == Encode(a) + Encode(b)
  {
    if a == [] {
      assert a + b == b;
    } else {
      assert (a + b)[1..] == a[1..] + b;
      EncodeConcat(a[1..], b);
    }
  }

  lemma EncodeSplit(s: string, k: nat)
    requires k <= |s|
    ensures Encode(s) == Encode(s[..k]) + Encode(s[k..])
  {
    var a, b := s[..k], s[k..];
    assert s == a + b;
    EncodeConcat(a, b);
  }

  lemma EncodeNext(s: string, k: nat)
    requires k < |s|
    ensures Encode(s[..k + 1]) == Encode(s[..k]) + EncodeChar(s[k])
  {
    EncodeConcat(s[..k], [s[k]]);
    assert s[..k + 1] == s[..k] + [s[k]];
    assert Encode([s[k]]) == EncodeChar(s[k]) by { assert [s[k]][1..] == []; }
  }

  /** The newline byte occurs only where the newline character does. */
  lemma {:induction false} NewlineFree(s: string)
    requires '\n' !in s
    ensures 10 !in Encode(s)
  {
    if s != [] {
      NewlineFree(s[1..]);
    }
  }

  /** Boundaries of encoded text are exactly the ends of its prefixes. */
  lemma {:induction false} BoundaryIsPrefixEnd(s: string, i: nat) returns (k: nat)
    requires i <= Size(s) && IsBoundary(Encode(s), i)
    ensures k <= |s| && Size(s[..k]) == i
  {
    if i == 0 {
      k := 0;
    } else {
      var c := EncodeChar(s[0]);
      forall j | 1 <= j < |c| ensures !IsBoundary(Encode(s), j) {
        assert Encode(s)[j] == c[j];
      }
      assert IsBoundary(Encode(s[1..]), i - |c|) by {
        if i < Size(s) && i > |c| { assert Encode(s)[i] == Encode(s[1..])[i - |c|]; }
      }
      var k' := BoundaryIsPrefixEnd(s[1..], i - |c|);
      k := k' + 1;
      assert s[..k][1..] == s[1..][..k'];
    }
  }

  lemma PrefixEndIsBoundary(s: string, k: nat)
    requires k <= |s|
    ensures Size(s[..k]) <= Size(s) && IsBoundary(Encode(s), Size(s[..k]))
  {
    EncodeSplit(s, k);
    if k < |s| {
      assert Encode(s[k..]) == EncodeChar(s[k]) + Encode(s[k + 1..]);
      assert Encode(s)[Size(s[..k])] == EncodeChar(s[k])[0];
    } else {
      assert s[..k] == s;
    }
  }

  /** Longer prefixes take more bytes. */
  lemma PrefixSizesGrow(s: string, j: nat, k: nat)
    requires j <= k <= |s|
    ensures Size(s[..j]) + (k - j) <= Size(s[..k])
  {
    assert s[..k][..j] == s[..j];
    EncodeSplit(s[..k], j);
  }

  /** The number a character's bytes stand for. */
  function Code(bs: seq<byte>): int
    requires 1 <= |bs| <= 4
  {
    if |bs| == 1 then bs[0] as int
    else if |bs| == 2 then (bs[0] as int - 0xC0) * 64 + Low(bs[1])
    else if |bs| == 3 then ((bs[0] as int - 0xE0) * 64 + Low(bs[1])) * 64 + Low(bs[2])
    else (((bs[0] as int - 0xF0) * 64 + Low(bs[1])) * 64 + Low(bs[2])) * 64 + Low(bs[3])
  }

  function Low(b: byte): int {
    b as int - 0x80
  }

  lemma DigitsOf(n: nat)
    ensures n / 64 * 64 + n % 64 == n && n / 64 / 64 == n / 4096 && n / 4096 / 64 == n / 262144
  {
  }

  lemma CodeIsRead(c: char)
    ensures Code(EncodeChar(c)) == c as int
  {
    var n := c as int;
    DigitsOf(n);
    DigitsOf(n / 64);
    DigitsOf(n / 4096);
  }

  lemma EncodeCharIsInjective(c: char, d: char)
    requires EncodeChar(c) == EncodeChar(d)
    ensures c == d
  {
    CodeIsRead(c);
    CodeIsRead(d);
  }

  /** The first byte of a character says how many bytes it has. */
  lemma FirstByteTellsLength(c: char, d: char)
    requires EncodeChar(c)[0] == EncodeChar(d)[0]
    ensures |EncodeChar(c)| == |EncodeChar(d)|
  {
  }

  lemma {:induction false} EncodeIsInjective(s: string, t: string)
    requires Encode(s) == Encode(t)
    ensures s == t
  {
    if s != [] && t != [] {
      var c, d := EncodeChar(s[0]), EncodeChar(t[0]);
      assert Encode(s)[0] == c[0] && Encode(t)[0] == d[0];
      FirstByteTellsLength(s[0], t[0]);
      assert Encode(s)[..|c|] == c && Encode(t)[..|c|] == d;
      EncodeCharIsInjective(s[0], t[0]);
      assert Encode(s)[|c|..] == Encode(s[1..]) && Encode(t)[|c|..] == Encode(t[1..]);
      EncodeIsInjective(s[1..], t[1..]);
      assert s == [s[0]] + s[1..] && t == [t[0]] + t[1..];
    }
  }
}
