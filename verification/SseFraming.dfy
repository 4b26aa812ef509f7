/**
  Line framing of a server-sent event stream (section 9.2 of the WHATWG HTML Living Standard),
  for any reader of lines. Bytes arrive in arbitrary chunks; whole lines are read and the
  unfinished last line waits.

  The reference takes one byte at a time. The accumulator, which splits a whole batch of lines
  at once, refines it; that is what makes the cuts between chunks irrelevant.
*/
module SseFraming {
  import opened Text
  import opened Utf8

  const NEWLINE: byte := 10

  /** What the reader knows, with the bytes of the line that has not ended yet. */
  datatype Progress<T> = Progress(state: T, buf: seq<byte>)

  type LineReader<!T> = (T, seq<byte>) -> T

  function FeedLines<T>(read: LineReader<T>, t: T, lines: seq<seq<byte>>): T
    decreases |lines|
  {
    if lines == [] then t else FeedLines(read, read(t, lines[0]), lines[1..])
  }

  /** A newline ends the line, any other byte extends it. */
  function FeedByte<T>(read: LineReader<T>, s: Progress<T>, b: byte): Progress<T> {
    if b == NEWLINE then Progress(read(s.state, s.buf), []) else Progress(s.state, s.buf + [b])
  }

  function FeedBytes<T>(read: LineReader<T>, s: Progress<T>, bs: seq<byte>): Progress<T>
    decreases |bs|
  {
    if bs == [] then s else FeedBytes(read, FeedByte(read, s, bs[0]), bs[1..])
  }

  function FeedChunks<T>(read: LineReader<T>, s: Progress<T>, chunks: seq<seq<byte>>): Progress<T>
    decreases |chunks|
  {
    if chunks == [] then s else FeedChunks(read, FeedBytes(read, s, chunks[0]), chunks[1..])
  }

  lemma {:induction false} FeedConcat<T>(read: LineReader<T>, s: Progress<T>, a: seq<byte>, b: seq<byte>)
    ensures FeedBytes(read, s, a + b) == FeedBytes(read, FeedBytes(read, s, a), b)
    decreases |a|
  {
    if a == [] {
      assert a + b == b;
    } else {
      assert (a + b)[1..] == a[1..] + b;
      FeedConcat(read, FeedByte(read, s, a[0]), a[1..], b);
    }
  }

  /** How a stream is cut into chunks makes no difference. */
  lemma {:induction false} ChunkingIsIrrelevant<T>(read: LineReader<T>, s: Progress<T>, chunks: seq<seq<byte>>)
    ensures FeedChunks(read, s, chunks) == FeedBytes(read, s, Join(chunks, []))
    decreases |chunks|
  {
    if |chunks| == 1 {
      assert chunks[1..] == [];
    } else if chunks != [] {
      ChunkingIsIrrelevant(read, FeedBytes(read, s, chunks[0]), chunks[1..]);
      FeedConcat(read, s, chunks[0], Join(chunks[1..], []));
      assert chunks[0] + [] + Join(chunks[1..], []) == chunks[0] + Join(chunks[1..], []);
    }
  }

  /** A stream is read as its newline-terminated lines; what follows the last newline waits. */
  lemma {:induction false} BytesAreLines<T>(read: LineReader<T>, s: Progress<T>, bs: seq<byte>)
    requires NEWLINE !in s.buf
    ensures var parts := Split(s.buf + bs, NEWLINE);
            var n := |parts| - 1;
            FeedBytes(read, s, bs) == Progress(FeedLines(read, s.state, parts[..n]), parts[n])
    decreases |bs|
  {
    if bs == [] {
      assert s.buf + bs == s.buf;
      SplitPlain(s.buf, NEWLINE);
    } else if bs[0] == NEWLINE {
      assert s.buf + bs == s.buf + [NEWLINE] + bs[1..];
      SplitAtSeparator(s.buf, NEWLINE, bs[1..]);
      assert [] + bs[1..] == bs[1..];
      BytesAreLines(read, FeedByte(read, s, bs[0]), bs[1..]);
      var rest := Split(bs[1..], NEWLINE);
      assert ([s.buf] + rest)[..|rest|] == [s.buf] + rest[..|rest| - 1];
      assert ([s.buf] + rest[..|rest| - 1])[1..] == rest[..|rest| - 1];
    } else {
      assert s.buf + bs == (s.buf + [bs[0]]) + bs[1..];
      BytesAreLines(read, FeedByte(read, s, bs[0]), bs[1..]);
    }
  }

  /** The waiting part never holds a newline. */
  lemma TailHasNoNewline<T>(read: LineReader<T>, s: Progress<T>, bs: seq<byte>)
    requires NEWLINE !in s.buf
    ensures NEWLINE !in FeedBytes(read, s, bs).buf
  {
    BytesAreLines(read, s, bs);
  }

  lemma {:induction false} FeedLinesConcat<T>(read: LineReader<T>, t: T, a: seq<seq<byte>>, b: seq<seq<byte>>)
    ensures FeedLines(read, t, a + b) == FeedLines(read, FeedLines(read, t, a), b)
    decreases |a|
  {
    if a == [] {
      assert a + b == b;
    } else {
      assert (a + b)[1..] == a[1..] + b;
      FeedLinesConcat(read, read(t, a[0]), a[1..], b);
    }
  }

  /** The batch form: everything up to the last newline is split at once. The empty piece behind
      that newline is read as a line too, which must not matter. */
  lemma BatchIsBytewise<T>(read: LineReader<T>, s: Progress<T>, chunk: seq<byte>, complete: seq<byte>, tail: seq<byte>)
    requires NEWLINE !in s.buf && NEWLINE !in tail
    requires s.buf + chunk == complete + tail && complete != [] && complete[|complete| - 1] == NEWLINE
    requires forall t :: read(t, []) == t
    ensures FeedBytes(read, s, chunk) == Progress(FeedLines(read, s.state, Split(complete, NEWLINE)), tail)
  {
    var x := complete[..|complete| - 1];
    assert complete == x + [NEWLINE] + [];
    assert s.buf + chunk == x + [NEWLINE] + tail;
    BytesAreLines(read, s, chunk);
    SplitConcat(x, NEWLINE, tail);
    SplitConcat(x, NEWLINE, []);
    SplitPlain(tail, NEWLINE);
    var parts := Split(x, NEWLINE);
    assert (parts + [tail])[..|parts|] == parts;
    FeedLinesConcat(read, s.state, parts, [[]]);
    var one: seq<seq<byte>> := [[]];
    assert one[1..] == [];
  }

  lemma NoNewlineOnlyWaits<T>(read: LineReader<T>, s: Progress<T>, chunk: seq<byte>)
    requires NEWLINE !in s.buf && NEWLINE !in chunk
    ensures FeedBytes(read, s, chunk) == Progress(s.state, s.buf + chunk)
  {
    BytesAreLines(read, s, chunk);
    SplitPlain(s.buf + chunk, NEWLINE);
  }

  /** `rposition` of the newline byte, plus one: where the complete lines end. */
  function CompleteEnd(bs: seq<byte>): (n: nat)
    ensures n <= |bs| && NEWLINE !in bs[n..] && (n > 0 ==> bs[n - 1] == NEWLINE)
  {
    if bs == [] then 0
    else if bs[|bs| - 1] == NEWLINE then |bs|
    else
      var n := CompleteEnd(bs[..|bs| - 1]);
      assert bs[n..] == bs[..|bs| - 1][n..] + [bs[|bs| - 1]];
      n
  }

  /** One complete line fed on its own. */
  lemma FeedOneLine<T>(read: LineReader<T>, t: T, line: seq<byte>)
    requires NEWLINE !in line
    ensures FeedBytes(read, Progress(t, []), line + [NEWLINE]) == Progress(read(t, line), [])
  {
    BytesAreLines(read, Progress(t, []), line + [NEWLINE]);
    assert [] + (line + [NEWLINE]) == line + [NEWLINE] + [];
    SplitAtSeparator(line, NEWLINE, []);
    var parts: seq<seq<byte>> := Split(line + [NEWLINE] + [], NEWLINE);
    assert parts[..1] == [line];
  }
}
