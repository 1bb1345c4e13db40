/** Newline framing of a serial input: reading in chunks must give the lines of the whole stream. */
module SerialEndpoint {
  import opened Bits

  const NEWLINE: byte := 10
  const MAX_LINE_BYTES: nat := 4096

  type Line = seq<byte>

  /** What the reader has handed on, and the unfinished rest it keeps. */
  datatype Progress = Progress(lines: seq<Line>, buffer: seq<byte>)

  // ---- the reference: splitting a finished stream ----

  function FirstNewline(s: seq<byte>): (i: nat)
    requires NEWLINE in s
    ensures i < |s| && s[i] == NEWLINE && NEWLINE !in s[..i]
  {
    if s[0] == NEWLINE then 0
    else
      assert s == [s[0]] + s[1..];
      var k := FirstNewline(s[1..]);
      assert s[..k + 1] == [s[0]] + s[1..][..k];
      k + 1
  }

  /** The lines of a stream, newlines removed, and what follows the last newline. */
  function Split(s: seq<byte>): (p: Progress)
    ensures NEWLINE !in p.buffer
    decreases |s|
  {
    if NEWLINE !in s then Progress([], s)
    else
      var i := FirstNewline(s);
      var rest := Split(s[i + 1..]);
      Progress([s[..i]] + rest.lines, rest.buffer)
  }

  /** The stream the split came from. */
  function Join(p: Progress): seq<byte>
    decreases |p.lines|
  {
    if p.lines == [] then p.buffer
    else p.lines[0] + [NEWLINE] + Join(Progress(p.lines[1..], p.buffer))
  }

  predicate Unbroken(p: Progress) {
    NEWLINE !in p.buffer && forall k :: 0 <= k < |p.lines| ==> NEWLINE !in p.lines[k]
  }

  lemma {:induction false} FirstNewlineOf(line: seq<byte>, rest: seq<byte>)
    requires NEWLINE !in line
    ensures NEWLINE in line + [NEWLINE] + rest && FirstNewline(line + [NEWLINE] + rest) == |line|
    decreases |line|
  {
    var s := line + [NEWLINE] + rest;
    assert s[|line|] == NEWLINE;
    if line != [] {
      FirstNewlineOf(line[1..], rest);
      assert s[1..] == line[1..] + [NEWLINE] + rest;
    }
  }

  lemma {:induction false} SplitLine(line: seq<byte>, rest: seq<byte>)
    requires NEWLINE !in line
    ensures Split(line + [NEWLINE] + rest) == Progress([line] + Split(rest).lines, Split(rest).buffer)
  {
    var s := line + [NEWLINE] + rest;
    FirstNewlineOf(line, rest);
    assert s[..|line|] == line && s[|line| + 1..] == rest;
  }

  lemma CutAtNewline(s: seq<byte>, i: nat)
    requires i < |s| && s[i] == NEWLINE
    ensures s == s[..i] + [NEWLINE] + s[i + 1..]
  {
  }

  /** Splitting and joining are inverse: `Split` is the one newline-free decomposition of a stream. */
  lemma {:induction false} SplitInvertsJoin(p: Progress)
    requires Unbroken(p)
    ensures Split(Join(p)) == p
    decreases |p.lines|
  {
    if p.lines != [] {
      var tail := Progress(p.lines[1..], p.buffer);
      SplitInvertsJoin(tail);
      SplitLine(p.lines[0], Join(tail));
      assert p.lines == [p.lines[0]] + p.lines[1..];
    }
  }

  lemma {:induction false} JoinInvertsSplit(s: seq<byte>)
    ensures Unbroken(Split(s)) && Join(Split(s)) == s
    decreases |s|
  {
    if NEWLINE in s {
      var i := FirstNewline(s);
      JoinInvertsSplit(s[i + 1..]);
      CutAtNewline(s, i);
      assert Split(s).lines[1..] == Split(s[i + 1..]).lines;
    }
  }

  // ---- one read ----

  function Add(lines: seq<Line>, p: Progress): Progress {
    Progress(lines + p.lines, p.buffer)
  }

  function Truncate(buffer: seq<byte>): seq<byte> {
    if |buffer| > MAX_LINE_BYTES then buffer[|buffer| - MAX_LINE_BYTES..] else buffer
  }

  function ReadSpec(p: Progress, chunk: seq<byte>): Progress {
    Add(p.lines, Split(Truncate(p.buffer + chunk)))
  }

  /** All the reads; an empty chunk is a timeout and changes nothing. */
  function StreamSpec(chunks: seq<seq<byte>>): Progress {
    if chunks == [] then Progress([], [])
    else
      var before := StreamSpec(chunks[..|chunks| - 1]);
      var chunk := chunks[|chunks| - 1];
      if chunk == [] then before else ReadSpec(before, chunk)
  }

  function Concat(chunks: seq<seq<byte>>): seq<byte> {
    if chunks == [] then [] else Concat(chunks[..|chunks| - 1]) + chunks[|chunks| - 1]
  }

  /** Handing on the first line of the buffer changes nothing about what is still to come. */
  lemma Regroup(handled: seq<Line>, line: Line, lines: seq<Line>)
    ensures handled + ([line] + lines) == handled + [line] + lines
  {
  }

  lemma DrainStep(handled: seq<Line>, buffer: seq<byte>, k: nat)
    requires NEWLINE in buffer && k == FirstNewline(buffer)
    ensures Add(handled + [buffer[..k]], Split(buffer[k + 1..])) == Add(handled, Split(buffer))
  {
    Regroup(handled, buffer[..k], Split(buffer[k + 1..]).lines);
  }

  lemma Drained(handled: seq<Line>, buffer: seq<byte>)
    requires NEWLINE !in buffer
    ensures Add(handled, Split(buffer)) == Progress(handled, buffer)
  {
    assert handled + [] == handled;
  }

  lemma StreamSnoc(chunks: seq<seq<byte>>, i: nat)
    requires i < |chunks|
    ensures StreamSpec(chunks[..i + 1]) ==
      if chunks[i] == [] then StreamSpec(chunks[..i]) else ReadSpec(StreamSpec(chunks[..i]), chunks[i])
  {
    assert chunks[..i + 1][..i] == chunks[..i];
  }

  class Reader {
    var buffer: seq<byte>
    /** The lines handed to `_handle_line`, in order. */
    var handled: seq<Line>

    function View(): Progress
      reads this
    {
      Progress(handled, buffer)
    }

    constructor ()
      ensures View() == Progress([], [])
    {
      buffer, handled := [], [];
    }

    method Worker(chunks: seq<seq<byte>>)
      requires View() == Progress([], [])
      modifies this
      ensures View() == StreamSpec(chunks)
    {
      for i := 0 to |chunks|
        invariant View() == StreamSpec(chunks[..i])
      {
        var chunk := chunks[i];
        StreamSnoc(chunks, i);
        if chunk == [] {
          continue;
        }
        buffer := buffer + chunk;
        if |buffer| > MAX_LINE_BYTES {
          buffer := buffer[|buffer| - MAX_LINE_BYTES..];
        }
        while NEWLINE in buffer
          invariant Add(handled, Split(buffer)) == StreamSpec(chunks[..i + 1])
          decreases |buffer|
        {
          var k := FirstNewline(buffer);
          DrainStep(handled, buffer, k);
          handled := handled + [buffer[..k]];
          buffer := buffer[k + 1..];
        }
        Drained(handled, buffer);
      }
      assert chunks[..|chunks|] == chunks;
    }
  }

  // ---- streaming equals batch ----

  lemma SplitAtNewline(s: seq<byte>, i: nat, t: seq<byte>)
    requires i < |s| && s[i] == NEWLINE && NEWLINE !in s[..i]
    ensures Split(s + t) == Progress([s[..i]] + Split(s[i + 1..] + t).lines, Split(s[i + 1..] + t).buffer)
  {
    hide Split;
    assert s + t == s[..i] + [NEWLINE] + (s[i + 1..] + t);
    SplitLine(s[..i], s[i + 1..] + t);
  }

  /** Splitting can be done piecewise: the unfinished rest is carried into the next piece. */
  lemma {:induction false} SplitConcat(s: seq<byte>, t: seq<byte>)
    ensures Split(s + t) == Add(Split(s).lines, Split(Split(s).buffer + t))
    decreases |s|
  {
    if NEWLINE !in s {
      AddNothing(Split(s + t));
    } else {
      hide Split, Add;
      var i := FirstNewline(s);
      var line, rest := s[..i], s[i + 1..];
      SplitConcat(rest, t);
      CutAtNewline(s, i);
      SplitAtNewline(s, i, t);
      AddLine(line, Split(rest).lines, Split(Split(rest).buffer + t));
    }
  }

  lemma AddNothing(p: Progress)
    ensures Add([], p) == p
  {
    assert [] + p.lines == p.lines;
  }

  lemma AddLine(line: Line, lines: seq<Line>, p: Progress)
    ensures Add([line] + lines, p) == Progress([line] + Add(lines, p).lines, p.buffer)
  {
    assert [line] + lines + p.lines == [line] + (lines + p.lines);
  }

  /** Nothing is cut off: at every read the unfinished line and the chunk fit the limit together. */
  ghost predicate NeverFull(chunks: seq<seq<byte>>) {
    forall k :: 0 <= k < |chunks| ==> Fits(chunks, k)
  }

  ghost predicate Fits(chunks: seq<seq<byte>>, k: nat)
    requires k < |chunks|
  {
    chunks[k] != [] ==> |Split(Concat(chunks[..k])).buffer| + |chunks[k]| <= MAX_LINE_BYTES
  }

  function Size(p: Progress): nat
    decreases |p.lines|
  {
    if p.lines == [] then |p.buffer| else |p.lines[0]| + 1 + Size(Progress(p.lines[1..], p.buffer))
  }

  lemma {:induction false} SizeIsLengthOfJoin(p: Progress)
    ensures Size(p) == |Join(p)|
    decreases |p.lines|
  {
    if p.lines != [] {
      SizeIsLengthOfJoin(Progress(p.lines[1..], p.buffer));
    }
  }

  lemma {:induction false} SizeAppend(a: seq<Line>, p: Progress)
    ensures Size(Add(a, p)) == Size(Progress(a, [])) + Size(p)
    decreases |a|
  {
    if a == [] {
      assert a + p.lines == p.lines;
    } else {
      SizeAppend(a[1..], p);
      assert (a + p.lines)[1..] == a[1..] + p.lines;
    }
  }

  lemma SizeOfSplit(s: seq<byte>)
    ensures Size(Split(s)) == |s|
  {
    JoinInvertsSplit(s);
    SizeIsLengthOfJoin(Split(s));
  }

  lemma SizeOfProgress(p: Progress)
    ensures Size(p) == Size(Progress(p.lines, [])) + |p.buffer|
  {
    SizeAppend(p.lines, Progress([], p.buffer));
    assert p.lines + [] == p.lines;
  }

  /** Bytes handed on and kept never exceed the bytes read; a read that cuts something loses it for good. */
  lemma {:induction false} StreamSize(chunks: seq<seq<byte>>)
    ensures Size(StreamSpec(chunks)) <= |Concat(chunks)|
    ensures NEWLINE !in StreamSpec(chunks).buffer
  {
    if chunks != [] {
      var n := |chunks| - 1;
      StreamSize(chunks[..n]);
      if chunks[n] != [] {
        ReadSize(StreamSpec(chunks[..n]), chunks[n]);
      }
    }
  }

  lemma ReadSize(p: Progress, chunk: seq<byte>)
    ensures Size(ReadSpec(p, chunk)) + |p.buffer + chunk| == Size(p) + |chunk| + |Truncate(p.buffer + chunk)|
  {
    var now := Split(Truncate(p.buffer + chunk));
    SizeAppend(p.lines, now);
    SizeOfSplit(Truncate(p.buffer + chunk));
    SizeOfProgress(p);
  }

  /** For every division of a stream into chunks: the lines handed on are those of the whole stream,
      and the buffer its unfinished rest, exactly when no read overfilled the buffer. */
  lemma {:induction false} StreamingEqualsBatch(chunks: seq<seq<byte>>)
    ensures StreamSpec(chunks) == Split(Concat(chunks)) <==> NeverFull(chunks)
  {
    if chunks != [] {
      var n := |chunks| - 1;
      var front, chunk := chunks[..n], chunks[n];
      StreamingEqualsBatch(front);
      NeverFullSnoc(chunks);
      SplitConcat(Concat(front), chunk);
      if StreamSpec(front) == Split(Concat(front)) {
        if chunk == [] {
          assert Concat(front) + [] == Concat(front);
        } else {
          LastRead(Concat(front), chunk);
        }
      } else {
        LostForGood(chunks);
      }
    }
  }

  lemma NeverFullSnoc(chunks: seq<seq<byte>>)
    requires chunks != []
    ensures NeverFull(chunks) <==> NeverFull(chunks[..|chunks| - 1]) && Fits(chunks, |chunks| - 1)
  {
    var front := chunks[..|chunks| - 1];
    forall k | 0 <= k < |front|
      ensures Fits(front, k) <==> Fits(chunks, k)
    {
      assert front[..k] == chunks[..k];
    }
  }

  lemma {:induction false} LastRead(s: seq<byte>, chunk: seq<byte>)
    ensures ReadSpec(Split(s), chunk) == Split(s + chunk) <==> |Split(s).buffer| + |chunk| <= MAX_LINE_BYTES
  {
    SplitConcat(s, chunk);
    ReadSize(Split(s), chunk);
    SizeOfSplit(s);
    SizeOfSplit(s + chunk);
  }

  /** Once the reader differs from the batch split, it has lost bytes. */
  lemma {:induction false} DifferentMeansLost(chunks: seq<seq<byte>>)
    ensures StreamSpec(chunks) == Split(Concat(chunks)) || Size(StreamSpec(chunks)) < |Concat(chunks)|
  {
    if chunks != [] {
      var n := |chunks| - 1;
      DifferentMeansLost(chunks[..n]);
      if chunks[n] == [] {
        assert Concat(chunks) == Concat(chunks[..n]);
      } else {
        ReadLoses(StreamSpec(chunks[..n]), Concat(chunks[..n]), chunks[n]);
      }
    }
  }

  lemma {:induction false} ReadLoses(p: Progress, s: seq<byte>, chunk: seq<byte>)
    requires p == Split(s) || Size(p) < |s|
    ensures ReadSpec(p, chunk) == Split(s + chunk) || Size(ReadSpec(p, chunk)) < |s + chunk|
    ensures p != Split(s) ==> ReadSpec(p, chunk) != Split(s + chunk)
  {
    ReadSize(p, chunk);
    SizeOfSplit(s + chunk);
    if p == Split(s) {
      SizeOfSplit(s);
      LastRead(s, chunk);
    }
  }

  lemma {:induction false} LostForGood(chunks: seq<seq<byte>>)
    requires chunks != []
    requires StreamSpec(chunks[..|chunks| - 1]) != Split(Concat(chunks[..|chunks| - 1]))
    ensures StreamSpec(chunks) != Split(Concat(chunks))
  {
    var n := |chunks| - 1;
    DifferentMeansLost(chunks[..n]);
    if chunks[n] == [] {
      assert Concat(chunks) == Concat(chunks[..n]);
    } else {
      ReadLoses(StreamSpec(chunks[..n]), Concat(chunks[..n]), chunks[n]);
    }
  }

  /** No 3841 consecutive bytes of the stream are free of newlines. */
  ghost predicate ShortLines(s: seq<byte>) {
    forall i, j :: 0 <= i <= j <= |s| && NEWLINE !in s[i..j] ==> j - i <= 3840
  }

  lemma {:induction false} TailIsASuffix(s: seq<byte>) returns (i: nat)
    ensures i <= |s| && s[i..] == Split(s).buffer
    decreases |s|
  {
    if NEWLINE !in s {
      i := 0;
    } else {
      var k := FirstNewline(s);
      var j := TailIsASuffix(s[k + 1..]);
      i := k + 1 + j;
      assert s[i..] == s[k + 1..][j..];
    }
  }

  lemma {:induction false} ConcatPrefix(chunks: seq<seq<byte>>, k: nat)
    requires k <= |chunks|
    ensures Concat(chunks[..k]) <= Concat(chunks)
    decreases |chunks|
  {
    if k < |chunks| {
      ConcatPrefix(chunks[..|chunks| - 1], k);
      assert chunks[..|chunks| - 1][..k] == chunks[..k];
    } else {
      assert chunks[..k] == chunks;
    }
  }

  lemma ShortTail(s: seq<byte>, whole: seq<byte>, i: nat)
    requires ShortLines(whole) && s <= whole && i <= |s| && NEWLINE !in s[i..]
    ensures |s| - i <= 3840
  {
    assert whole[i..|s|] == s[i..];
  }

  /** With chunks of at most 256 bytes and no newline-free run over 3840 bytes, streaming is batch splitting. */
  lemma ShortLinesAreNeverCut(chunks: seq<seq<byte>>)
    requires forall k :: 0 <= k < |chunks| ==> |chunks[k]| <= 256
    requires ShortLines(Concat(chunks))
    ensures StreamSpec(chunks) == Split(Concat(chunks))
  {
    hide Split, StreamSpec, Concat;
    forall k | 0 <= k < |chunks|
      ensures Fits(chunks, k)
    {
      var s := Concat(chunks[..k]);
      var i := TailIsASuffix(s);
      ConcatPrefix(chunks, k);
      ShortTail(s, Concat(chunks), i);
    }
    StreamingEqualsBatch(chunks);
  }

  /** With no assumption on the input, the kept rest is newline-free and never longer than 4096 bytes. */
  lemma {:induction false} BufferIsBounded(chunks: seq<seq<byte>>)
    ensures var kept := StreamSpec(chunks).buffer; NEWLINE !in kept && |kept| <= 4096
  {
    if chunks != [] {
      var n := |chunks| - 1;
      BufferIsBounded(chunks[..n]);
      var whole := Truncate(StreamSpec(chunks[..n]).buffer + chunks[n]);
      var i := TailIsASuffix(whole);
    }
  }

  // ---- what long lines lose ----

  function Last4096(s: seq<byte>): (t: seq<byte>)
    ensures |t| == (if |s| < 4096 then |s| else 4096) && t == s[|s| - |t|..]
  {
    if |s| < 4096 then s else s[|s| - 4096..]
  }

  ghost predicate EndOf(s: seq<byte>, t: seq<byte>) {
    |s| <= |t| && t[|t| - |s|..] == s
  }

  ghost predicate EndsOf(lines: seq<Line>, whole: seq<Line>) {
    |lines| == |whole| && forall k :: 0 <= k < |lines| ==> EndOf(lines[k], whole[k])
  }

  /** A stream has as many lines as bytes of value 10, and no line has one. */
  lemma {:induction false} LinesAreCounted(s: seq<byte>)
    ensures |Split(s).lines| == multiset(s)[10]
    ensures forall k :: 0 <= k < |Split(s).lines| ==> 10 !in Split(s).lines[k]
    decreases |s|
  {
    hide Split;
    if NEWLINE in s {
      var i := FirstNewline(s);
      LinesAreCounted(s[i + 1..]);
      CutAtNewline(s, i);
      SplitLine(s[..i], s[i + 1..]);
      CountOfParts(s[..i], s[i + 1..]);
    } else {
      Unfinished(s);
      assert NEWLINE !in multiset(s);
    }
  }

  lemma CountOfParts(line: seq<byte>, rest: seq<byte>)
    requires NEWLINE !in line
    ensures multiset(line + [NEWLINE] + rest)[10] == 1 + multiset(rest)[10]
  {
    assert multiset(line + [NEWLINE] + rest) == multiset(line) + multiset{NEWLINE} + multiset(rest);
    assert NEWLINE !in multiset(line);
  }

  lemma Unfinished(s: seq<byte>)
    requires NEWLINE !in s
    ensures Split(s) == Progress([], s)
  {
  }

  /** Text without a newline in front of a stream only lengthens its first line, or what is unfinished. */
  lemma SplitBehind(a: seq<byte>, z: seq<byte>)
    requires NEWLINE !in a
    ensures EndsOf(Split(z).lines, Split(a + z).lines)
    ensures Split(a + z).buffer == if NEWLINE in z then Split(z).buffer else a + z
  {
    hide Split;
    if NEWLINE in z {
      var i := FirstNewline(z);
      var line, rest := z[..i], z[i + 1..];
      CutAtNewline(z, i);
      assert a + (line + [NEWLINE] + rest) == (a + line) + [NEWLINE] + rest;
      SplitLine(line, rest);
      SplitLine(a + line, rest);
      LongerLine(a, line, Split(rest).lines);
    } else {
      Unfinished(z);
      Unfinished(a + z);
    }
  }

  lemma LongerLine(a: seq<byte>, line: Line, lines: seq<Line>)
    ensures EndsOf([line] + lines, [a + line] + lines)
  {
    assert EndOf(line, a + line);
  }

  lemma KeptPart(tail: seq<byte>, chunk: seq<byte>)
    requires |chunk| <= 256
    ensures Truncate(Last4096(tail) + chunk) == Last4096(tail + chunk)
    ensures |Last4096(tail + chunk)| >= |chunk|
  {
    var cut := if |tail| < 4096 then 0 else |tail| - 4096;
    var kept := tail[cut..] + chunk;
    assert Last4096(tail) == tail[cut..];
    assert (tail + chunk)[cut..] == kept;
    if |kept| > 4096 {
      assert kept[|kept| - 4096..] == (tail + chunk)[cut..][|kept| - 4096..];
    }
  }

  /** One read of at most 256 bytes behind an unfinished line `tail`, of which the last 4096 bytes were kept. */
  lemma CutRead(tail: seq<byte>, chunk: seq<byte>)
    requires NEWLINE !in tail && |chunk| <= 256
    ensures var now, whole := Split(Truncate(Last4096(tail) + chunk)), Split(tail + chunk);
      EndsOf(now.lines, whole.lines) && now.buffer == Last4096(whole.buffer)
  {
    hide Split, Truncate;
    KeptPart(tail, chunk);
    var y, z := tail + chunk, Last4096(tail + chunk);
    var front := y[..|y| - |z|];
    assert y == front + z && front == tail[..|y| - |z|];
    SplitBehind(front, z);
    var i := TailIsASuffix(z);
    if NEWLINE !in z {
      Unfinished(z);
    }
  }

  lemma EndsAppend(a: seq<Line>, b: seq<Line>, c: seq<Line>, d: seq<Line>)
    requires EndsOf(a, b) && EndsOf(c, d)
    ensures EndsOf(a + c, b + d)
  {
  }

  /** For every stream read in chunks of at most 256 bytes: the lines handed on are as many as the lines of the
      stream, each is the end of its own, and the kept rest is the last 4096 bytes of the unfinished one. */
  lemma {:induction false} OnlyFrontsAreLost(chunks: seq<seq<byte>>)
    requires forall k :: 0 <= k < |chunks| ==> |chunks[k]| <= 256
    ensures var p, whole := StreamSpec(chunks), Split(Concat(chunks));
      && EndsOf(p.lines, whole.lines)
      && |p.lines| == multiset(Concat(chunks))[10]
      && p.buffer == Last4096(whole.buffer)
  {
    LinesAreCounted(Concat(chunks));
    if chunks != [] {
      hide Split, Truncate;
      var n := |chunks| - 1;
      var p, q, chunk := StreamSpec(chunks[..n]), Split(Concat(chunks[..n])), chunks[n];
      OnlyFrontsAreLost(chunks[..n]);
      if chunk == [] {
        assert Concat(chunks) == Concat(chunks[..n]);
      } else {
        SplitConcat(Concat(chunks[..n]), chunk);
        CutRead(q.buffer, chunk);
        EndsAppend(p.lines, q.lines, Split(Truncate(p.buffer + chunk)).lines, Split(q.buffer + chunk).lines);
      }
    }
  }
}
