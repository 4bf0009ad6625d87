/** The collector's stdout reader: it cuts a byte stream that arrives in arbitrary chunks into
    response lines, and stops at the first line that breaks the protocol. */
module Splitter {
  import opened Common

  const NEWLINE: byte := 10

  type Bytes = seq<byte>

  datatype Breach = TooLong | Surplus

  datatype Outcome = Outcome(lines: seq<Bytes>, breach: Option<Breach>)

  // ---------- the whole-stream specification ----------

  datatype Cut = Cut(complete: seq<Bytes>, rest: Bytes)

  /** The newline-terminated lines of a stream, without their newlines, and what follows the last. */
  function Split(stream: Bytes): Cut {
    if stream == [] then Cut([], [])
    else
      var Cut(complete, rest) := Split(stream[..|stream| - 1]);
      var last := stream[|stream| - 1];
      if last == NEWLINE then Cut(complete + [rest], []) else Cut(complete, rest + [last])
  }

  predicate Whitespace(b: byte) { b == 32 || 9 <= b <= 13 }

  predicate Blank(line: Bytes) { forall i :: 0 <= i < |line| ==> Whitespace(line[i]) }

  function Judge(kept: seq<Bytes>, pieces: seq<Bytes>, wanted: nat, limit: nat): Outcome
    decreases |pieces|
  {
    if pieces == [] then Outcome(kept, None)
    else if |pieces[0]| > limit then Outcome(kept, Some(TooLong))
    else if |kept| < wanted then Judge(kept + [pieces[0]], pieces[1..], wanted, limit)
    else if Blank(pieces[0]) then Judge(kept, pieces[1..], wanted, limit)
    else Outcome(kept, Some(Surplus))
  }

  /** At the end of the stream an unterminated last line counts too; after a read error it counts
      only if it is already too long. */
  function Pieces(stream: Bytes, ended: bool, limit: nat): seq<Bytes> {
    var Cut(complete, rest) := Split(stream);
    if rest == [] || (!ended && |rest| <= limit) then complete else complete + [rest]
  }

  function Spec(stream: Bytes, ended: bool, wanted: nat, limit: nat): Outcome {
    Judge([], Pieces(stream, ended, limit), wanted, limit)
  }

  // ---------- how the specification extends ----------

  lemma {:induction false} JudgeAppend(kept: seq<Bytes>, a: seq<Bytes>, b: seq<Bytes>, wanted: nat, limit: nat)
    ensures var first := Judge(kept, a, wanted, limit);
      Judge(kept, a + b, wanted, limit) == if first.breach.Some? then first else Judge(first.lines, b, wanted, limit)
    decreases |a|
  {
    if a == [] {
      assert a + b == b;
    } else {
      assert (a + b)[1..] == a[1..] + b;
      if |a[0]| <= limit {
        JudgeAppend(if |kept| < wanted then kept + [a[0]] else kept, a[1..], b, wanted, limit);
      }
    }
  }

  lemma {:induction false} SplitText(stream: Bytes, part: Bytes)
    requires NEWLINE !in part
    ensures Split(stream + part) == Cut(Split(stream).complete, Split(stream).rest + part)
    decreases |part|
  {
    if part == [] {
      assert stream + part == stream;
    } else {
      var shorter, last := part[..|part| - 1], part[|part| - 1];
      SplitText(stream, shorter);
      assert part == shorter + [last];
      Regroup(stream, shorter, [last]);
      SplitByte(stream + shorter, last);
      Regroup(Split(stream).rest, shorter, [last]);
    }
  }

  lemma Regroup(a: Bytes, b: Bytes, c: Bytes)
    ensures a + (b + c) == (a + b) + c
  {
  }

  lemma SplitByte(stream: Bytes, b: byte)
    requires b != NEWLINE
    ensures Split(stream + [b]) == Cut(Split(stream).complete, Split(stream).rest + [b])
  {
    assert (stream + [b])[..|stream|] == stream;
  }

  lemma SplitNewline(stream: Bytes)
    ensures Split(stream + [NEWLINE]) == Cut(Split(stream).complete + [Split(stream).rest], [])
  {
    assert (stream + [NEWLINE])[..|stream|] == stream;
  }

  /** What is read later leaves complete lines alone and only lengthens the open one. */
  lemma {:induction false} SplitExtends(stream: Bytes, more: Bytes)
    ensures var a, b := Split(stream), Split(stream + more);
      || (b.complete == a.complete && a.rest <= b.rest)
      || (|a.complete| < |b.complete| && a.complete <= b.complete && a.rest <= b.complete[|a.complete|])
    decreases |more|
  {
    if more == [] {
      assert stream + more == stream;
    } else {
      var shorter := more[..|more| - 1];
      SplitExtends(stream, shorter);
      assert (stream + more)[..|stream + more| - 1] == stream + shorter;
    }
  }

  /** Nothing read later changes the outcome. */
  ghost predicate Decided(stream: Bytes, o: Outcome, wanted: nat, limit: nat) {
    forall more, ended :: Spec(stream + more, ended, wanted, limit) == o
  }

  lemma LinesDecide(stream: Bytes, wanted: nat, limit: nat)
    requires Judge([], Split(stream).complete, wanted, limit).breach.Some?
    ensures Decided(stream, Judge([], Split(stream).complete, wanted, limit), wanted, limit)
  {
    var a := Split(stream).complete;
    forall more, ended
      ensures Spec(stream + more, ended, wanted, limit) == Judge([], a, wanted, limit)
    {
      SplitExtends(stream, more);
      var p := Pieces(stream + more, ended, limit);
      assert p == a + p[|a|..];
      JudgeAppend([], a, p[|a|..], wanted, limit);
    }
  }

  lemma LongRestDecides(stream: Bytes, wanted: nat, limit: nat)
    requires Judge([], Split(stream).complete, wanted, limit).breach.None? && |Split(stream).rest| > limit
    ensures Decided(stream, Judge([], Split(stream).complete, wanted, limit).(breach := Some(TooLong)), wanted, limit)
  {
    var a := Split(stream).complete;
    var o := Judge([], a, wanted, limit);
    forall more, ended
      ensures Spec(stream + more, ended, wanted, limit) == o.(breach := Some(TooLong))
    {
      SplitExtends(stream, more);
      var p := Pieces(stream + more, ended, limit);
      var n := |a|;
      var tail := p[n..];
      assert p == a + tail && tail[0] == p[n] && |tail[0]| > limit;
      JudgeAppend([], a, tail, wanted, limit);
    }
  }

  lemma DecidedExtends(stream: Bytes, o: Outcome, wanted: nat, limit: nat, more: Bytes)
    requires Decided(stream, o, wanted, limit)
    ensures Decided(stream + more, o, wanted, limit)
  {
    forall rest, ended
      ensures Spec(stream + more + rest, ended, wanted, limit) == o
    {
      assert stream + more + rest == stream + (more + rest);
    }
  }

  // ---------- the streaming reader ----------

  function Concat(chunks: seq<Bytes>): Bytes {
    if chunks == [] then [] else Concat(chunks[..|chunks| - 1]) + chunks[|chunks| - 1]
  }

  /** What the reader holds after a prefix of the stream. */
  ghost predicate Agrees(stream: Bytes, current: Bytes, o: Outcome, wanted: nat, limit: nat) {
    if o.breach.Some? then Decided(stream, o, wanted, limit)
    else
      && Split(stream).rest == current && |current| <= limit
      && Judge([], Split(stream).complete, wanted, limit) == o
  }

  method FindNewline(chunk: Bytes, start: nat) returns (at: Option<nat>)
    requires start <= |chunk|
    ensures at.Some? ==> start <= at.value < |chunk| && chunk[at.value] == NEWLINE && NEWLINE !in chunk[start..at.value]
    ensures at.None? ==> NEWLINE !in chunk[start..]
  {
    for i := start to |chunk|
      invariant NEWLINE !in chunk[start..i]
    {
      if chunk[i] == NEWLINE { return Some(i); }
    }
    return None;
  }

  lemma PartAgrees(seen: Bytes, part: Bytes, current: Bytes, o: Outcome, wanted: nat, limit: nat)
    requires Agrees(seen, current, o, wanted, limit) && o.breach.None? && NEWLINE !in part
    ensures |current| + |part| <= limit ==> Agrees(seen + part, current + part, o, wanted, limit)
    ensures |current| + |part| > limit ==> Agrees(seen + part, [], o.(breach := Some(TooLong)), wanted, limit)
  {
    SplitText(seen, part);
    if |current| + |part| > limit {
      LongRestDecides(seen + part, wanted, limit);
    }
  }

  lemma LineAgrees(seen: Bytes, current: Bytes, o: Outcome, wanted: nat, limit: nat)
    requires Agrees(seen, current, o, wanted, limit) && o.breach.None?
    ensures Agrees(seen + [NEWLINE], [], Judge(o.lines, [current], wanted, limit), wanted, limit)
  {
    SplitNewline(seen);
    JudgeAppend([], Split(seen).complete, [current], wanted, limit);
    if Judge(o.lines, [current], wanted, limit).breach.Some? {
      LinesDecide(seen + [NEWLINE], wanted, limit);
    }
  }

  lemma JudgeOne(kept: seq<Bytes>, line: Bytes, wanted: nat, limit: nat)
    requires |line| <= limit
    ensures Judge(kept, [line], wanted, limit) ==
      Outcome(if |kept| < wanted then kept + [line] else kept,
              if |kept| < wanted || Blank(line) then None else Some(Surplus))
  {
    var none: seq<Bytes> := [line][1..];
    assert none == [];
  }

  lemma Upto(seen: Bytes, chunk: Bytes, i: nat, j: nat)
    requires i <= j <= |chunk|
    ensures (seen + chunk[..i]) + chunk[i..j] == seen + chunk[..j]
    ensures j == i + 1 ==> chunk[i..j] == [chunk[i]]
    ensures j == |chunk| ==> chunk[i..j] == chunk[i..] && chunk[..j] == chunk
  {
  }

  method DrainChunk(ghost seen: Bytes, chunk: Bytes, held: Bytes, accepted: seq<Bytes>, wanted: nat, limit: nat)
    returns (current: Bytes, lines: seq<Bytes>, breach: Option<Breach>)
    requires Agrees(seen, held, Outcome(accepted, None), wanted, limit)
    ensures Agrees(seen + chunk, current, Outcome(lines, breach), wanted, limit)
  {
    current, lines, breach := held, accepted, None;
    var start := 0;
    assert seen + chunk[..0] == seen;
    while start < |chunk|
      invariant start <= |chunk| && breach.None?
      invariant Agrees(seen + chunk[..start], current, Outcome(lines, None), wanted, limit)
    {
      var newline := FindNewline(chunk, start);
      var stop := if newline.Some? then newline.value else |chunk|;
      var part := chunk[start..stop];
      PartAgrees(seen + chunk[..start], part, current, Outcome(lines, None), wanted, limit);
      Upto(seen, chunk, start, stop);
      if |current| + |part| > limit {
        breach, current := Some(TooLong), [];
        DecidedExtends(seen + chunk[..stop], Outcome(lines, breach), wanted, limit, chunk[stop..]);
        Upto(seen, chunk, stop, |chunk|);
        return;
      }
      current := current + part;
      start := stop;
      if newline.Some? {
        LineAgrees(seen + chunk[..stop], current, Outcome(lines, None), wanted, limit);
        start := stop + 1;
        Upto(seen, chunk, stop, start);
        var line := current;
        JudgeOne(lines, line, wanted, limit);
        current := [];
        if |lines| < wanted {
          lines := lines + [line];
        } else if !Blank(line) {
          breach := Some(Surplus);
          DecidedExtends(seen + chunk[..start], Outcome(lines, breach), wanted, limit, chunk[start..]);
          Upto(seen, chunk, start, |chunk|);
          return;
        }
      }
    }
    assert chunk[..start] == chunk;
  }

  /** However the stream is cut into chunks, the reader computes the specification of the whole. */
  method Drain(chunks: seq<Bytes>, ended: bool, wanted: nat, limit: nat)
    returns (lines: seq<Bytes>, breach: Option<Breach>)
    ensures Outcome(lines, breach) == Spec(Concat(chunks), ended, wanted, limit)
  {
    var current: Bytes := [];
    lines, breach := [], None;
    for i := 0 to |chunks|
      invariant Agrees(Concat(chunks[..i]), current, Outcome(lines, breach), wanted, limit)
    {
      assert chunks[..i + 1][..i] == chunks[..i];
      if breach.Some? {
        DecidedExtends(Concat(chunks[..i]), Outcome(lines, breach), wanted, limit, chunks[i]);
      } else {
        current, lines, breach := DrainChunk(Concat(chunks[..i]), chunks[i], current, lines, wanted, limit);
      }
    }
    ghost var stream := Concat(chunks);
    assert chunks[..|chunks|] == chunks && stream + [] == stream;
    if breach.None? && ended && current != [] {
      JudgeAppend([], Split(stream).complete, [current], wanted, limit);
      if |lines| < wanted {
        lines := lines + [current];
      } else if !Blank(current) {
        breach := Some(Surplus);
      }
    }
  }

  // ---------- what the specification says ----------

  ghost predicate Acceptable(pieces: seq<Bytes>, i: nat, wanted: nat, limit: nat)
    requires i < |pieces|
  {
    |pieces[i]| <= limit && (i < wanted || OnlySpaces(pieces[i]))
  }

  /** Tabs, line ends, form feeds and blanks. */
  ghost predicate OnlySpaces(line: Bytes) {
    forall b :: b in line ==> b in {9, 10, 11, 12, 13, 32}
  }

  lemma BlankIffSpaces(line: Bytes)
    ensures Blank(line) <==> OnlySpaces(line)
  {
    if Blank(line) {
      forall b | b in line ensures b in {9, 10, 11, 12, 13, 32} {
        var i :| 0 <= i < |line| && line[i] == b;
        assert Whitespace(line[i]);
      }
    } else {
      var i :| 0 <= i < |line| && !Whitespace(line[i]);
      assert line[i] in line;
    }
  }

  function Least(a: nat, b: nat): nat { if a <= b then a else b }

  /** The first `wanted` lines are kept, blank surplus lines are ignored, and the breach is the first
      line that is too long or is surplus and not blank. */
  lemma {:induction false} JudgeMeaning(pieces: seq<Bytes>, n: nat, wanted: nat, limit: nat)
    requires n <= |pieces| && forall i :: 0 <= i < n ==> Acceptable(pieces, i, wanted, limit)
    requires n == |pieces| || !Acceptable(pieces, n, wanted, limit)
    ensures Judge([], pieces, wanted, limit) == Outcome(pieces[..Least(n, wanted)],
              if n == |pieces| then None else if |pieces[n]| > limit then Some(TooLong) else Some(Surplus))
  {
    AcceptablePrefix(pieces, n, wanted, limit);
    if n < |pieces| { BlankIffSpaces(pieces[n]); }
    assert pieces == pieces[..n] + pieces[n..];
    JudgeAppend([], pieces[..n], pieces[n..], wanted, limit);
  }

  lemma {:induction false} AcceptablePrefix(pieces: seq<Bytes>, n: nat, wanted: nat, limit: nat)
    requires n <= |pieces| && forall i :: 0 <= i < n ==> Acceptable(pieces, i, wanted, limit)
    ensures Judge([], pieces[..n], wanted, limit) == Outcome(pieces[..Least(n, wanted)], None)
  {
    if n > 0 {
      AcceptablePrefix(pieces, n - 1, wanted, limit);
      BlankIffSpaces(pieces[n - 1]);
      assert pieces[..n] == pieces[..n - 1] + [pieces[n - 1]];
      JudgeAppend([], pieces[..n - 1], [pieces[n - 1]], wanted, limit);
      assert Acceptable(pieces, n - 1, wanted, limit);
    }
  }

  /** Lines with their newlines put back. */
  function Joined(lines: seq<Bytes>): Bytes {
    if lines == [] then [] else Joined(lines[..|lines| - 1]) + (lines[|lines| - 1] + [10])
  }

  lemma JoinedAppend(lines: seq<Bytes>, line: Bytes)
    ensures Joined(lines + [line]) == Joined(lines) + (line + [10])
  {
    assert (lines + [line])[..|lines|] == lines;
  }

  /** `cut` is how `stream` falls into lines: nothing lost, and no newline left inside a line. */
  ghost predicate Lines(stream: Bytes, cut: Cut) {
    && Joined(cut.complete) + cut.rest == stream
    && 10 !in cut.rest && forall i :: 0 <= i < |cut.complete| ==> 10 !in cut.complete[i]
  }

  lemma {:induction false} SplitIsExact(stream: Bytes)
    ensures Lines(stream, Split(stream))
  {
    if stream != [] {
      var front, last := stream[..|stream| - 1], stream[|stream| - 1];
      SplitIsExact(front);
      LinesGrow(front, last, Split(front));
      assert stream == front + [last];
    }
  }

  lemma LinesGrow(front: Bytes, last: byte, cut: Cut)
    requires Lines(front, cut)
    ensures Lines(front + [last], if last == NEWLINE then Cut(cut.complete + [cut.rest], [])
      else Cut(cut.complete, cut.rest + [last]))
  {
    if last == NEWLINE {
      JoinedAppend(cut.complete, cut.rest);
    }
    Regroup(Joined(cut.complete), cut.rest, [last]);
  }

  lemma {:induction false} JoinedSplits(lines: seq<Bytes>)
    requires forall i :: 0 <= i < |lines| ==> NEWLINE !in lines[i]
    ensures Split(Joined(lines)) == Cut(lines, [])
  {
    if lines != [] {
      var front, line := lines[..|lines| - 1], lines[|lines| - 1];
      JoinedSplits(front);
      SplitText(Joined(front), line);
      SplitNewline(Joined(front) + line);
      Regroup(Joined(front), line, [NEWLINE]);
      assert [] + line == line;
      assert lines == front + [line];
    }
  }

  /** There is no other way to cut a stream into lines. */
  lemma OnlyOneSplit(stream: Bytes, cut: Cut)
    requires Lines(stream, cut)
    ensures cut == Split(stream)
  {
    JoinedSplits(cut.complete);
    SplitText(Joined(cut.complete), cut.rest);
    assert [] + cut.rest == cut.rest;
  }

  /** The reader as a whole, from the text of the stream to the outcome: its lines are `complete`, each
      ended by a newline, and `rest`. The unfinished rest counts as a line if the stream has ended
      there or it is too long already. The first `wanted` lines before the first unacceptable one
      are the answer, and that one is the breach. */
  lemma OutcomeMeans(complete: seq<Bytes>, rest: Bytes, ended: bool, pieces: seq<Bytes>, n: nat, wanted: nat,
      limit: nat)
    requires 10 !in rest && forall i :: 0 <= i < |complete| ==> 10 !in complete[i]
    requires pieces == complete + if rest != [] && (ended || |rest| > limit) then [rest] else []
    requires n <= |pieces| && forall i :: 0 <= i < n ==> Acceptable(pieces, i, wanted, limit)
    requires n == |pieces| || !Acceptable(pieces, n, wanted, limit)
    ensures Spec(Joined(complete) + rest, ended, wanted, limit) == Outcome(
              if n <= wanted then pieces[..n] else pieces[..wanted],
              if n == |pieces| then None else if |pieces[n]| > limit then Some(TooLong) else Some(Surplus))
  {
    OnlyOneSplit(Joined(complete) + rest, Cut(complete, rest));
    assert complete + [] == complete;
    JudgeMeaning(pieces, n, wanted, limit);
  }
}
