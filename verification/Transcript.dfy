/** Tail-reading a session transcript by byte offset, complete lines only. */
module Transcript {
  import opened Text

  newtype byte = n: int | 0 <= n < 256
  type Bytes = seq<byte>

  const NEWLINE: byte := 10

  /** The bytes of the line starting at the front: through the first newline, or all. */
  function LineLength(s: Bytes): (n: nat)
    ensures n <= |s| && (s != [] ==> n > 0)
  {
    if s == [] then 0
    else if s[0] == NEWLINE then 1
    else 1 + LineLength(s[1..])
  }

  lemma {:induction false} LineLengthMeans(s: Bytes)
    ensures var n := LineLength(s);
      (forall i :: 0 <= i < n - 1 ==> s[i] != NEWLINE) && (n < |s| ==> s[n - 1] == NEWLINE)
  {
    if s != [] && s[0] != NEWLINE {
      LineLengthMeans(s[1..]);
      assert forall i :: 1 <= i < |s| ==> s[i] == s[1..][i - 1];
    }
  }

  predicate EndsLine(s: Bytes) {
    s != [] && s[|s| - 1] == NEWLINE
  }

  /** A complete line: one newline, at the end. */
  predicate IsLine(s: Bytes) {
    EndsLine(s) && forall i :: 0 <= i < |s| - 1 ==> s[i] != NEWLINE
  }

  /** The complete lines of `s`, in order. */
  function CompleteLines(s: Bytes): seq<Bytes>
    decreases |s|
  {
    var n := LineLength(s);
    if n == 0 || !EndsLine(s[..n]) then [] else [s[..n]] + CompleteLines(s[n..])
  }

  ghost predicate AllLines(r: seq<Bytes>) {
    forall k :: 0 <= k < |r| ==> IsLine(r[k])
  }

  lemma {:induction false} CompleteLinesAreLines(s: Bytes)
    ensures AllLines(CompleteLines(s))
    decreases |s|
  {
    var n := LineLength(s);
    if n > 0 && EndsLine(s[..n]) {
      LineLengthMeans(s);
      CompleteLinesAreLines(s[n..]);
    }
  }

  function Concat(lines: seq<Bytes>): Bytes {
    if lines == [] then [] else lines[0] + Concat(lines[1..])
  }

  /** Where the last complete line ends. */
  function Boundary(s: Bytes): nat {
    |Concat(CompleteLines(s))|
  }

  lemma {:induction false} ConcatAppend(a: seq<Bytes>, b: seq<Bytes>)
    ensures Concat(a + b) == Concat(a) + Concat(b)
  {
    if a == [] {
      assert a + b == b;
    } else {
      ConcatAppend(a[1..], b);
      assert (a + b)[1..] == a[1..] + b;
      assert a[0] + (Concat(a[1..]) + Concat(b)) == (a[0] + Concat(a[1..])) + Concat(b);
    }
  }

  /** The complete lines spell out a prefix, and no newline is left after it. */
  lemma {:induction false} LinesArePrefix(s: Bytes)
    ensures Boundary(s) <= |s| && Concat(CompleteLines(s)) == s[..Boundary(s)]
    ensures forall i :: Boundary(s) <= i < |s| ==> s[i] != NEWLINE
    decreases |s|
  {
    var n := LineLength(s);
    if n > 0 && EndsLine(s[..n]) {
      LinesArePrefix(s[n..]);
      assert s == s[..n] + s[n..];
      assert CompleteLines(s)[1..] == CompleteLines(s[n..]);
      forall i | Boundary(s) <= i < |s| ensures s[i] != NEWLINE { assert s[i] == s[n..][i - n]; }
    } else if s != [] {
      LineLengthMeans(s);
      assert s[..n] == s;
    }
  }

  lemma LineLengthIs(line: Bytes, rest: Bytes)
    requires IsLine(line)
    ensures LineLength(line + rest) == |line|
  {
    var s := line + rest;
    LineLengthMeans(s);
    assert forall i :: 0 <= i < |line| ==> s[i] == line[i];
  }

  lemma LinesStep(line: Bytes, rest: Bytes)
    requires IsLine(line)
    ensures CompleteLines(line + rest) == [line] + CompleteLines(rest)
  {
    LineLengthIs(line, rest);
    assert (line + rest)[..|line|] == line && (line + rest)[|line|..] == rest;
  }

  /** Reading on from a line boundary: the lines before and after make up the whole. */
  lemma {:induction false} LinesResume(lines: seq<Bytes>, s: Bytes)
    requires AllLines(lines)
    ensures CompleteLines(Concat(lines) + s) == lines + CompleteLines(s)
  {
    if lines == [] {
      assert Concat(lines) + s == s;
    } else {
      LinesResume(lines[1..], s);
      LinesStep(lines[0], Concat(lines[1..]) + s);
      assert Concat(lines) + s == lines[0] + (Concat(lines[1..]) + s);
      assert [lines[0]] + (lines[1..] + CompleteLines(s)) == lines + CompleteLines(s);
    }
  }

  // ---- one read ----

  /** What a read delivers; a line that does not decode as text fails the whole read. */
  datatype Read = Lines(newOffset: nat, lines: seq<Bytes>) | Failed

  /** Every line a pass touches, the unfinished one included, decodes. */
  predicate Decodes(s: Bytes, valid: Bytes -> bool)
    decreases |s|
  {
    var n := LineLength(s);
    n == 0 || (valid(s[..n]) && (!EndsLine(s[..n]) || Decodes(s[n..], valid)))
  }

  function Start(file: Bytes, offset: nat): (r: nat)
    ensures r <= |file|
  {
    if |file| < offset then 0 else offset
  }

  function ReadFrom(file: Bytes, offset: nat, valid: Bytes -> bool): Read {
    var start := Start(file, offset);
    if Decodes(file[start..], valid) then Lines(start + Boundary(file[start..]), CompleteLines(file[start..]))
    else Failed
  }

  /** A pass decodes exactly when every complete line does and so does what is left after them. */
  lemma {:induction false} DecodesExactly(s: Bytes, valid: Bytes -> bool)
    ensures Decodes(s, valid) <==>
      && (forall k :: 0 <= k < |CompleteLines(s)| ==> valid(CompleteLines(s)[k]))
      && (Boundary(s) < |s| ==> valid(s[Boundary(s)..]))
    decreases |s|
  {
    var n := LineLength(s);
    if n > 0 && EndsLine(s[..n]) {
      var rest := CompleteLines(s[n..]);
      DecodesExactly(s[n..], valid);
      LinesArePrefix(s[n..]);
      assert CompleteLines(s) == [s[..n]] + rest;
      assert Boundary(s) == n + Boundary(s[n..]);
      assert s[Boundary(s)..] == s[n..][Boundary(s[n..])..];
      assert forall k :: 1 <= k < |CompleteLines(s)| ==> CompleteLines(s)[k] == rest[k - 1];
      assert forall k :: 0 <= k < |rest| ==> rest[k] == CompleteLines(s)[k + 1];
    } else if n > 0 {
      LineLengthMeans(s);
      assert s[..n] == s && s[0..] == s;
    }
  }

  /** One read: from the offset, or from the beginning when the file is shorter than that. It
      delivers the complete lines there and stops where they end. */
  lemma ReadExactly(file: Bytes, offset: nat, valid: Bytes -> bool)
    ensures var from := if |file| < offset then 0 else offset;
      ReadFrom(file, offset, valid) ==
      if Decodes(file[from..], valid) then Lines(from + |Concat(CompleteLines(file[from..]))|, CompleteLines(file[from..])) else Failed
  {}

  lemma ConcatSnoc(lines: seq<Bytes>, line: Bytes)
    ensures |Concat(lines + [line])| == |Concat(lines)| + |line|
  {
    ConcatAppend(lines, [line]);
    assert Concat([line]) == line + [];
  }

  lemma AppendAssociates(a: seq<Bytes>, b: seq<Bytes>, c: seq<Bytes>)
    ensures a + (b + c) == (a + b) + c
  {}

  /** `lines` have been read off the front of `all`, and `left` remains. */
  ghost predicate Midway(all: Bytes, lines: seq<Bytes>, left: Bytes, valid: Bytes -> bool) {
    && Decodes(all, valid) == Decodes(left, valid)
    && CompleteLines(all) == lines + CompleteLines(left)
  }

  lemma LinesNext(left: Bytes)
    requires left != []
    ensures var n := LineLength(left);
      CompleteLines(left) == if EndsLine(left[..n]) then [left[..n]] + CompleteLines(left[n..]) else []
  {}

  lemma MidwayStep(all: Bytes, lines: seq<Bytes>, left: Bytes, valid: Bytes -> bool)
    requires Midway(all, lines, left, valid) && left != []
    ensures var line := left[..LineLength(left)];
      && (!valid(line) ==> !Decodes(all, valid))
      && (valid(line) && !EndsLine(line) ==> Decodes(all, valid) && CompleteLines(all) == lines)
      && (valid(line) && EndsLine(line) ==> Midway(all, lines + [line], left[|line|..], valid))
  {
    var line := left[..LineLength(left)];
    LinesNext(left);
    if EndsLine(line) {
      AppendAssociates(lines, [line], CompleteLines(left[|line|..]));
    } else {
      assert lines + [] == lines;
    }
  }

  /** Reads complete lines off a stream until it ends, stops mid-line or fails to decode. */
  method ReadLines(all: Bytes, valid: Bytes -> bool) returns (ok: bool, lines: seq<Bytes>, count: nat)
    ensures ok <==> Decodes(all, valid)
    ensures ok ==> lines == CompleteLines(all) && count == Boundary(all)
  {
    ok, lines, count := true, [], 0;
    var left := all;
    assert [] + CompleteLines(all) == CompleteLines(all);
    while left != []
      invariant ok && Midway(all, lines, left, valid) && count == |Concat(lines)|
      decreases |left|
    {
      var line := left[..LineLength(left)];
      MidwayStep(all, lines, left, valid);
      if !valid(line) { return false, [], 0; }
      if line[|line| - 1] != NEWLINE { return; }
      ConcatSnoc(lines, line);
      lines, count, left := lines + [line], count + |line|, left[|line|..];
    }
    assert lines + [] == lines;
  }

  /** Reads the transcript from `offset`; a file that shrank is read from 0. */
  method ReadDelta(file: Bytes, offset: nat, valid: Bytes -> bool) returns (r: Read)
    ensures r == ReadFrom(file, offset, valid)
  {
    var start := if |file| < offset then 0 else offset;
    var ok, lines, count := ReadLines(file[start..], valid);
    r := if ok then Lines(start + count, lines) else Failed;
  }

  // ---- many reads of a growing file ----

  /** The reader's position in a file and everything it has consumed. */
  datatype Reader = Reader(offset: nat, consumed: seq<Bytes>)

  function Advance(rd: Reader, file: Bytes, valid: Bytes -> bool): Reader {
    match ReadFrom(file, rd.offset, valid)
    case Lines(o, lines) => Reader(o, rd.consumed + lines)
    case Failed => rd
  }

  /** The reader after reading the successive states of a file. */
  function ReadAll(files: seq<Bytes>, valid: Bytes -> bool): Reader {
    if files == [] then Reader(0, [])
    else Advance(ReadAll(files[..|files| - 1], valid), files[|files| - 1], valid)
  }

  ghost predicate Grows(files: seq<Bytes>) {
    forall i :: 0 <= i < |files| - 1 ==> files[i] <= files[i + 1]
  }

  /** The consumed lines are exactly the complete lines before the offset. */
  ghost predicate InStep(rd: Reader, file: Bytes) {
    && rd.offset <= |file|
    && Concat(rd.consumed) == file[..rd.offset]
    && AllLines(rd.consumed)
  }

  lemma InStepMeans(rd: Reader, file: Bytes)
    requires InStep(rd, file)
    ensures rd.consumed == CompleteLines(file[..rd.offset])
    ensures rd.offset == 0 || file[rd.offset - 1] == NEWLINE
  {
    LinesResume(rd.consumed, []);
    assert Concat(rd.consumed) + [] == file[..rd.offset];
    assert rd.consumed + CompleteLines([]) == rd.consumed;
    ConcatEnds(rd.consumed);
  }

  lemma {:induction false} ConcatEnds(lines: seq<Bytes>)
    requires AllLines(lines)
    ensures Concat(lines) == [] || EndsLine(Concat(lines))
  {
    if lines != [] { ConcatEnds(lines[1..]); }
  }

  lemma AdvanceInStep(rd: Reader, file: Bytes, valid: Bytes -> bool)
    requires InStep(rd, file)
    ensures InStep(Advance(rd, file, valid), file)
    ensures Decodes(file[rd.offset..], valid) ==>
      Advance(rd, file, valid) == Reader(Boundary(file), CompleteLines(file))
  {
    var rest := file[rd.offset..];
    if Decodes(rest, valid) {
      LinesResume(rd.consumed, rest);
      assert Concat(rd.consumed) + rest == file;
      ConcatAppend(rd.consumed, CompleteLines(rest));
      CompleteLinesAreLines(rest);
      LinesArePrefix(file);
    }
  }

  /** The reader after reading on through further states of the file. */
  function ReadOn(rd: Reader, files: seq<Bytes>, valid: Bytes -> bool): Reader {
    if files == [] then rd else Advance(ReadOn(rd, files[..|files| - 1], valid), files[|files| - 1], valid)
  }

  /** A file that shrank below the offset is read again from its beginning: once that read
      decodes, the reader goes on as a fresh one would, and keeps what it had. */
  lemma {:induction false} ShrunkIsReread(rd: Reader, files: seq<Bytes>, valid: Bytes -> bool)
    requires files != [] && |files[0]| < rd.offset && Decodes(files[0], valid)
    ensures ReadOn(rd, files, valid) == Reader(ReadAll(files, valid).offset, rd.consumed + ReadAll(files, valid).consumed)
    decreases |files|
  {
    var front, last := files[..|files| - 1], files[|files| - 1];
    assert files[0][0..] == files[0];
    if front == [] {
      assert ReadOn(rd, front, valid) == rd && ReadAll(front, valid) == Reader(0, []);
      assert [] + CompleteLines(last) == CompleteLines(last);
    } else {
      assert front[0] == files[0];
      ShrunkIsReread(rd, front, valid);
      var mid := ReadAll(front, valid);
      assert forall lines :: (rd.consumed + mid.consumed) + lines == rd.consumed + (mid.consumed + lines);
    }
  }

  /** The last read decoded, so every complete line of the file has been consumed. */
  ghost predicate CaughtUp(rd: Reader, file: Bytes) {
    rd == Reader(Boundary(file), CompleteLines(file))
  }

  lemma GrowsFront(files: seq<Bytes>, file: Bytes)
    requires Grows(files + [file]) && files != []
    ensures Grows(files) && files[|files| - 1] <= file
  {
    var all := files + [file];
    forall i | 0 <= i < |files| - 1 ensures files[i] <= files[i + 1] { assert all[i] <= all[i + 1]; }
    assert all[|files| - 1] <= all[|files| - 1 + 1];
  }

  lemma InStepGrows(rd: Reader, file: Bytes, longer: Bytes)
    requires InStep(rd, file) && file <= longer
    ensures InStep(rd, longer)
  {
    assert longer[..rd.offset] == file[..rd.offset];
  }

  /** Reading a growing file at any growth points, mid-line included, consumes each
      complete line exactly once and in order, and always stops on a line boundary; a
      read that decodes has then consumed every complete line of the file. */
  lemma {:induction false} TailEqualsWhole(files: seq<Bytes>, file: Bytes, valid: Bytes -> bool)
    requires Grows(files + [file])
    ensures var rd := ReadAll(files + [file], valid);
      && InStep(rd, file)
      && rd.consumed == CompleteLines(file[..rd.offset])
      && (rd.offset == 0 || file[rd.offset - 1] == NEWLINE)
    ensures Decodes(file[Start(file, ReadAll(files, valid).offset)..], valid) ==>
      CaughtUp(ReadAll(files + [file], valid), file)
    decreases |files|
  {
    var all, before := files + [file], ReadAll(files, valid);
    assert all[..|files|] == files;
    if files != [] {
      var front, last := files[..|files| - 1], files[|files| - 1];
      assert files == front + [last];
      GrowsFront(files, file);
      TailEqualsWhole(front, last, valid);
      InStepGrows(before, last, file);
    }
    AdvanceInStep(before, file, valid);
    InStepMeans(Advance(before, file, valid), file);
  }
}
