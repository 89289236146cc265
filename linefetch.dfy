/**
  The line fetch shared by both log formats (access_log_get_line and
  error_log_get_line): one gzgets into the 4096-byte line buffer, the
  read-and-discard loop for over-long lines, and the in-place trim of trailing
  CR and LF bytes. The functions here are the specification the cursor's
  GetLine method is proved against.
 */
module LineFetch {
  import opened Maybe
  import opened CString
  import opened GzStream

  /** LINESIZE: the line buffer, so at most 4095 bytes of a line are kept. */
  const LineSize: nat := 4096
  /** The local buffer of the discard loop. */
  const DiscardSize: nat := 1024

  predicate IsEol(c: char)
  {
    c == '\n' || c == '\r'
  }

  /** The trim loop over the bytes data[from..end] just read: the new end once every
      trailing CR and LF is removed, and nothing else. */
  function TrimEnd(data: seq<char>, from: nat, end: nat): (r: nat)
    requires from <= end <= |data|
    ensures from <= r <= end
    ensures forall i :: r <= i < end ==> IsEol(data[i])
    ensures r == from || !IsEol(data[r - 1])
    decreases end
  {
    if end > from && IsEol(data[end - 1]) then TrimEnd(data, from, end - 1) else end
  }

  /** How the discard loop ended: at end of file, on a read error, or after a chunk ending in CR or LF. */
  datatype Drained = Drained(atEof: bool, failed: bool, rest: Stream)

  /**
    The loop that runs after a chunk not ending in CR or LF: read 1023-byte
    chunks and drop them until one ends in CR or LF or the stream gives out.
   */
  function Discard(s: Stream): (d: Drained)
    requires s.Valid()
    ensures d.rest.Valid() && d.rest.data == s.data && d.rest.ending == s.ending && s.pos <= d.rest.pos
    ensures !(d.atEof && d.failed)
    ensures d.atEof ==> d.rest.AtCleanEnd()
    ensures d.failed ==> s.ending == Broken
    ensures !d.atEof && !d.failed ==> s.pos < d.rest.pos && IsEol(s.data[d.rest.pos - 1])
    decreases |s.data| - s.pos
  {
    match Gets(s, DiscardSize)
    case NoData(end) => Drained(end, !end, s)
    case Chunk(e) =>
      var t := s.(pos := e);
      if IsEol(s.data[e - 1]) then Drained(false, false, t) else Discard(t)
  }

  /**
    What one fetch leaves behind: the new line (None when the first read
    returned NULL and the buffer was left alone), whether eof is to be set,
    whether the fetch reports an error (rc = -1), and the stream after it.
   */
  datatype Outcome = Outcome(text: Option<seq<char>>, atEof: bool, failed: bool, rest: Stream)

  function Fetch(s: Stream): (o: Outcome)
    requires s.Valid()
    ensures o.rest.Valid() && o.rest.data == s.data && o.rest.ending == s.ending
    ensures o.atEof ==> o.rest.AtCleanEnd()
    ensures o.text.None? ==> o.rest == s
    ensures o.text.Some? ==> |o.text.value| < LineSize && s.pos < o.rest.pos
  {
    match Gets(s, LineSize)
    case NoData(end) => Outcome(None, end, !end, s)
    case Chunk(e) =>
      var t := s.(pos := e);
      if IsEol(s.data[e - 1]) then
        Outcome(Some(s.data[s.pos..TrimEnd(s.data, s.pos, e)]), false, false, t)
      else
        var d := Discard(t);
        Outcome(Some(s.data[s.pos..e]), d.atEof, d.failed, d.rest)
  }

  /** What a fetch promises when the first read returns NULL: the buffer is left alone,
      eof is set exactly at a clean end of file (so further fetches keep reporting it),
      and otherwise the fetch fails. */
  lemma FetchNoData(s: Stream)
    requires s.Valid()
    ensures var o := Fetch(s);
      && !(o.atEof && o.failed)
      && (o.failed ==> s.ending == Broken)
      && (s.AtCleanEnd() ==> o == Outcome(None, true, false, s))
      && (o.text.None? ==> (o.atEof <==> s.AtCleanEnd()) && (o.failed <==> !s.AtCleanEnd()))
  {
  }

  /** What a fetch promises when it returns a line: the line is the NUL-free start of
      what was left, holds no LF, has no CR or LF at its end; either only line-end bytes were
      dropped after it, or it was cut at 4095 bytes, or the stream ended or failed
      while the rest of it was being skipped; when neither happened, the next fetch
      starts right after a CR or LF. */
  predicate LineTaken(s: Stream, o: Outcome)
    requires s.Valid() && o.text.Some?
  {
    var t := o.text.value;
    && s.pos + |t| <= o.rest.pos <= |s.data|
    && t == s.data[s.pos..s.pos + |t|] && NulFree(t)
    && (forall i :: 0 <= i < |t| ==> t[i] != '\n')
    && (t == [] || !IsEol(t[|t| - 1]))
    && (|| (forall i :: s.pos + |t| <= i < o.rest.pos ==> IsEol(s.data[i]))
        || |t| == LineSize - 1 || o.atEof || o.failed)
    && (!o.atEof && !o.failed ==> 0 < o.rest.pos && IsEol(s.data[o.rest.pos - 1]))
  }

  lemma FetchLine(s: Stream)
    requires s.Valid() && Fetch(s).text.Some?
    ensures LineTaken(s, Fetch(s))
  {
    var e := Gets(s, LineSize).end;
    GetsStopsAtNewline(s, LineSize);
    if IsEol(s.data[e - 1]) {
      FetchLineTrimmed(s, e);
      TrimmedLineTaken(s, e);
    } else {
      FetchLineCut(s, e);
      var d := Discard(s.(pos := e));
      CutLineTaken(s, e, d);
    }
  }

  lemma TrimmedLineTaken(s: Stream, e: nat)
    requires s.Valid() && s.pos < e <= |s.data| && IsEol(s.data[e - 1])
    requires forall i :: s.pos <= i < e - 1 ==> s.data[i] != '\n'
    ensures LineTaken(s, Outcome(Some(s.data[s.pos..TrimEnd(s.data, s.pos, e)]), false, false, s.(pos := e)))
  {
    SliceOfLine(s.data, s.pos, TrimEnd(s.data, s.pos, e));
  }

  lemma CutLineTaken(s: Stream, e: nat, d: Drained)
    requires s.Valid() && s.pos < e <= |s.data| && !IsEol(s.data[e - 1])
    requires forall i :: s.pos <= i < e - 1 ==> s.data[i] != '\n'
    requires d.rest.data == s.data && e <= d.rest.pos <= |s.data|
    requires e - s.pos == LineSize - 1 || d.atEof
    requires !d.atEof && !d.failed ==> 0 < d.rest.pos && IsEol(s.data[d.rest.pos - 1])
    ensures LineTaken(s, Outcome(Some(s.data[s.pos..e]), d.atEof, d.failed, d.rest))
  {
    SliceOfLine(s.data, s.pos, e);
  }

  /** The bytes data[from..n] of a NUL-free stream, as the line buffer holds them. */
  lemma SliceOfLine(data: seq<char>, from: nat, n: nat)
    requires from <= n <= |data| && NulFree(data)
    ensures var t := data[from..n];
      && |t| == n - from && NulFree(t) && t == data[from..from + |t|]
      && (n > from ==> t[|t| - 1] == data[n - 1])
  {
    var t := data[from..n];
    forall i | 0 <= i < |t| ensures t[i] != '\0' {
      assert t[i] == data[from + i];
    }
  }

  /** A chunk ending in CR or LF: the line is the chunk up to its trailing CR and LF bytes,
      and the next fetch starts after the chunk. */
  lemma FetchLineTrimmed(s: Stream, e: nat)
    requires s.Valid() && Gets(s, LineSize) == Chunk(e) && IsEol(s.data[e - 1])
    ensures var n := TrimEnd(s.data, s.pos, e);
      Fetch(s) == Outcome(Some(s.data[s.pos..n]), false, false, s.(pos := e))
  {
  }

  /** A chunk not ending in CR or LF is the line; short of the buffer size, it ran to a
      clean end of file. */
  lemma FetchLineCut(s: Stream, e: nat)
    requires s.Valid() && Gets(s, LineSize) == Chunk(e) && !IsEol(s.data[e - 1])
    ensures var d := Discard(s.(pos := e));
      Fetch(s) == Outcome(Some(s.data[s.pos..e]), d.atEof, d.failed, d.rest)
    ensures e - s.pos == LineSize - 1 || Fetch(s).atEof
  {
    if e - s.pos != LineSize - 1 {
      DiscardAtEnd(s.(pos := e));
    }
  }

  /** At a clean end of file the discard loop's first read sets eof. */
  lemma DiscardAtEnd(t: Stream)
    requires t.Valid() && t.AtCleanEnd()
    ensures Discard(t).atEof
  {
  }

  /** The rows one full scan delivers from s on, and whether it stopped on an error:
      the query driver stops at the first fetch that sets eof or fails. */
  datatype Pass = Pass(lines: seq<seq<char>>, failed: bool)

  function Rows(s: Stream): Pass
    requires s.Valid()
    decreases |s.data| - s.pos
  {
    var o := Fetch(s);
    if o.text.None? || o.atEof || o.failed then Pass([], o.failed)
    else
      var p := Rows(o.rest);
      Pass([o.text.value] + p.lines, p.failed)
  }

  /** One fetch that yields a line without setting eof or failing contributes one row. */
  lemma RowsStep(s: Stream, l: seq<char>, s1: Stream)
    requires s.Valid() && Fetch(s) == Outcome(Some(l), false, false, s1)
    ensures s1.Valid() && Rows(s) == Pass([l] + Rows(s1).lines, Rows(s1).failed)
  {
  }

  /** At a clean end of file a scan delivers no row and no error. */
  lemma RowsAtCleanEnd(s: Stream)
    requires s.Valid() && s.AtCleanEnd()
    ensures Rows(s) == Pass([], false)
  {
  }

  /** A log written line by line, each line followed by LF. */
  function Join(lines: seq<seq<char>>): seq<char>
  {
    if lines == [] then [] else lines[0] + ['\n'] + Join(lines[1..])
  }

  /** Every line of the log is Plain. */
  predicate AllPlain(lines: seq<seq<char>>)
  {
    lines == [] || (Plain(lines[0]) && AllPlain(lines[1..]))
  }

  lemma {:induction false} AllPlainOf(lines: seq<seq<char>>)
    requires forall i :: 0 <= i < |lines| ==> Plain(lines[i])
    ensures AllPlain(lines)
    decreases |lines|
  {
    if lines != [] {
      assert forall i :: 0 <= i < |lines[1..]| ==> lines[1..][i] == lines[i + 1];
      AllPlainOf(lines[1..]);
    }
  }

  /** A line the fetch returns unchanged: no NUL, no LF, no trailing CR, and short enough for the buffer. */
  predicate Plain(l: seq<char>)
  {
    && |l| < LineSize - 1 && NulFree(l)
    && (forall i :: 0 <= i < |l| ==> l[i] != '\n')
    && (l == [] || l[|l| - 1] != '\r')
  }

  /** gzgets when the first newline ahead is at e: up to and including it when that fits,
      otherwise the first size - 1 bytes. */
  lemma GetsBeforeNewline(s: Stream, e: nat, size: nat)
    requires s.Valid() && size >= 2 && s.pos <= e < |s.data| && s.data[e] == '\n'
    requires forall i :: s.pos <= i < e ==> s.data[i] != '\n'
    ensures Gets(s, size) == Chunk(if e + 1 - s.pos <= size - 1 then e + 1 else s.pos + size - 1)
  {
    ChunkEndBeforeNewline(s.data, s.pos, e, size - 1);
  }

  /** A line whose LF at e falls within the buffer is returned without its trailing CR and LF
      bytes, and the next fetch starts on the following line. */
  lemma FetchTerminated(s: Stream, e: nat)
    requires s.Valid() && s.pos <= e < |s.data| && s.data[e] == '\n'
    requires forall i :: s.pos <= i < e ==> s.data[i] != '\n'
    requires e - s.pos < LineSize - 1
    ensures Fetch(s) == Outcome(Some(s.data[s.pos..TrimEnd(s.data, s.pos, e)]), false, false, s.(pos := e + 1))
  {
    GetsBeforeNewline(s, e, LineSize);
    FetchLineTrimmed(s, e + 1);
  }

  /** Where the first line of a joined log sits, and where the rest of the log starts. */
  lemma JoinSplit(data: seq<char>, pos: nat, lines: seq<seq<char>>)
    requires lines != [] && pos + |Join(lines)| <= |data|
    requires data[pos..pos + |Join(lines)|] == Join(lines)
    ensures var e := pos + |lines[0]|;
      && e < |data| && data[pos..e] == lines[0] && data[e] == '\n'
      && e + 1 + |Join(lines[1..])| == pos + |Join(lines)|
      && data[e + 1..e + 1 + |Join(lines[1..])|] == Join(lines[1..])
  {
    var l := lines[0];
    var j := Join(lines[1..]);
    assert Join(lines) == (l + ['\n']) + j;
    SliceConcat(data, pos, l + ['\n'], j);
    SliceConcat(data, pos, l, ['\n']);
    assert data[pos + |l|] == data[pos + |l|..pos + |l| + 1][0];
  }

  /** A window of data holding x + y holds x, then y. */
  lemma SliceConcat(data: seq<char>, a: nat, x: seq<char>, y: seq<char>)
    requires a + |x| + |y| <= |data| && data[a..a + |x| + |y|] == x + y
    ensures data[a..a + |x|] == x && data[a + |x|..a + |x| + |y|] == y
  {
    var w := data[a..a + |x| + |y|];
    assert data[a..a + |x|] == w[..|x|];
    assert data[a + |x|..a + |x| + |y|] == w[|x|..];
  }

  /** A Plain line followed by LF is fetched whole, and the next fetch starts after the LF. */
  lemma FetchPlainLine(s: Stream, l: seq<char>)
    requires s.Valid() && s.pos + |l| < |s.data| && s.data[s.pos..s.pos + |l|] == l
    requires s.data[s.pos + |l|] == '\n' && Plain(l)
    ensures Fetch(s) == Outcome(Some(l), false, false, s.(pos := s.pos + |l| + 1))
  {
    var e := s.pos + |l|;
    forall i | s.pos <= i < e ensures s.data[i] != '\n' {
      assert s.data[i] == l[i - s.pos];
    }
    FetchTerminated(s, e);
    assert TrimEnd(s.data, s.pos, e) == e by {
      assert e > s.pos ==> s.data[e - 1] == l[|l| - 1];
    }
  }

  /** The first line of a joined log is the first row of the scan, and the next fetch
      starts right after its LF. */
  lemma RowsJoinedHead(s: Stream, lines: seq<seq<char>>)
    requires s.Valid() && lines != [] && s.pos + |Join(lines)| <= |s.data|
    requires s.data[s.pos..s.pos + |Join(lines)|] == Join(lines)
    requires Plain(lines[0])
    ensures var s1 := s.(pos := s.pos + |lines[0]| + 1);
      s1.Valid() && Rows(s) == Pass([lines[0]] + Rows(s1).lines, Rows(s1).failed)
  {
    JoinSplit(s.data, s.pos, lines);
    FetchPlainLine(s, lines[0]);
    RowsStep(s, lines[0], s.(pos := s.pos + |lines[0]| + 1));
  }

  /** After the first line of a joined log and its LF, the rest of the log sits at the
      new position. */
  lemma JoinedTail(s: Stream, lines: seq<seq<char>>, e: Stream) returns (s1: Stream)
    requires s.Valid() && lines != [] && s.pos + |Join(lines)| <= |s.data|
    requires s.data[s.pos..s.pos + |Join(lines)|] == Join(lines)
    requires AllPlain(lines)
    requires e == s.(pos := s.pos + |Join(lines)|)
    ensures s1 == s.(pos := s.pos + |lines[0]| + 1) && s1.Valid()
    ensures s1.pos + |Join(lines[1..])| <= |s1.data|
    ensures s1.data[s1.pos..s1.pos + |Join(lines[1..])|] == Join(lines[1..])
    ensures AllPlain(lines[1..]) && Plain(lines[0])
    ensures e == s1.(pos := s1.pos + |Join(lines[1..])|)
  {
    JoinSplit(s.data, s.pos, lines);
    s1 := s.(pos := s.pos + |lines[0]| + 1);
  }

  /** Splitting off the head of a non-empty prefix. */
  lemma ConsAppend<T>(xs: seq<T>, ys: seq<T>)
    requires xs != []
    ensures xs + ys == [xs[0]] + (xs[1..] + ys)
  {
    assert xs == [xs[0]] + xs[1..];
  }

  /** Round trip for the common case: every line of a LF-terminated log comes back as one row,
      in order, and the scan then goes on from the end of the log. */
  lemma {:induction false} RowsOfJoin(s: Stream, lines: seq<seq<char>>, e: Stream)
    requires s.Valid() && s.pos + |Join(lines)| <= |s.data|
    requires s.data[s.pos..s.pos + |Join(lines)|] == Join(lines)
    requires AllPlain(lines)
    requires e == s.(pos := s.pos + |Join(lines)|)
    ensures e.Valid() && Rows(s) == Pass(lines + Rows(e).lines, Rows(e).failed)
    decreases |lines|
  {
    if lines == [] {
      assert e == s;
    } else {
      var s1 := JoinedTail(s, lines, e);
      RowsOfJoin(s1, lines[1..], e);
      RowsJoinedHead(s, lines);
      ConsAppend(lines, Rows(e).lines);
    }
  }

  /** A pass that ends in an empty, error-free pass is just its prefix. */
  lemma PassThenNothing(p: Pass, pe: Pass, lines: seq<seq<char>>)
    requires p == Pass(lines + pe.lines, pe.failed) && pe == Pass([], false)
    ensures p == Pass(lines, false)
  {
    assert lines + [] == lines;
  }

  /** A whole file of LF-terminated lines scans back to exactly those lines. */
  lemma LogRoundTrip(lines: seq<seq<char>>)
    requires forall i :: 0 <= i < |lines| ==> Plain(lines[i])
    requires NulFree(Join(lines))
    ensures Rows(Stream(Join(lines), 0, Clean)) == Pass(lines, false)
  {
    var s := Stream(Join(lines), 0, Clean);
    var e := s.(pos := |Join(lines)|);
    AllPlainOf(lines);
    RowsOfJoin(s, lines, e);
    RowsAtCleanEnd(e);
    PassThenNothing(Rows(s), Rows(e), lines);
  }

  /** A last line without a trailing newline takes the overflow path, reaches end of file
      there and sets eof while it is in the buffer, so no row is delivered for it. */
  lemma FetchUnterminatedLast(s: Stream)
    requires s.Valid() && s.ending == Clean
    requires 0 < |s.data| - s.pos < LineSize
    requires forall i :: s.pos <= i < |s.data| ==> s.data[i] != '\n'
    requires s.data[|s.data| - 1] != '\r'
    ensures Fetch(s) == Outcome(Some(s.data[s.pos..]), true, false, s.(pos := |s.data|))
    ensures Rows(s) == Pass([], false)
  {
    ChunkEndAtEnd(s.data, s.pos, LineSize - 1);
    assert Gets(s, LineSize) == Chunk(|s.data|);
    FetchLineCut(s, |s.data|);
    DiscardAtEnd(s.(pos := |s.data|));
    assert s.data[s.pos..] == s.data[s.pos..|s.data|];
  }

  /** The discard loop stops at the chunk that ends with the LF at e. */
  lemma DiscardShortRun(s: Stream, e: nat)
    requires s.Valid() && s.pos <= e < |s.data| && s.data[e] == '\n'
    requires forall i :: s.pos <= i < e ==> s.data[i] != '\n'
    requires e + 1 - s.pos <= DiscardSize - 1
    ensures Discard(s) == Drained(false, false, s.(pos := e + 1))
  {
    GetsBeforeNewline(s, e, DiscardSize);
  }

  /** A full chunk with no CR or LF at its end is dropped and the discard loop reads on. */
  lemma DiscardLongRun(s: Stream, e: nat)
    requires s.Valid() && s.pos <= e < |s.data| && s.data[e] == '\n'
    requires forall i :: s.pos <= i < e ==> !IsEol(s.data[i])
    requires e + 1 - s.pos > DiscardSize - 1
    ensures Discard(s) == Discard(s.(pos := s.pos + DiscardSize - 1))
  {
    GetsBeforeNewline(s, e, DiscardSize);
    assert !IsEol(s.data[s.pos + DiscardSize - 2]);
  }

  /** The discard loop skips a CR/LF-free run and the LF at e that ends it, however long. */
  lemma {:induction false} DiscardToNewline(s: Stream, e: nat)
    requires s.Valid() && s.pos <= e < |s.data| && s.data[e] == '\n'
    requires forall i :: s.pos <= i < e ==> !IsEol(s.data[i])
    ensures Discard(s) == Drained(false, false, s.(pos := e + 1))
    decreases e - s.pos
  {
    if e + 1 - s.pos <= DiscardSize - 1 {
      DiscardShortRun(s, e);
    } else {
      DiscardLongRun(s, e);
      DiscardToNewline(s.(pos := s.pos + DiscardSize - 1), e);
    }
  }

  /** An over-long line is cut to its first 4095 bytes; the rest of it and its LF at e are
      skipped, so the next fetch starts on the following line. */
  lemma FetchOverlong(s: Stream, e: nat)
    requires s.Valid() && s.pos <= e < |s.data| && s.data[e] == '\n'
    requires forall i :: s.pos <= i < e ==> !IsEol(s.data[i])
    requires e - s.pos >= LineSize - 1
    ensures Fetch(s) == Outcome(Some(s.data[s.pos..s.pos + LineSize - 1]), false, false, s.(pos := e + 1))
  {
    var k := s.pos + LineSize - 1;
    GetsBeforeNewline(s, e, LineSize);
    FetchLineCut(s, k);
    DiscardToNewline(s.(pos := k), e);
  }

  /** A CRLF line whose CR at e is the 4095th byte: the CR ends the first chunk, so no
      discard happens, and its LF is then read as a separate, empty line. */
  lemma FetchSplitCrLf(s: Stream, e: nat)
    requires s.Valid() && s.pos <= e && e + 1 < |s.data|
    requires s.data[e] == '\r' && s.data[e + 1] == '\n'
    requires forall i :: s.pos <= i < e ==> !IsEol(s.data[i])
    requires e - s.pos == LineSize - 2
    ensures Fetch(s) == Outcome(Some(s.data[s.pos..e]), false, false, s.(pos := e + 1))
    ensures Fetch(s.(pos := e + 1)) == Outcome(Some([]), false, false, s.(pos := e + 2))
  {
    GetsBeforeNewline(s, e + 1, LineSize);
    FetchLineTrimmed(s, e + 1);
    assert TrimEnd(s.data, s.pos, e + 1) == e;
    var s1 := s.(pos := e + 1);
    FetchTerminated(s1, e + 1);
  }

  /** The same CRLF line one byte shorter is a single row. */
  lemma FetchCrLf(s: Stream, e: nat)
    requires s.Valid() && s.pos <= e && e + 1 < |s.data|
    requires s.data[e] == '\r' && s.data[e + 1] == '\n'
    requires forall i :: s.pos <= i < e ==> !IsEol(s.data[i])
    requires e - s.pos < LineSize - 2
    ensures Fetch(s) == Outcome(Some(s.data[s.pos..e]), false, false, s.(pos := e + 2))
  {
    FetchTerminated(s, e + 1);
    assert TrimEnd(s.data, s.pos, e + 1) == e;
  }
}
