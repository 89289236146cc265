/**
  The virtual-table cursor shared by the two log tables: the line buffer, the
  row counter and eof flag that xFilter, xNext, xEof and xRowid work on, and the
  per-line slot table that xColumn fills lazily with the scan the first time a
  column of the row is asked for. Each method is proved against the pure
  functions of LineFetch, AccessLog and ErrorLog.
 */
module LogCursor {
  import opened Maybe
  import opened CString
  import opened GzStream
  import opened LineFetch
  import opened FieldScan
  import AccessLog
  import ErrorLog

  /** Which of the two tables the cursor serves. */
  datatype Format = Access | Error

  /** A fetch whose first read yields a chunk: the line is the chunk less its trailing
      CR and LF bytes; after a chunk not ending in CR or LF the rest of the line is
      skipped. */
  lemma FetchChunk(s: Stream, e: nat)
    requires s.Valid() && Gets(s, LineSize) == Chunk(e)
    ensures Fetch(s).text == Some(s.data[s.pos..TrimEnd(s.data, s.pos, e)])
    ensures IsEol(s.data[e - 1]) ==> Fetch(s) == Outcome(Fetch(s).text, false, false, s.(pos := e))
    ensures !IsEol(s.data[e - 1]) ==>
      var d := Discard(s.(pos := e));
      Fetch(s) == Outcome(Fetch(s).text, d.atEof, d.failed, d.rest)
  {
    if IsEol(s.data[e - 1]) {
      FetchLineTrimmed(s, e);
    } else {
      FetchLineCut(s, e);
    }
  }

  /** One read of the discard loop: a NULL read ends it, a chunk ending in CR or LF ends
      it after that chunk, any other chunk leaves the rest to the following reads. */
  lemma DiscardStep(s: Stream, b: Read)
    requires s.Valid() && b == Gets(s, DiscardSize)
    ensures b.NoData? ==> Discard(s) == Drained(b.atEnd, !b.atEnd, s)
    ensures b.Chunk? && IsEol(s.data[b.end - 1]) ==> Discard(s) == Drained(false, false, s.(pos := b.end))
    ensures b.Chunk? && !IsEol(s.data[b.end - 1]) ==> Discard(s) == Discard(s.(pos := b.end))
  {
  }

  /** The state a fetch from s leaves: the stream after it, whether it set eof (the
      flag is clear before it), whether it failed, and the line when it read one. */
  ghost predicate Fetched(s: Stream, t: Stream, eof: bool, failed: bool, text: seq<char>)
    requires s.Valid()
  {
    var o := Fetch(s);
    t == o.rest && eof == o.atEof && failed == o.failed && (o.text.Some? ==> text == o.text.value)
  }

  /** One fetch on the file as zlib runs it. zlib keeps a read error until gzclearerr,
      which the code never calls: while one is pending, gzgets returns NULL at once with
      gzeof false, so the fetch fails and the stream stays where it is; otherwise the
      fetch is Fetch. */
  function FetchPending(s: Stream, pending: bool): Outcome
    requires s.Valid()
  {
    if pending then Outcome(None, false, true, s) else Fetch(s)
  }

  /** gzseek(f, 0, SEEK_SET), which zlib refuses while a read error is pending. */
  function SeekStart(s: Stream, pending: bool): Stream
  {
    if pending then s else s.Rewind()
  }

  /** The rows a full scan from xFilter delivers: none, with an error, while a read error
      is pending; otherwise the rows of the rewound stream. */
  function PassFrom(s: Stream, pending: bool): Pass
    requires s.Valid()
  {
    if pending then Pass([], true) else Rows(s.Rewind())
  }

  /** Where a scan of s0 stands: while live, the rows delivered so far, then the current
      line, then the rows the stream t still holds make up Rows(s0); once it has stopped,
      the rows delivered are all of Rows(s0). */
  ghost predicate Scanning(s0: Stream, lines: seq<seq<char>>, live: bool, failed: bool, text: seq<char>, t: Stream)
  {
    && s0.Valid() && t.Valid()
    && if live then Rows(s0) == Pass(lines + [text] + Rows(t).lines, Rows(t).failed)
       else Rows(s0) == Pass(lines, failed)
  }

  /** The first fetch after the rewind starts the scan. */
  lemma FirstRow(s0: Stream, t: Stream, eof: bool, failed: bool, text: seq<char>)
    requires s0.Valid() && Fetched(s0, t, eof, failed, text)
    ensures Scanning(s0, [], !eof && !failed, failed, text, t)
  {
    FetchNoData(s0);
    if !eof && !failed {
      FetchedLine(s0, t, text);
      RowsStep(s0, text, t);
      assert [] + [text] == [text];
    }
  }

  /** Each further fetch either delivers the current line and moves on to the next, or
      delivers it and ends the scan; it never moves the stream back, and moves it
      forward unless the scan ends. */
  lemma NextRow(s0: Stream, lines: seq<seq<char>>, text: seq<char>, before: Stream,
                after: Stream, eof: bool, failed: bool, next: seq<char>)
    requires Scanning(s0, lines, true, false, text, before)
    requires Fetched(before, after, eof, failed, next)
    ensures Scanning(s0, lines + [text], !eof && !failed, failed, next, after)
    ensures before.pos <= after.pos && (eof || failed || before.pos < after.pos)
  {
    FetchAdvances(before);
    FetchNoData(before);
    if !eof && !failed {
      FetchedLine(before, after, next);
      RowsStep(before, next, after);
      PassAppend(Rows(s0), Rows(before), Rows(after), lines + [text], next);
    } else {
      assert Rows(before) == Pass([], failed);
      assert lines + [text] + [] == lines + [text];
    }
  }

  /** A fetch that neither sets eof nor fails moves the stream forward. */
  lemma FetchAdvances(s: Stream)
    requires s.Valid()
    ensures s.pos <= Fetch(s).rest.pos
    ensures Fetch(s).atEof || Fetch(s).failed || s.pos < Fetch(s).rest.pos
  {
    FetchNoData(s);
  }

  /** ROWIDs counted from 1 stay so when the next one is appended. */
  lemma Counted(ids: seq<int>, id: int)
    requires forall k :: 0 <= k < |ids| ==> ids[k] == k + 1
    requires id == |ids| + 1
    ensures forall k :: 0 <= k < |ids + [id]| ==> (ids + [id])[k] == k + 1
  {
  }

  lemma FetchedLine(s: Stream, t: Stream, text: seq<char>)
    requires s.Valid() && Fetched(s, t, false, false, text)
    ensures Fetch(s) == Outcome(Some(text), false, false, t)
  {
    FetchNoData(s);
  }

  lemma PassAppend(p0: Pass, pl: Pass, pt: Pass, lines: seq<seq<char>>, text: seq<char>)
    requires p0 == Pass(lines + pl.lines, pl.failed) && pl == Pass([text] + pt.lines, pt.failed)
    ensures p0 == Pass(lines + [text] + pt.lines, pt.failed)
  {
    assert lines + ([text] + pt.lines) == lines + [text] + pt.lines;
  }


  /** The scanner's "trim whitespace" loop: step over spaces from a boundary; the field
      loop's next step is unchanged by it. */
  method SkipSpaces(s: seq<char>, start: nat) returns (p: nat)
    requires start <= |s| && Boundary(s, start)
    ensures start <= p <= |s| && (p == |s| || s[p] != ' ') && (p == 0 || p == |s| || s[p - 1] == ' ')
    ensures Next(s, p) == Next(s, start)
  {
    p := start;
    while p < |s| && s[p] == ' '
      invariant start <= p <= |s| && (p == start || s[p - 1] == ' ')
      invariant Next(s, p) == Next(s, start)
    {
      p := p + 1;
    }
  }

  /** The scanner's "find end" loop: walk from the field's end to the next space or the end
      of the line. */
  method WalkToSpace(s: seq<char>, e: nat) returns (w: nat)
    requires e <= |s|
    ensures w == FindOrEnd(s, e, ' ')
  {
    w := e;
    while w < |s| && s[w] != ' '
      invariant e <= w <= |s| && FindOrEnd(s, w, ' ') == FindOrEnd(s, e, ' ')
    {
      w := w + 1;
    }
  }

  /** TABLE_COLS of the format. */
  function Width(f: Format): nat
  {
    match f
    case Access => AccessLog.TableCols
    case Error => ErrorLog.TableCols
  }

  /** The lines the format's scanner is defined on (every line for the access log). */
  predicate Scannable(f: Format, s: seq<char>)
  {
    f.Error? ==> ErrorLog.Defined(s)
  }

  /** The slot table the format's scanner builds from the line s. */
  function TableOf(f: Format, s: seq<char>): (r: seq<Slot>)
    requires Scannable(f, s)
    ensures |r| == Width(f)
  {
    match f
    case Access => AccessLog.Slots(s)
    case Error => ErrorLog.Slots(s)
  }

  /** The value the format's xColumn hands SQLite for column cidx of the line s. */
  function ColumnOf(f: Format, s: seq<char>, cidx: nat, parseTime: seq<char> -> Option<int>): Value
    requires Scannable(f, s) && cidx < Width(f)
  {
    match f
    case Access => AccessLog.Column(s, cidx)
    case Error => ErrorLog.Column(s, cidx, parseTime)
  }

  /**
    One pass of the field loop's body from the boundary start: skip spaces; at the end
    of the line report that nothing is left; otherwise step over a '"' or '[' opener,
    find the closer with strchr (or the end of the line), and walk on to the next space.
   */
  method NextField(s: seq<char>, start: nat) returns (found: bool, f: Field, next: nat)
    requires start <= |s| && Boundary(s, start)
    ensures found <==> Next(s, start).Some?
    ensures found ==> Next(s, start) == Some(Step(f, next))
    ensures !found ==> next == |s|
  {
    var p := SkipSpaces(s, start);
    if p == |s| {
      return false, Field(0, 0), p;
    }
    var q, closer := Opener(s, p);
    var e := StrchrOrEnd(s, q, closer);
    f := Field(q, e - q);
    next := WalkToSpace(s, e);
    FieldAtIs(s, p, f, next);
    found := true;
  }

  /** A field that starts with '"' ends at the next '"', one that starts with '[' at the
      next ']', any other at the next space; the opener is not part of the field. */
  method Opener(s: seq<char>, p: nat) returns (q: nat, closer: char)
    requires p < |s|
    ensures q == (if IsOpener(s[p]) then p + 1 else p) && closer == Closer(s[p])
  {
    closer := ' ';
    q := p;
    if s[p] == '"' {
      closer := '"';
      q := p + 1;
    } else if s[p] == '[' {
      closer := ']';
      q := p + 1;
    }
  }

  /** strchr for the closer, with strlen standing in when it returns NULL. */
  method StrchrOrEnd(s: seq<char>, q: nat, closer: char) returns (e: nat)
    requires q <= |s|
    ensures e == FindOrEnd(s, q, closer)
  {
    match Strchr(s, q, closer) {
      case Some(x) => e := x;
      case None => e := |s|;
    }
  }

  /** One pass of the field loop, as Tokenize takes it. */
  lemma FieldStep(s: seq<char>, start: nat, n: nat, f: Field, w: nat) returns (rest: Scan)
    requires start <= |s| && Boundary(s, start) && n > 0 && Next(s, start) == Some(Step(f, w))
    ensures w <= |s| && Boundary(s, w) && rest == Tokenize(s, w, n - 1)
    ensures Tokenize(s, start, n) == Scan([f] + rest.fields, rest.stop)
  {
    var st := TokenizeCons(s, start, n);
    rest := Tokenize(s, w, n - 1);
  }

  /** The field loop's body at the first non-space byte p records f and stops at w. */
  lemma FieldAtIs(s: seq<char>, p: nat, f: Field, w: nat)
    requires p < |s| && s[p] != ' ' && (p == 0 || s[p - 1] == ' ')
    requires f.start == (if IsOpener(s[p]) then p + 1 else p)
    requires f.start + f.size == FindOrEnd(s, f.start, Closer(s[p])) && w == FindOrEnd(s, f.start + f.size, ' ')
    ensures Next(s, p) == Some(Step(f, w))
  {
  }

  /** The slots the field loop has filled: the fields found so far, then Absent. */
  ghost predicate Recorded(tab: seq<Slot>, fs: seq<Field>)
  {
    |fs| <= |tab| && forall k :: 0 <= k < |tab| ==> tab[k] == if k < |fs| then FieldSlot(fs[k]) else Absent
  }

  lemma RecordedNext(tab: seq<Slot>, fs: seq<Field>, f: Field)
    requires Recorded(tab, fs) && |fs| < |tab|
    ensures Recorded(tab[|fs| := FieldSlot(f)], fs + [f])
  {
  }

  lemma RecordedAll(tab: seq<Slot>, fs: seq<Field>)
    requires Recorded(tab, fs)
    ensures tab == RawSlots(fs, |tab|)
  {
  }

  lemma ScanShift(whole: Scan, fs: seq<Field>, f: Field, rest0: Scan, rest: Scan)
    requires whole == Scan(fs + rest0.fields, rest0.stop)
    requires rest0 == Scan([f] + rest.fields, rest.stop)
    ensures whole == Scan((fs + [f]) + rest.fields, rest.stop)
  {
    assert fs + ([f] + rest.fields) == (fs + [f]) + rest.fields;
  }

  /** When only spaces remain, the field loop finds nothing more and stops at the end. */
  lemma NoMoreFields(s: seq<char>, start: nat, n: nat)
    requires start <= |s| && Boundary(s, start) && Next(s, start).None? && n > 0
    ensures Tokenize(s, start, n) == Scan([], |s|)
  {
  }

  /** The error scanner's writes after the field loop, in order, give SlotsOf. */
  lemma ErrorSlotsAssembled(s: seq<char>, sc: Scan, tab: seq<Slot>)
    requires ErrorLog.Fits(s, sc)
    requires var fs := sc.fields; var h := ErrorLog.HostSlot(s, fs[2].start);
      tab == RawSlots(fs, ErrorLog.TableCols)[2 := ErrorLog.ClientSlot(s, fs[2])]
        [3 := Slot(At(sc.stop + 1), |s| - (sc.stop + 1))][4 := h][5 := h]
        [6 := ErrorLog.TimeSlot(fs[0], 6)][7 := ErrorLog.TimeSlot(fs[0], 7)]
        [8 := ErrorLog.TimeSlot(fs[0], 8)][9 := ErrorLog.TimeSlot(fs[0], 9)][10 := ErrorLog.TimeSlot(fs[0], 10)]
        [11 := ErrorLog.TimeSlot(fs[0], 11)][12 := ErrorLog.TimeSlot(fs[0], 12)]
        [13 := Slot(NoPtr, 2)][14 := Slot(At(0), |s|)]
    ensures tab == ErrorLog.SlotsOf(s, sc)
  {
    var r := ErrorLog.SlotsOf(s, sc);
    assert |tab| == |r|;
    forall k | 0 <= k < |r| ensures tab[k] == r[k] {
    }
  }

  /** access_log_column's switch for a set slot sl of column cidx. */
  method AccessValue(s: seq<char>, sl: Slot, cidx: nat) returns (v: Value)
    requires cidx < AccessLog.TableCols && AccessLog.Slots(s)[cidx] == sl && sl.size >= 0
    ensures v == AccessLog.Column(s, cidx)
  {
    ghost var tab := AccessLog.Slots(s);
    assert AccessLog.Sound(s, tab) && tab[cidx] == sl;
    assert AccessLog.Column(s, cidx) == AccessLog.Cell(s, tab, cidx);
    if cidx == 10 {
      var n := OctetSum(s, sl.ptr.off);
      v := Int(n);
    } else if cidx == 13 {
      v := MonthValue(s, sl.ptr.off);
    } else if cidx in {5, 6, 11, 14, 15, 16, 17} {
      v := Int(Atoi(s[sl.ptr.off..]));
    } else {
      v := Text(s[sl.ptr.off..sl.ptr.off + sl.size]);
    }
  }

  /** error_log_column's switch for a set slot sl of column cidx. */
  method ErrorValue(s: seq<char>, sl: Slot, first: Slot, cidx: nat, parseTime: seq<char> -> Option<int>)
    returns (v: Value)
    requires ErrorLog.Defined(s) && cidx < ErrorLog.TableCols && sl.size >= 0
    requires ErrorLog.Slots(s)[cidx] == sl && ErrorLog.Slots(s)[0] == first
    ensures v == ErrorLog.Column(s, cidx, parseTime)
  {
    ghost var tab := ErrorLog.Slots(s);
    assert ErrorLog.SlotOk(s, tab[cidx], cidx) && ErrorLog.SlotOk(s, tab[0], 0);
    if cidx == 5 {
      var n := OctetSum(s, sl.ptr.off);
      v := Int(n);
    } else if cidx == 8 {
      v := MonthValue(s, sl.ptr.off);
    } else if cidx in {6, 9, 10, 11, 12} {
      v := Int(Atoi(s[sl.ptr.off..]));
    } else if cidx == 13 {
      v := Int(ErrorLog.Epoch(s, first.ptr.off, parseTime));
    } else {
      v := Text(SlotText(s, sl));
    }
  }

  /** xOpen on a file, then a full scan as SQLite drives it: the rows of the file from its
      start, numbered 1, 2, 3, ... */
  method OpenAndScan(format: Format, parseTime: seq<char> -> Option<int>, data: seq<char>, ending: Ending)
    returns (lines: seq<seq<char>>, ids: seq<int>, failed: bool)
    requires NulFree(data)
    ensures Pass(lines, failed) == Rows(Stream(data, 0, ending))
    ensures |ids| == |lines| && forall k :: 0 <= k < |ids| ==> ids[k] == k + 1
  {
    var c := new Cursor(format, parseTime, data, ending);
    lines, ids, failed := c.FullScan();
  }

  class Cursor {
    const format: Format
    /** strptime followed by mktime, for the error log's epoch column. */
    const parseTime: seq<char> -> Option<int>

    var stream: Stream
    /** The ROWID: how many fetches since the last xFilter. */
    var row: int
    var eof: bool
    /** zlib's error state for the file: set by a gzgets that fails, never cleared. */
    var readError: bool

    const line: array<char>
    var lineLen: int
    var linePtrsValid: bool
    /** line_ptrs and line_size, one slot per column. */
    const slots: array<Slot>

    /** Whether xFilter has run: xOpen leaves the other fields unset, and SQLite calls
        xFilter before any other cursor method. */
    ghost var started: bool

    /** The line held in the buffer (the bytes before its NUL). */
    function Text(): seq<char>
      reads this, line
      requires 0 <= lineLen <= line.Length
    {
      line[..lineLen]
    }

    ghost predicate Valid()
      reads this, line, slots
    {
      && line.Length == LineSize && slots.Length == Width(format)
      && stream.Valid()
      && 0 <= lineLen < LineSize
      && NulFree(line[..lineLen])
      && (started && eof ==> stream.AtCleanEnd())
      && (readError ==> stream.ending == Broken)
    }

    /** The lazy-scan flag: when set, the slot table is the one the scanner builds from the
        line in the buffer. */
    ghost predicate Ready()
      reads this, line, slots
      requires Valid()
    {
      linePtrsValid ==> Scannable(format, Text()) && slots[..] == TableOf(format, Text())
    }

    /** xOpen: the gzip stream is opened on the table's file. */
    constructor (format: Format, parseTime: seq<char> -> Option<int>, data: seq<char>, ending: Ending)
      requires NulFree(data)
      ensures Valid() && !started && !linePtrsValid && !readError
      ensures fresh(line) && fresh(slots)
      ensures this.format == format && this.parseTime == parseTime
      ensures stream == Stream(data, 0, ending)
    {
      this.format := format;
      this.parseTime := parseTime;
      stream := Stream(data, 0, ending);
      row := 0;
      eof := false;
      readError := false;
      line := new char[LineSize];
      slots := new Slot[Width(format)](_ => Absent);
      lineLen := 0;
      linePtrsValid := false;
      started := false;
    }

    /**
      The line fetch: advance the row counter, drop the scan, read one line,
      skip the rest of an over-long line and trim trailing CR and LF bytes.
      The new state is what FetchPending says of the stream and zlib's error state
      before the call; a failed fetch leaves that error set.
     */
    method GetLine() returns (rc: int)
      requires Valid()
      modifies this, line
      ensures Valid() && started == old(started)
      ensures row == old(row) + 1 && !linePtrsValid
      ensures var o := FetchPending(old(stream), old(readError));
        && stream == o.rest && eof == (old(eof) || o.atEof)
        && rc == (if o.failed then -1 else 0) && readError == o.failed
        && (o.text.Some? ==> Text() == o.text.value) && (o.text.None? ==> Text() == old(Text()))
    {
      row := row + 1;
      linePtrsValid := false;
      rc := 0;
      var r := GzGets(LineSize);
      if r.NoData? {
        if r.atEnd {
          eof := true;
        } else {
          rc := -1;
        }
        return;
      }
      rc := ReadChunk(r.end);
    }

    /** gzgets: NULL at once, gzeof false, while a read error is pending; otherwise the
        read Gets says, and a NULL that is not the end of the file sets the error. */
    method GzGets(size: nat) returns (r: Read)
      requires stream.Valid() && size >= 2
      modifies this`readError
      ensures r == (if old(readError) then NoData(false) else Gets(stream, size))
      ensures readError == (old(readError) || r == NoData(false))
    {
      if readError {
        return NoData(false);
      }
      r := Gets(stream, size);
      if r == NoData(false) {
        readError := true;
      }
    }

    /** The fetch once the first read yields the bytes up to e. */
    method ReadChunk(e: nat) returns (rc: int)
      requires Valid() && !readError && Gets(stream, LineSize) == Chunk(e)
      modifies this`stream, this`eof, this`lineLen, this`readError, line
      ensures Valid()
      ensures var o := Fetch(old(stream));
        && stream == o.rest && eof == (old(eof) || o.atEof) && rc == (if o.failed then -1 else 0)
        && readError == o.failed && o.text == Some(Text())
    {
      FetchChunk(stream, e);
      rc := TakeChunk(e);
    }

    /** xFilter: rewind to the start of the file, restart the row counter and the eof
        flag, and fetch the first line; the first row has ROWID 1. After a failed read
        zlib refuses the rewind and the fetch fails at once. */
    method Filter() returns (rc: int)
      requires Valid()
      modifies this, line
      ensures Valid() && started && row == 1 && !linePtrsValid
      ensures var o := FetchPending(SeekStart(old(stream), old(readError)), old(readError));
        && stream == o.rest && eof == o.atEof && rc == (if o.failed then -1 else 0)
        && readError == o.failed && (o.text.Some? ==> Text() == o.text.value)
    {
      Seek();
      row := 0;
      eof := false;
      rc := GetLine();
      started := true;
    }

    /** The rewind, whose result the code ignores. */
    method Seek()
      modifies this`stream
      ensures stream == SeekStart(old(stream), readError)
    {
      if !readError {
        stream := stream.Rewind();
      }
    }

    /** xNext: fetch the following line. */
    method Next() returns (rc: int)
      requires Valid() && started
      modifies this, line
      ensures Valid() && started && row == old(row) + 1 && !linePtrsValid
      ensures var o := FetchPending(old(stream), old(readError));
        && stream == o.rest && eof == (old(eof) || o.atEof) && rc == (if o.failed then -1 else 0)
        && readError == o.failed && (o.text.Some? ==> Text() == o.text.value) && (o.text.None? ==> Text() == old(Text()))
    {
      rc := GetLine();
    }

    /** xEof: whether a fetch since xFilter reached a clean end of file. */
    method Eof() returns (b: bool)
      requires Valid() && started
      ensures b ==> stream.AtCleanEnd()
      ensures b == eof
    {
      b := eof;
    }

    /** xRowid: the number of fetches since xFilter. */
    method Rowid() returns (id: int)
      requires Valid() && started
      ensures id == row
    {
      id := row;
    }

    /**
      A full table scan as SQLite drives it: xFilter, then, while xEof is false,
      read the row (its text and its ROWID) and call xNext. The rows delivered are
      exactly Rows of the rewound stream, stopping with an error exactly when
      Rows does, and the ROWIDs are 1, 2, 3, ...; with a read error pending from
      before, no row and an error. A pass that fails leaves the error set.
     */
    method FullScan() returns (lines: seq<seq<char>>, ids: seq<int>, failed: bool)
      requires Valid()
      modifies this, line
      ensures Valid() && started
      ensures stream.data == old(stream.data) && stream.ending == old(stream.ending)
      ensures Pass(lines, failed) == PassFrom(old(stream), old(readError))
      ensures readError == failed
      ensures |ids| == |lines| && forall k :: 0 <= k < |ids| ==> ids[k] == k + 1
    {
      ghost var pending := readError;
      ghost var s0 := stream.Rewind();
      var rc := Filter();
      var atEnd := Eof();
      lines := [];
      ids := [];
      if !pending {
        FirstRow(s0, stream, eof, rc == -1, Text());
      }
      while rc == 0 && !atEnd
        invariant Valid() && started && stream.data == s0.data && stream.ending == s0.ending
        invariant row == |lines| + 1 && |ids| == |lines| && forall k :: 0 <= k < |ids| ==> ids[k] == k + 1
        invariant atEnd == eof && (rc == 0 || rc == -1) && readError == (rc == -1)
        invariant pending ==> rc == -1 && lines == []
        invariant !pending ==> Scanning(s0, lines, rc == 0 && !atEnd, rc == -1, Text(), stream)
        decreases |stream.data| - stream.pos + (if rc == 0 && !atEnd then 1 else 0)
      {
        var id, text;
        id, text, rc, atEnd := Step(s0, lines);
        Counted(ids, id);
        ids := ids + [id];
        lines := lines + [text];
      }
      failed := rc != 0;
    }

    /**
      Two full scans in a row, as two queries on the same cursor run them. After a
      first pass that reached the end of the file, xFilter rewinds and the second
      pass delivers the same rows and ROWIDs; after one that failed, zlib keeps the
      error, and the second pass delivers no row and fails at once.
     */
    method ScanTwice() returns (first: seq<seq<char>>, firstIds: seq<int>, firstFailed: bool,
                                second: seq<seq<char>>, secondIds: seq<int>, secondFailed: bool)
      requires Valid()
      modifies this, line
      ensures Valid() && started
      ensures Pass(first, firstFailed) == PassFrom(old(stream), old(readError))
      ensures !firstFailed ==> second == first && secondIds == firstIds && !secondFailed
      ensures firstFailed ==> second == [] && secondIds == [] && secondFailed
    {
      first, firstIds, firstFailed := FullScan();
      assert stream.Rewind() == old(stream).Rewind();
      second, secondIds, secondFailed := FullScan();
      if !firstFailed {
        assert |secondIds| == |firstIds|;
        assert forall k :: 0 <= k < |firstIds| ==> secondIds[k] == firstIds[k];
      }
    }

    /** One row of the scan: read its ROWID and text, then xNext and xEof. */
    method Step(ghost s0: Stream, ghost lines: seq<seq<char>>) returns (id: int, text: seq<char>, rc: int, atEnd: bool)
      requires Valid() && started && !eof && !readError && Scanning(s0, lines, true, false, Text(), stream)
      modifies this, line
      ensures Valid() && started && stream.data == old(stream.data) && stream.ending == old(stream.ending)
      ensures atEnd == eof && readError == (rc == -1)
      ensures id == old(row) && row == old(row) + 1 && text == old(Text()) && (rc == 0 || rc == -1)
      ensures Scanning(s0, lines + [text], rc == 0 && !atEnd, rc == -1, Text(), stream)
      ensures old(stream).pos <= stream.pos && (atEnd || rc == -1 || old(stream).pos < stream.pos)
    {
      id := Rowid();
      text := Text();
      ghost var before := stream;
      rc := Next();
      NextRow(s0, lines, text, before, stream, eof, rc == -1, Text());
      atEnd := Eof();
    }

    /** The scanner's clearing loop: every slot NULL with size -1. */
    method Clear()
      modifies slots
      ensures forall k :: 0 <= k < slots.Length ==> slots[k] == Absent
    {
      for i := 0 to slots.Length
        invariant forall k :: 0 <= k < i ==> slots[k] == Absent
      {
        slots[i] := Absent;
      }
    }

    /**
      The scanner's field loop over the line s for at most n fields: each field found
      is recorded in the next slot; the result is where the scan pointer stopped.
     */
    method ScanFields(s: seq<char>, n: nat) returns (stop: nat)
      requires n <= slots.Length
      requires forall k :: 0 <= k < slots.Length ==> slots[k] == Absent
      modifies slots
      ensures slots[..] == RawSlots(Tokenize(s, 0, n).fields, slots.Length)
      ensures stop == Tokenize(s, 0, n).stop
    {
      assert Recorded(slots[..], []);
      ghost var whole := Tokenize(s, 0, n);
      var start: nat := 0;
      ghost var fs: seq<Field> := [];
      ghost var rest := whole;
      assert whole == Scan(fs + rest.fields, rest.stop);
      var i := 0;
      while i < n
        invariant 0 <= i <= n && |fs| == i && start <= |s| && Boundary(s, start)
        invariant rest == Tokenize(s, start, n - i) && whole == Scan(fs + rest.fields, rest.stop)
        invariant Recorded(slots[..], fs)
      {
        var found, f, next := NextField(s, start);
        if !found {
          NoMoreFields(s, start, n - i);
          start := next;
          break;
        }
        ghost var tab := slots[..];
        RecordedNext(tab, fs, f);
        slots[i] := Slot(At(f.start), f.size);
        assert slots[..] == tab[i := FieldSlot(f)];
        ghost var rest1 := FieldStep(s, start, n - i, f, next);
        ScanShift(whole, fs, f, rest, rest1);
        fs := fs + [f];
        rest := rest1;
        start := next;
        i := i + 1;
      }
      RecordedAll(slots[..], fs);
      stop := start;
    }

    /** What access_log_scanline does after the field loop: copy the IP field to slot 10,
        split the timestamp, split the request, and point slot 20 at the whole line. */
    method AccessDerived(s: seq<char>)
      requires slots.Length == AccessLog.TableCols && AccessLog.Sound(s, slots[..])
      modifies slots
      ensures slots[..] == AccessLog.Derived(s, old(slots[..]))
    {
      ghost var t0 := slots[..];
      slots[10] := slots[0];
      assert slots[..] == t0[10 := t0[0]];
      assert AccessLog.Sound(s, slots[..]);
      AccessTime(s);
      AccessRequest(s);
      slots[20] := Slot(At(0), |s|);
    }

    /** The time split: with "DD/MMM/YYYY:HH:MM:SS zone" assumed, slots 11..17 point at the
        day, the month (twice), the year, the hour, the minute and the second, provided
        the timestamp field is set with at least 20 bytes. */
    method AccessTime(s: seq<char>)
      requires slots.Length == AccessLog.TableCols && AccessLog.Sound(s, slots[..])
      modifies slots
      ensures slots[..] == AccessLog.Timed(s, old(slots[..])) && AccessLog.Sound(s, slots[..])
    {
      if slots[3].ptr != NoPtr && slots[3].size >= 20 {
        var t := slots[3].ptr.off;
        slots[11] := Slot(At(t), 2);
        slots[12] := Slot(At(t + 3), 3);
        slots[13] := Slot(At(t + 3), 3);
        slots[14] := Slot(At(t + 7), 4);
        slots[15] := Slot(At(t + 12), 2);
        slots[16] := Slot(At(t + 15), 2);
        slots[17] := Slot(At(t + 18), 2);
      }
    }

    /** The request split: method up to the first space after the request's start, url
        from just past it to the next space; each slot is set only when its space is found. */
    method AccessRequest(s: seq<char>)
      requires slots.Length == AccessLog.TableCols && AccessLog.Sound(s, slots[..])
      modifies slots
      ensures slots[..] == AccessLog.RequestSlots(s, old(slots[..]))
    {
      var start := slots[4].ptr;
      var end: Option<nat> := if start.At? then Strchr(s, start.off, ' ') else None;
      if end.Some? {
        slots[18] := Slot(start, end.value - start.off);
        start := At(end.value + 1);
      }
      end := if start.At? then Strchr(s, start.off, ' ') else None;
      if end.Some? {
        slots[19] := Slot(start, end.value - start.off);
      }
    }

    /** What error_log_scanline does after the field loop, whose result is sc and whose
        scan pointer stopped at stop: the client check, the message, remote_host and its
        copy, the time split, the epoch's size and the whole line. */
    method ErrorDerived(s: seq<char>, ghost sc: Scan, stop: nat)
      requires slots.Length == ErrorLog.TableCols && ErrorLog.Fits(s, sc) && stop == sc.stop
      requires slots[..] == RawSlots(sc.fields, ErrorLog.TableCols)
      modifies slots
      ensures slots[..] == ErrorLog.SlotsOf(s, sc)
    {
      ghost var fs := sc.fields;
      ghost var t0 := slots[..];
      assert |fs| == 3 && t0[13] == Absent;
      DelimitedBytes(s, fs[0]);
      DelimitedBytes(s, fs[2]);
      ErrorClient(s, fs[2]);
      slots[3] := Slot(At(stop + 1), |s| - (stop + 1));
      ghost var t1 := slots[..];
      assert t1 == t0[2 := ErrorLog.ClientSlot(s, fs[2])][3 := Slot(At(sc.stop + 1), |s| - (sc.stop + 1))];
      ErrorHost(s, fs[2]);
      ErrorTime(s, fs[0]);
      ghost var t2 := slots[..];
      assert t2[13] == t0[13];
      slots[13] := Slot(slots[13].ptr, 2);
      assert slots[..] == t2[13 := Slot(NoPtr, 2)];
      slots[14] := Slot(At(0), |s|);
      ErrorSlotsAssembled(s, sc, slots[..]);
    }

    /** A third field that does not start with "client" is replaced by the empty string. */
    method ErrorClient(s: seq<char>, ghost f: Field)
      requires 3 <= slots.Length && f.start <= |s| && slots[2] == FieldSlot(f)
      modifies slots
      ensures slots[..] == old(slots[..])[2 := ErrorLog.ClientSlot(s, f)]
    {
      if !ErrorLog.IsClient(s, slots[2].ptr.off) {
        slots[2] := Slot(EmptyLiteral, 0);
      }
    }

    /** remote_host: from just past the first space after the client field's start to just
        before the first ']' after it; the copy in slot 5 is converted when read. */
    method ErrorHost(s: seq<char>, ghost f: Field)
      requires 6 <= slots.Length && f.start <= |s| && slots[2] == ErrorLog.ClientSlot(s, f) && slots[4] == Absent
      requires ErrorLog.IsClient(s, f.start) && Strchr(s, f.start, ' ').Some? ==> Strchr(s, f.start, ']').Some?
      modifies slots
      ensures slots[..] == old(slots[..])[4 := ErrorLog.HostSlot(s, f.start)][5 := ErrorLog.HostSlot(s, f.start)]
    {
      var p2 := slots[2].ptr;
      var sp: Option<nat> := if p2.At? then Strchr(s, p2.off, ' ') else None;
      var br: Option<nat> := if p2.At? then Strchr(s, p2.off, ']') else None;
      if sp.Some? {
        slots[4] := Slot(At(sp.value + 1), br.value - sp.value - 1);
      }
      slots[5] := slots[4];
    }

    /** The time split: with "Www Mmm DD HH:MM:SS YYYY" assumed, slots 6..12 point at the
        day, the month (twice), the year, the hour, the minute and the second, provided the
        first field is set with at least 20 bytes. */
    method ErrorTime(s: seq<char>, ghost f: Field)
      requires 13 <= slots.Length && slots[0] == FieldSlot(f)
      requires forall k :: 6 <= k <= 12 ==> slots[k] == Absent
      modifies slots
      ensures slots[..] == old(slots[..])[6 := ErrorLog.TimeSlot(f, 6)][7 := ErrorLog.TimeSlot(f, 7)]
                [8 := ErrorLog.TimeSlot(f, 8)][9 := ErrorLog.TimeSlot(f, 9)][10 := ErrorLog.TimeSlot(f, 10)]
                [11 := ErrorLog.TimeSlot(f, 11)][12 := ErrorLog.TimeSlot(f, 12)]
    {
      if slots[0].ptr != NoPtr && slots[0].size >= 20 {
        var t := slots[0].ptr.off;
        slots[6] := Slot(At(t + 8), 2);
        slots[7] := Slot(At(t + 4), 3);
        slots[8] := Slot(At(t + 4), 3);
        slots[9] := Slot(At(t + 20), 4);
        slots[10] := Slot(At(t + 11), 2);
        slots[11] := Slot(At(t + 14), 2);
        slots[12] := Slot(At(t + 17), 2);
      }
    }

    /**
      The scanner: clear every slot, run the field loop over the line in the buffer,
      then fill the format's derived slots; the table is then the one TableOf gives
      for the line, and the lazy-scan flag is set.
     */
    method ScanLine()
      requires Valid() && Scannable(format, Text())
      modifies this`linePtrsValid, slots
      ensures Valid() && linePtrsValid && Ready()
    {
      var s := line[..lineLen];
      match format {
        case Access => ScanAccess(s);
        case Error => ScanError(s);
      }
      linePtrsValid := true;
    }

    /** access_log_scanline on the line s. */
    method ScanAccess(s: seq<char>)
      requires slots.Length == AccessLog.TableCols
      modifies slots
      ensures slots[..] == AccessLog.Slots(s)
    {
      Clear();
      var stop := ScanFields(s, AccessLog.ScanCols);
      ghost var t0 := AccessLog.Scanned(s);
      assert slots[..] == t0;
      AccessDerived(s);
    }

    /** error_log_scanline on the line s. */
    method ScanError(s: seq<char>)
      requires slots.Length == ErrorLog.TableCols && ErrorLog.Defined(s)
      modifies slots
      ensures slots[..] == ErrorLog.Slots(s)
    {
      Clear();
      var stop := ScanFields(s, ErrorLog.ScanCols);
      ErrorLog.ScanFits(s);
      ErrorDerived(s, Tokenize(s, 0, ErrorLog.ScanCols), stop);
    }

    /**
      xColumn: scan the line if the flag says the table is stale, then hand back
      column cidx: NULL for a negative size, the converted value for the IP copy, the
      month, the numeric parts and the epoch, the slot's bytes otherwise. The value is
      the one ColumnOf gives for the line, and a second call on the same row does not
      scan again.
     */
    method Column(cidx: nat) returns (v: Value)
      requires Valid() && Ready() && started && cidx < Width(format) && Scannable(format, Text())
      modifies this`linePtrsValid, slots
      ensures Valid() && Ready() && linePtrsValid
      ensures v == ColumnOf(format, Text(), cidx, parseTime)
      ensures old(linePtrsValid) ==> unchanged(slots)
    {
      if !linePtrsValid {
        ScanLine();
      }
      var s := line[..lineLen];
      var sl := slots[cidx];
      if sl.size < 0 {
        return Null;
      }
      match format {
        case Access =>
          v := AccessValue(s, sl, cidx);
        case Error =>
          v := ErrorValue(s, sl, slots[0], cidx, parseTime);
      }
    }

    /** The rest of the fetch once the first read yields the bytes up to e: copy them
        into the buffer, skip the rest of the line when they do not end in CR or LF,
        and trim. */
    method TakeChunk(e: nat) returns (rc: int)
      requires line.Length == LineSize && stream.Valid() && !readError
      requires stream.pos < e <= |stream.data| && e - stream.pos < LineSize
      modifies this`stream, this`eof, this`lineLen, this`readError, line
      ensures line.Length == LineSize && stream.Valid() && 0 <= lineLen < LineSize
      ensures var s0 := old(stream);
        Text() == s0.data[s0.pos..TrimEnd(s0.data, s0.pos, e)] && NulFree(Text())
      ensures IsEol(old(stream).data[e - 1]) ==> stream == old(stream).(pos := e) && eof == old(eof) && rc == 0 && !readError
      ensures !IsEol(old(stream).data[e - 1]) ==>
        var d := Discard(old(stream).(pos := e));
        stream == d.rest && eof == (old(eof) || d.atEof) && rc == (if d.failed then -1 else 0) && readError == d.failed
    {
      rc := 0;
      ghost var s0 := stream;
      var n := e - stream.pos;
      Load(n);
      assert line[n - 1] == s0.data[e - 1];
      stream := stream.(pos := e);
      if !IsEol(line[n - 1]) {
        var failed := SkipRest();
        if failed {
          rc := -1;
        }
      }
      lineLen := TrimLine(n, s0.data, s0.pos);
    }

    /** gzgets copies the next n bytes into the line buffer. */
    method Load(n: nat)
      requires n <= line.Length && stream.pos + n <= |stream.data|
      modifies line
      ensures forall i :: 0 <= i < n ==> line[i] == stream.data[stream.pos + i]
    {
      forall k | 0 <= k < n {
        line[k] := stream.data[stream.pos + k];
      }
    }

    /** The loop that reads and drops 1023-byte chunks of an over-long line until one
        ends in CR or LF or the stream gives out. */
    method SkipRest() returns (failed: bool)
      requires stream.Valid() && !readError
      modifies this`stream, this`eof, this`readError
      ensures stream == Discard(old(stream)).rest
      ensures eof == (old(eof) || Discard(old(stream)).atEof)
      ensures failed == Discard(old(stream)).failed && readError == failed
    {
      ghost var ended := false;
      failed := false;
      var done := false;
      while !done
        invariant stream.Valid() && stream.data == old(stream).data && stream.ending == old(stream).ending
        invariant old(stream).pos <= stream.pos
        invariant eof == (old(eof) || ended)
        invariant readError == failed
        invariant !done ==> !failed && !ended && Discard(stream) == Discard(old(stream))
        invariant done ==> Discard(old(stream)) == Drained(ended, failed, stream)
        decreases |stream.data| - stream.pos + (if done then 0 else 1)
      {
        var b := GzGets(DiscardSize);
        DiscardStep(stream, b);
        if b.NoData? {
          if b.atEnd {
            eof := true;
            ended := true;
          } else {
            failed := true;
          }
          done := true;
        } else {
          var last := stream.data[b.end - 1];
          stream := stream.(pos := b.end);
          if IsEol(last) {
            done := true;
          }
        }
      }
    }

    /** The trim loop: overwrite trailing CR and LF bytes of the n bytes read with NUL,
        stopping at the start of the buffer; the result is the trimmed length. */
    method TrimLine(n: int, ghost data: seq<char>, ghost from: nat) returns (len: int)
      requires line.Length == LineSize && 0 < n < LineSize && from + n <= |data| && NulFree(data)
      requires forall i :: 0 <= i < n ==> line[i] == data[from + i]
      modifies line
      ensures 0 <= len < LineSize && len == TrimEnd(data, from, from + n) - from
      ensures line[..len] == data[from..TrimEnd(data, from, from + n)] && NulFree(line[..len])
    {
      var cptr := n - 1;
      while cptr >= 0 && IsEol(line[cptr])
        invariant -1 <= cptr < n
        invariant forall i :: 0 <= i <= cptr ==> line[i] == data[from + i]
        invariant TrimEnd(data, from, from + cptr + 1) == TrimEnd(data, from, from + n)
      {
        line[cptr] := 0 as char;
        cptr := cptr - 1;
      }
      len := cptr + 1;
      assert line[..len] == data[from..from + len];
      SliceOfLine(data, from, from + len);
    }
  }
}
