/**
  The access_log table: the slot table access_log_scanline builds from one
  trimmed line (NCSA combined format plus %D), and the value
  access_log_column hands to SQLite for each of the 21 columns.
 */
module AccessLog {
  import opened Maybe
  import opened CString
  import opened FieldScan

  /** TABLE_COLS_SCAN: the fields read directly from the line. */
  const ScanCols: nat := 10
  /** TABLE_COLS: the scanned fields plus the computed columns. */
  const TableCols: nat := 21

  /** Every slot is NULL-sized or can be read as text of the line (never the static
      empty string, which only the error_log scanner uses). */
  predicate Sound(s: seq<char>, tab: seq<Slot>)
  {
    forall i :: 0 <= i < |tab| ==>
      Readable(s, tab[i]) && !tab[i].ptr.EmptyLiteral? && (tab[i].ptr.At? ==> tab[i].ptr.off <= |s|)
  }

  /** Slots 11..17 for a timestamp "DD/MMM/YYYY:HH:MM:SS zone" whose text starts at t:
      day, month (twice), year, hour, minute and second. */
  function TimeSlots(tab: seq<Slot>, t: nat): (r: seq<Slot>)
    requires |tab| == TableCols
    ensures |r| == TableCols
  {
    tab[11 := Slot(At(t), 2)][12 := Slot(At(t + 3), 3)][13 := Slot(At(t + 3), 3)]
       [14 := Slot(At(t + 7), 4)][15 := Slot(At(t + 12), 2)][16 := Slot(At(t + 15), 2)]
       [17 := Slot(At(t + 18), 2)]
  }

  /** The time parts are set only from a timestamp slot that is set with at least 20 bytes. */
  function Timed(s: seq<char>, tab: seq<Slot>): (r: seq<Slot>)
    requires |tab| == TableCols && Sound(s, tab)
    ensures |r| == TableCols && Sound(s, r)
    ensures forall i :: 0 <= i < TableCols && (i < 11 || 17 < i) ==> r[i] == tab[i]
    ensures r[13].size < 0 || r[13] == tab[13] || r[13].size == 3
  {
    if tab[3].ptr.At? && tab[3].size >= 20 then TimeSlots(tab, tab[3].ptr.off) else tab
  }

  /** Slots 18 and 19: method runs from the request start to the first space after it,
      url from just past that space to the next one; each search covers the rest of the
      line, and a failed first search leaves the second starting at the request. */
  function RequestSlots(s: seq<char>, tab: seq<Slot>): (r: seq<Slot>)
    requires |tab| == TableCols && Sound(s, tab)
    ensures |r| == TableCols && Sound(s, r)
    ensures forall i :: 0 <= i < TableCols && i != 18 && i != 19 ==> r[i] == tab[i]
  {
    if !tab[4].ptr.At? then tab
    else
      var p := tab[4].ptr.off;
      var t1 := match Strchr(s, p, ' ')
        case Some(e) => tab[18 := Slot(At(p), e - p)]
        case None => tab;
      var st := match Strchr(s, p, ' ')
        case Some(e) => e + 1
        case None => p;
      match Strchr(s, st, ' ')
      case Some(e) => t1[19 := Slot(At(st), e - st)]
      case None => t1
  }

  /** The slot table after the clearing loop and the field loop: the fields found, each
      one ending at its closer or at the end of the line, and Absent everywhere else. */
  function Scanned(s: seq<char>): (r: seq<Slot>)
    ensures |r| == TableCols && Sound(s, r)
  {
    var sc := Tokenize(s, 0, ScanCols);
    FieldsReadable(s, sc);
    RawSlots(sc.fields, TableCols)
  }

  lemma FieldsReadable(s: seq<char>, sc: Scan)
    requires sc == Tokenize(s, 0, ScanCols)
    ensures Sound(s, RawSlots(sc.fields, TableCols))
  {
    var t0 := RawSlots(sc.fields, TableCols);
    forall i | 0 <= i < TableCols
      ensures Readable(s, t0[i]) && !t0[i].ptr.EmptyLiteral? && (t0[i].ptr.At? ==> t0[i].ptr.off <= |s|)
    {
      if i < |sc.fields| {
        TokenizeDelimited(s, 0, ScanCols, i);
        DelimitedBytes(s, sc.fields[i]);
      }
    }
  }

  /** What the scan adds after the field loop: the IP copy, the time parts when field 3 is
      present with at least 20 bytes, the request split and the whole line. */
  function Derived(s: seq<char>, t0: seq<Slot>): (r: seq<Slot>)
    requires |t0| == TableCols && Sound(s, t0)
    ensures |r| == TableCols && Sound(s, r)
    ensures r[13].size < 0 || r[13] == t0[13] || r[13].size == 3
  {
    var t1 := t0[10 := t0[0]];
    assert Sound(s, t1);
    var t3 := RequestSlots(s, Timed(s, t1));
    t3[20 := Slot(At(0), |s|)]
  }

  /** The slot table after access_log_scanline. */
  function Slots(s: seq<char>): (r: seq<Slot>)
    ensures |r| == TableCols && Sound(s, r)
    ensures r[13].size < 0 || r[13].size == 3
  {
    Derived(s, Scanned(s))
  }

  /** The copy, the line and the scanned fields as the finished table holds them. */
  lemma DerivedKeeps(s: seq<char>, t0: seq<Slot>, i: nat)
    requires |t0| == TableCols && Sound(s, t0) && i < ScanCols
    ensures Derived(s, t0)[i] == t0[i]
    ensures Derived(s, t0)[10] == t0[0] && Derived(s, t0)[20] == Slot(At(0), |s|)
  {
  }

  /** access_log_column: NULL for a slot whose size is negative; the reversed-octet
      integer for the IP copy (10); the month number, or the three bytes when the name is
      not known, for month (13); atoi for status, bytes and the numeric time parts; the
      slot's bytes otherwise. */
  function Cell(s: seq<char>, tab: seq<Slot>, cidx: nat): (v: Value)
    requires |tab| == TableCols && Sound(s, tab) && cidx < TableCols
    requires tab[13].size < 0 || tab[13].size == 3
    ensures v.Null? <==> tab[cidx].size < 0
    ensures v.Text? ==> |v.t| == tab[cidx].size
  {
    var sl := tab[cidx];
    if sl.size < 0 then Null
    else if cidx == 10 then Int(IpValue(s, sl.ptr.off))
    else if cidx == 13 then MonthValue(s, sl.ptr.off)
    else if cidx in {5, 6, 11, 14, 15, 16, 17} then Int(Atoi(s[sl.ptr.off..]))
    else Text(SlotText(s, sl))
  }

  /** The value of column cidx for the line s. */
  function Column(s: seq<char>, cidx: nat): (v: Value)
    requires cidx < TableCols
    ensures v.Null? <==> Slots(s)[cidx].size < 0
  {
    Cell(s, Slots(s), cidx)
  }

  /** The cell of a slot that holds a scanned field. */
  lemma FieldCell(s: seq<char>, tab: seq<Slot>, i: nat, f: Field)
    requires |tab| == TableCols && Sound(s, tab) && (tab[13].size < 0 || tab[13].size == 3)
    requires i < ScanCols && tab[i] == FieldSlot(f) && Delimited(s, f)
    ensures i == 5 || i == 6 ==> Cell(s, tab, i) == Int(Atoi(s[f.start..]))
    ensures i != 5 && i != 6 ==>
      Cell(s, tab, i) == Text(s[f.start..FindOrEnd(s, f.start, CloserAt(s, f.start))])
  {
  }

  /** The ten scanned columns: NULL past the last field found; status and bytes read
      with atoi; the others the field's bytes, up to its closer or the end of the line. */
  lemma ScannedColumn(s: seq<char>, i: nat)
    requires i < ScanCols
    ensures var fs := Tokenize(s, 0, ScanCols).fields;
      (i >= |fs| ==> Column(s, i) == Null) &&
      (i < |fs| && (i == 5 || i == 6) ==>
        (fs[i].start <= |s| && Column(s, i) == Int(Atoi(s[fs[i].start..])))) &&
      (i < |fs| && i != 5 && i != 6 ==>
        (Delimited(s, fs[i]) &&
         Column(s, i) == Text(s[fs[i].start..FindOrEnd(s, fs[i].start, CloserAt(s, fs[i].start))])))
  {
    var fs := Tokenize(s, 0, ScanCols).fields;
    DerivedKeeps(s, Scanned(s), i);
    if i < |fs| {
      TokenizeDelimited(s, 0, ScanCols, i);
      FieldCell(s, Slots(s), i, fs[i]);
    }
  }

  /** The IP column holds the reversed-octet integer of the first field, or NULL when
      the line has no field. */
  lemma IpColumn(s: seq<char>)
    ensures var fs := Tokenize(s, 0, ScanCols).fields;
      Column(s, 10) == if fs == [] then Null else Int(IpValue(s, fs[0].start))
  {
    DerivedKeeps(s, Scanned(s), 0);
  }

  /** The line column is the whole trimmed line. */
  lemma LineColumn(s: seq<char>)
    ensures Column(s, 20) == Text(s)
  {
    DerivedKeeps(s, Scanned(s), 0);
  }

  /** Slots 11..17 of the finished table: the time parts of slot 3 when it is set with at
      least 20 bytes, and whatever the field loop left there otherwise. */
  lemma DerivedTime(s: seq<char>, t0: seq<Slot>, k: nat)
    requires |t0| == TableCols && Sound(s, t0) && 11 <= k <= 17
    ensures var r := Derived(s, t0);
      if t0[3].ptr.At? && t0[3].size >= 20 then r[k] == TimeSlots(t0, t0[3].ptr.off)[k]
      else r[k] == t0[k]
  {
  }

  /** The cells of a table whose slots 11..17 hold the time parts of a timestamp at t. */
  lemma TimeCells(s: seq<char>, tab: seq<Slot>, t: nat)
    requires |tab| == TableCols && Sound(s, tab) && t + 20 <= |s|
    requires tab[11] == Slot(At(t), 2) && tab[12] == Slot(At(t + 3), 3)
    requires tab[13] == Slot(At(t + 3), 3) && tab[14] == Slot(At(t + 7), 4)
    requires tab[15] == Slot(At(t + 12), 2) && tab[16] == Slot(At(t + 15), 2)
    requires tab[17] == Slot(At(t + 18), 2)
    ensures Cell(s, tab, 11) == Int(Atoi(s[t..])) && Cell(s, tab, 12) == Text(s[t + 3..t + 6])
    ensures Cell(s, tab, 13) == MonthValue(s, t + 3) && Cell(s, tab, 14) == Int(Atoi(s[t + 7..]))
    ensures Cell(s, tab, 15) == Int(Atoi(s[t + 12..])) && Cell(s, tab, 16) == Int(Atoi(s[t + 15..]))
    ensures Cell(s, tab, 17) == Int(Atoi(s[t + 18..]))
  {
  }

  /** The time-part cells of a finished table whose slot 3 is set with at least 20 bytes. */
  lemma TimeTable(s: seq<char>, t0: seq<Slot>, t: nat)
    requires |t0| == TableCols && Sound(s, t0) && t0[3].ptr == At(t) && t0[3].size >= 20
    ensures Derived(s, t0)[13].size == 3
    ensures var tab := Derived(s, t0);
      t + 20 <= |s| &&
      Cell(s, tab, 11) == Int(Atoi(s[t..])) && Cell(s, tab, 12) == Text(s[t + 3..t + 6]) &&
      Cell(s, tab, 13) == MonthValue(s, t + 3) && Cell(s, tab, 14) == Int(Atoi(s[t + 7..])) &&
      Cell(s, tab, 15) == Int(Atoi(s[t + 12..])) && Cell(s, tab, 16) == Int(Atoi(s[t + 15..])) &&
      Cell(s, tab, 17) == Int(Atoi(s[t + 18..]))
  {
    DerivedTime(s, t0, 11);
    DerivedTime(s, t0, 12);
    DerivedTime(s, t0, 13);
    DerivedTime(s, t0, 14);
    DerivedTime(s, t0, 15);
    DerivedTime(s, t0, 16);
    DerivedTime(s, t0, 17);
    TimeCells(s, Derived(s, t0), t);
  }

  /** The time-part columns of a line whose timestamp field has at least 20 bytes: day,
      month name, month number, year, hour, minute and second are read at fixed offsets 0,
      3, 3, 7, 12, 15 and 18 of it, with atoi for the numbers. */
  lemma TimeColumns(s: seq<char>)
    requires var fs := Tokenize(s, 0, ScanCols).fields; |fs| > 3 && fs[3].size >= 20
    ensures var t := Tokenize(s, 0, ScanCols).fields[3].start;
      t + 20 <= |s| &&
      Column(s, 11) == Int(Atoi(s[t..])) && Column(s, 12) == Text(s[t + 3..t + 6]) &&
      Column(s, 13) == MonthValue(s, t + 3) && Column(s, 14) == Int(Atoi(s[t + 7..])) &&
      Column(s, 15) == Int(Atoi(s[t + 12..])) && Column(s, 16) == Int(Atoi(s[t + 15..])) &&
      Column(s, 17) == Int(Atoi(s[t + 18..]))
  {
    var t := Tokenize(s, 0, ScanCols).fields[3].start;
    TimeTable(s, Scanned(s), t);
  }

  /** Without a timestamp field of at least 20 bytes the seven time-part columns are NULL. */
  lemma NoTimeColumns(s: seq<char>, k: nat)
    requires var fs := Tokenize(s, 0, ScanCols).fields; |fs| <= 3 || fs[3].size < 20
    requires 11 <= k <= 17
    ensures Column(s, k) == Null
  {
    DerivedTime(s, Scanned(s), k);
  }

  /** The month of the timestamp "04/Nov/2014:00:26:42 -0500". */
  lemma MonthAt(s: seq<char>, t: nat, w: seq<char>)
    requires w == "04/Nov/2014:00:26:42 -0500" && t + |w| <= |s| && s[t..t + |w|] == w
    ensures s[t + 3..t + 6] == "Nov" && MonthValue(s, t + 3) == Int(11)
  {
    WindowSlice(s, t, w, 3, 6);
    assert w[3] == 'N' && w[4] == 'o' && w[5] == 'v';
    NovemberAt(s, t + 3);
  }

  /** The year of the timestamp "04/Nov/2014:00:26:42 -0500". */
  lemma YearAt(s: seq<char>, t: nat, w: seq<char>)
    requires w == "04/Nov/2014:00:26:42 -0500" && t + |w| <= |s| && s[t..t + |w|] == w
    ensures Atoi(s[t + 7..]) == 2014
  {
    WindowSlice(s, t, w, 7, 11);
    WindowBytes(s, t, w);
    assert w[7] == '2' && w[8] == '0' && w[9] == '1' && w[10] == '4' && w[11] == ':';
    Year2014At(s, t + 7);
  }

  /** Day and hour of the timestamp "04/Nov/2014:00:26:42 -0500". */
  lemma DayHourAt(s: seq<char>, t: nat, w: seq<char>)
    requires w == "04/Nov/2014:00:26:42 -0500" && t + |w| <= |s| && s[t..t + |w|] == w
    ensures Atoi(s[t..]) == 4 && Atoi(s[t + 12..]) == 0
  {
    WindowBytes(s, t, w);
    assert w[0] == '0' && w[1] == '4' && w[2] == '/';
    TwoDigitsIn(s, t);
    assert w[12] == '0' && w[13] == '0' && w[14] == ':';
    TwoDigitsIn(s, t + 12);
  }

  /** Minute and second of the timestamp "04/Nov/2014:00:26:42 -0500". */
  lemma MinuteSecondAt(s: seq<char>, t: nat, w: seq<char>)
    requires w == "04/Nov/2014:00:26:42 -0500" && t + |w| <= |s| && s[t..t + |w|] == w
    ensures Atoi(s[t + 15..]) == 26 && Atoi(s[t + 18..]) == 42
  {
    WindowBytes(s, t, w);
    assert w[15] == '2' && w[16] == '6' && w[17] == ':';
    TwoDigitsIn(s, t + 15);
    assert w[18] == '4' && w[19] == '2' && w[20] == ' ';
    TwoDigitsIn(s, t + 18);
  }

  /** The parts of the timestamp "04/Nov/2014:00:26:42 -0500" read at the fixed offsets. */
  lemma TimestampParts(s: seq<char>, t: nat)
    requires t + 26 <= |s| && s[t..t + 26] == "04/Nov/2014:00:26:42 -0500"
    ensures Atoi(s[t..]) == 4 && s[t + 3..t + 6] == "Nov" && MonthValue(s, t + 3) == Int(11)
    ensures Atoi(s[t + 7..]) == 2014 && Atoi(s[t + 12..]) == 0
    ensures Atoi(s[t + 15..]) == 26 && Atoi(s[t + 18..]) == 42
  {
    var w: seq<char> := "04/Nov/2014:00:26:42 -0500";
    DayHourAt(s, t, w);
    MinuteSecondAt(s, t, w);
    MonthAt(s, t, w);
    YearAt(s, t, w);
  }

  /** A line whose timestamp field reads "04/Nov/2014:00:26:42 -0500" gives day 4, month
      "Nov" and 11, year 2014, hour 0, minute 26 and second 42. */
  lemma TimestampColumns(s: seq<char>, t: nat)
    requires var fs := Tokenize(s, 0, ScanCols).fields; |fs| > 3 && fs[3].size >= 20 && fs[3].start == t
    requires t + 26 <= |s| && s[t..t + 26] == "04/Nov/2014:00:26:42 -0500"
    ensures Column(s, 11) == Int(4) && Column(s, 12) == Text("Nov") && Column(s, 13) == Int(11)
    ensures Column(s, 14) == Int(2014) && Column(s, 15) == Int(0)
    ensures Column(s, 16) == Int(26) && Column(s, 17) == Int(42)
  {
    TimeColumns(s);
    TimestampParts(s, t);
  }

  /** Slots 18 and 19 as the request split leaves them, from a table where both are Absent. */
  lemma RequestSplit(s: seq<char>, tab: seq<Slot>)
    requires |tab| == TableCols && Sound(s, tab) && tab[18] == Absent && tab[19] == Absent
    ensures var r := RequestSlots(s, tab);
      if !tab[4].ptr.At? then r[18] == Absent && r[19] == Absent
      else
        var p := tab[4].ptr.off;
        var e := FindOrEnd(s, p, ' ');
        var st := if e < |s| then e + 1 else p;
        var e2 := FindOrEnd(s, st, ' ');
        r[18] == (if e < |s| then Slot(At(p), e - p) else Absent) &&
        r[19] == (if e2 < |s| then Slot(At(st), e2 - st) else Absent)
  {
  }

  /** Slots 18 and 19 of the finished table, from the request slot the field loop left. */
  lemma DerivedRequest(s: seq<char>, t0: seq<Slot>)
    requires |t0| == TableCols && Sound(s, t0) && t0[18] == Absent && t0[19] == Absent
    ensures var r := Derived(s, t0);
      if !t0[4].ptr.At? then r[18] == Absent && r[19] == Absent
      else
        var p := t0[4].ptr.off;
        var e := FindOrEnd(s, p, ' ');
        var st := if e < |s| then e + 1 else p;
        var e2 := FindOrEnd(s, st, ' ');
        r[18] == (if e < |s| then Slot(At(p), e - p) else Absent) &&
        r[19] == (if e2 < |s| then Slot(At(st), e2 - st) else Absent)
  {
    var t1 := t0[10 := t0[0]];
    assert Sound(s, t1);
    var t2 := Timed(s, t1);
    assert t2[4] == t0[4] && t2[18] == Absent && t2[19] == Absent;
    RequestSplit(s, t2);
  }

  /** The request cells of the finished table. */
  lemma RequestCells(s: seq<char>, t0: seq<Slot>, p: nat)
    requires |t0| == TableCols && Sound(s, t0) && t0[18] == Absent && t0[19] == Absent
    requires t0[4].ptr == At(p) && t0[13].size < 0
    ensures p <= |s| &&
      var e := FindOrEnd(s, p, ' ');
      var st := if e < |s| then e + 1 else p;
      var e2 := FindOrEnd(s, st, ' ');
      Cell(s, Derived(s, t0), 18) == (if e < |s| then Text(s[p..e]) else Null) &&
      Cell(s, Derived(s, t0), 19) == (if e2 < |s| then Text(s[st..e2]) else Null)
  {
    DerivedRequest(s, t0);
  }

  /** The slots the field loop leaves Absent: everything past the ten fields. */
  lemma ScannedRest(s: seq<char>)
    ensures forall i :: ScanCols <= i < TableCols ==> Scanned(s)[i] == Absent
  {
  }

  /** The request columns: method is the bytes from the request field's start to the
      first space after it and url the bytes up to the next space, both searched over the
      rest of the line rather than the request field; a column whose space is not found is
      NULL, and when the first search fails the second starts at the request itself. */
  lemma RequestColumns(s: seq<char>, p: nat)
    requires |Tokenize(s, 0, ScanCols).fields| > 4 && Tokenize(s, 0, ScanCols).fields[4].start == p
    ensures p <= |s| &&
      var e := FindOrEnd(s, p, ' ');
      var st := if e < |s| then e + 1 else p;
      var e2 := FindOrEnd(s, st, ' ');
      Column(s, 18) == (if e < |s| then Text(s[p..e]) else Null) &&
      Column(s, 19) == (if e2 < |s| then Text(s[st..e2]) else Null)
  {
    var t0 := Scanned(s);
    ScannedRest(s);
    assert t0[4].ptr == At(p);
    RequestCells(s, t0, p);
    assert Column(s, 18) == Cell(s, Derived(s, t0), 18);
    assert Column(s, 19) == Cell(s, Derived(s, t0), 19);
  }

  /** Without a request field both request columns are NULL. */
  lemma NoRequestColumns(s: seq<char>)
    requires |Tokenize(s, 0, ScanCols).fields| <= 4
    ensures Column(s, 18) == Null && Column(s, 19) == Null
  {
    ScannedRest(s);
    DerivedRequest(s, Scanned(s));
  }

  /** Where the two request searches stop on "-\" " followed by a status and a space. */
  lemma DashSearch(s: seq<char>, p: nat, status: seq<char>)
    requires p + 3 + |status| < |s| && s[p..p + 3] == ['-', '"', ' ']
    requires s[p + 3..p + 3 + |status|] == status && s[p + 3 + |status|] == ' '
    requires forall k :: 0 <= k < |status| ==> status[k] != ' '
    ensures FindOrEnd(s, p, ' ') == p + 2 && s[p..p + 2] == ['-', '"']
    ensures FindOrEnd(s, p + 3, ' ') == p + 3 + |status|
  {
    var e := p + 3 + |status|;
    assert s[p] == '-' && s[p + 1] == '"' && s[p + 2] == ' ' by {
      assert s[p..p + 3][0] == s[p] && s[p..p + 3][1] == s[p + 1] && s[p..p + 3][2] == s[p + 2];
    }
    FindOrEndAt(s, p, ' ', p + 2);
    forall k | p + 3 <= k < e
      ensures s[k] != ' '
    {
      assert s[p + 3..e][k - p - 3] == s[k];
    }
    FindOrEndAt(s, p + 3, ' ', e);
  }

  /** The request "-" of a malformed hit: method takes the closing quote along ("-\"")
      and url is the status code that follows. */
  lemma DashRequest(s: seq<char>, p: nat, status: seq<char>)
    requires |Tokenize(s, 0, ScanCols).fields| > 4 && Tokenize(s, 0, ScanCols).fields[4].start == p
    requires p + 3 + |status| < |s| && s[p..p + 3] == ['-', '"', ' ']
    requires s[p + 3..p + 3 + |status|] == status && s[p + 3 + |status|] == ' '
    requires forall k :: 0 <= k < |status| ==> status[k] != ' '
    ensures Column(s, 18) == Text(['-', '"']) && Column(s, 19) == Text(status)
  {
    DashSearch(s, p, status);
    RequestColumns(s, p);
  }

  /** A "-" in the bytes field (nothing was sent) reads as 0, not NULL. */
  lemma DashBytes(s: seq<char>, p: nat)
    requires |Tokenize(s, 0, ScanCols).fields| > 6 && Tokenize(s, 0, ScanCols).fields[6].start == p
    requires p < |s| && s[p] == '-' && (p + 1 == |s| || !IsDigit(s[p + 1]))
    ensures Column(s, 6) == Int(0)
  {
    ScannedColumn(s, 6);
    assert s[p..][0] == '-' && (|s[p..]| == 1 || s[p..][1] == s[p + 1]);
    AtoiOfNonNumeric(s[p..]);
  }
}
