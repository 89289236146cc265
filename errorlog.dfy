/**
  The error_log table: the slot table error_log_scanline builds from one trimmed
  line of Apache's error log ("[date] [level] [client host] message"), and the
  value error_log_column hands to SQLite for each of the 15 columns.
 */
module ErrorLog {
  import opened Maybe
  import opened CString
  import opened FieldScan

  /** TABLE_COLS_SCAN: the bracketed fields read directly from the line. */
  const ScanCols: nat := 3
  /** TABLE_COLS: the scanned fields plus the message and the computed columns. */
  const TableCols: nat := 15

  /** Whether the third field names a client ("client" at its start, compared over six
      bytes that may run past the field). */
  predicate IsClient(s: seq<char>, p: nat)
  {
    HasPrefixAt(s, p, "client")
  }

  /**
    The lines the scanner is defined on: it reads the third field's pointer without a
    NULL check, sets the message one byte past where the field loop stopped, and subtracts
    the ']' search result from the ' ' one without checking it for NULL. When the loop
    reached the end of the line, the message starts past the line's NUL, in bytes of the
    buffer that the line does not hold (a NUL after a trimmed CR or LF, otherwise stale
    bytes or the end of the buffer), so such lines are left out.
   */
  predicate Defined(s: seq<char>)
  {
    var sc := Tokenize(s, 0, ScanCols);
    |sc.fields| == ScanCols && sc.stop < |s| &&
    var p := sc.fields[2].start;
    (p <= |s| && IsClient(s, p) && Strchr(s, p, ' ').Some? ==> Strchr(s, p, ']').Some?)
  }

  /** Slot i points into the line; unless it is the year (which may run past the line)
      or the epoch (which has no pointer) it is NULL-sized or readable; only the third may
      hold the static empty string. */
  predicate SlotOk(s: seq<char>, sl: Slot, i: int)
  {
    (sl.ptr.At? ==> sl.ptr.off <= |s|) &&
    (i != 9 && i != 13 ==> Readable(s, sl)) &&
    (i != 2 && i != 13 && sl.size >= 0 ==> sl.ptr.At?)
  }

  /** Every slot of the table is as SlotOk says. */
  predicate Sound(s: seq<char>, tab: seq<Slot>)
  {
    forall i {:trigger SlotOk(s, tab[i], i)} :: 0 <= i < |tab| ==> SlotOk(s, tab[i], i)
  }

  /** What error_log_column relies on: a sound table of 15 slots whose month slot, when
      set, has three bytes and whose first slot points into the line. */
  predicate Table(s: seq<char>, tab: seq<Slot>)
  {
    |tab| == TableCols && Sound(s, tab) && (tab[8].size < 0 || tab[8].size == 3) && tab[0].ptr.At?
  }

  /** The third field's slot: the field itself when it names a client, else the static
      empty string. */
  function ClientSlot(s: seq<char>, f: Field): Slot
    requires f.start <= |s|
  {
    if IsClient(s, f.start) then FieldSlot(f) else Slot(EmptyLiteral, 0)
  }

  /** remote_host: from just past the first space after the client field's start to just
      before the first ']' after it, both searched over the rest of the line; nothing
      when the field is the empty string or no space follows. */
  function HostSlot(s: seq<char>, p: nat): (sl: Slot)
    requires p <= |s|
    requires IsClient(s, p) && Strchr(s, p, ' ').Some? ==> Strchr(s, p, ']').Some?
  {
    if !IsClient(s, p) then Absent
    else match Strchr(s, p, ' ')
      case None => Absent
      case Some(sp) => Slot(At(sp + 1), Strchr(s, p, ']').value - sp - 1)
  }

  /** Offset and width of the time part in slot k (6..12) of "Www Mmm DD HH:MM:SS YYYY":
      day, month name, month, year, hour, minute, second. */
  function TimeOffset(k: nat): nat
    requires 6 <= k <= 12
  {
    [8, 4, 4, 20, 11, 14, 17][k - 6]
  }

  function TimeWidth(k: nat): nat
    requires 6 <= k <= 12
  {
    [2, 3, 3, 4, 2, 2, 2][k - 6]
  }

  /** Time part k, set only from a first field of at least 20 bytes. */
  function TimeSlot(f: Field, k: nat): Slot
    requires 6 <= k <= 12
  {
    if f.size >= 20 then Slot(At(f.start + TimeOffset(k)), TimeWidth(k)) else Absent
  }

  /** A field loop's result as the rest of the scan needs it: three fields, each running
      to its closer or the end of the line, a stop before the end of the line, and a ']'
      after a client field in which a space follows. */
  predicate Fits(s: seq<char>, sc: Scan)
  {
    |sc.fields| == ScanCols && sc.stop < |s| &&
    Delimited(s, sc.fields[0]) && Delimited(s, sc.fields[1]) && Delimited(s, sc.fields[2]) &&
    var p := sc.fields[2].start;
    (IsClient(s, p) && Strchr(s, p, ' ').Some? ==> Strchr(s, p, ']').Some?)
  }

  /** On a line the scan is defined on, the field loop's result fits. */
  lemma ScanFits(s: seq<char>)
    requires Defined(s)
    ensures Fits(s, Tokenize(s, 0, ScanCols))
  {
    TokenizeDelimited(s, 0, ScanCols, 0);
    TokenizeDelimited(s, 0, ScanCols, 1);
    TokenizeDelimited(s, 0, ScanCols, 2);
  }

  /** The slot table error_log_scanline builds from the field loop's result sc: the three
      fields (the third replaced by the empty string when it is not a client), the message
      from one byte past where the field loop stopped, remote_host and its copy, the time
      parts, the epoch's size 2 and the whole line. */
  function SlotsOf(s: seq<char>, sc: Scan): (r: seq<Slot>)
    requires Fits(s, sc)
    ensures Table(s, r)
  {
    var fs := sc.fields;
    SlotsSound(s, sc);
    [FieldSlot(fs[0]), FieldSlot(fs[1]), ClientSlot(s, fs[2]),
     Slot(At(sc.stop + 1), |s| - sc.stop - 1), HostSlot(s, fs[2].start), HostSlot(s, fs[2].start),
     TimeSlot(fs[0], 6), TimeSlot(fs[0], 7), TimeSlot(fs[0], 8), TimeSlot(fs[0], 9),
     TimeSlot(fs[0], 10), TimeSlot(fs[0], 11), TimeSlot(fs[0], 12),
     Slot(NoPtr, 2), Slot(At(0), |s|)]
  }

  /** Each slot the scan sets satisfies SlotOk. */
  lemma SlotsSound(s: seq<char>, sc: Scan)
    requires Fits(s, sc)
    ensures var fs := sc.fields;
      SlotOk(s, FieldSlot(fs[0]), 0) && SlotOk(s, FieldSlot(fs[1]), 1) &&
      SlotOk(s, ClientSlot(s, fs[2]), 2) &&
      SlotOk(s, Slot(At(sc.stop + 1), |s| - sc.stop - 1), 3) &&
      SlotOk(s, HostSlot(s, fs[2].start), 4) && SlotOk(s, HostSlot(s, fs[2].start), 5) &&
      (forall k :: 6 <= k <= 12 ==> SlotOk(s, TimeSlot(fs[0], k), k)) &&
      SlotOk(s, Slot(NoPtr, 2), 13) && SlotOk(s, Slot(At(0), |s|), 14)
  {
    var fs := sc.fields;
    DelimitedBytes(s, fs[0]);
    DelimitedBytes(s, fs[1]);
    DelimitedBytes(s, fs[2]);
  }

  /** The slot table after error_log_scanline. */
  function Slots(s: seq<char>): (r: seq<Slot>)
    requires Defined(s)
    ensures Table(s, r)
  {
    ScanFits(s);
    SlotsOf(s, Tokenize(s, 0, ScanCols))
  }

  /** The text strptime sees for the epoch: the 24 bytes copied from the first field's
      start, cut short by the line's terminator. */
  function StampText(s: seq<char>, p: nat): (ts: seq<char>)
    requires p <= |s|
    ensures |ts| <= 24
  {
    if p + 24 <= |s| then s[p..p + 24] else s[p..]
  }

  /** time_epoch: what parsing the stamp text gives, or -1 when it does not parse. */
  function Epoch(s: seq<char>, p: nat, parseTime: seq<char> -> Option<int>): int
    requires p <= |s|
  {
    match parseTime(StampText(s, p))
    case Some(t) => t
    case None => -1
  }

  /** error_log_column: NULL for a slot whose size is negative; the reversed-octet integer
      for the remote_host copy (5); the month number, or the three bytes when the name is
      not known, for month (8); atoi for the numeric time parts; the epoch for 13; the
      slot's bytes otherwise. */
  function Cell(s: seq<char>, tab: seq<Slot>, cidx: nat, parseTime: seq<char> -> Option<int>): (v: Value)
    requires Table(s, tab) && cidx < TableCols
    ensures v.Null? <==> tab[cidx].size < 0
    ensures v.Text? ==> |v.t| == tab[cidx].size
  {
    var sl := tab[cidx];
    assert SlotOk(s, sl, cidx) && SlotOk(s, tab[0], 0);
    if sl.size < 0 then Null
    else if cidx == 5 then Int(IpValue(s, sl.ptr.off))
    else if cidx == 8 then MonthValue(s, sl.ptr.off)
    else if cidx in {6, 9, 10, 11, 12} then Int(Atoi(s[sl.ptr.off..]))
    else if cidx == 13 then Int(Epoch(s, tab[0].ptr.off, parseTime))
    else Text(SlotText(s, sl))
  }

  /** The value of column cidx for the line s. */
  function Column(s: seq<char>, cidx: nat, parseTime: seq<char> -> Option<int>): (v: Value)
    requires Defined(s) && cidx < TableCols
    ensures v.Null? <==> Slots(s)[cidx].size < 0
  {
    Cell(s, Slots(s), cidx, parseTime)
  }

  /** The table of a line is the one built from its field loop's result. */
  lemma SlotsScan(s: seq<char>)
    requires Defined(s)
    ensures Fits(s, Tokenize(s, 0, ScanCols)) && Slots(s) == SlotsOf(s, Tokenize(s, 0, ScanCols))
  {
    ScanFits(s);
  }

  /** Column cidx of a line is the cell of the table built from its field loop's result. */
  lemma ColumnScan(s: seq<char>, cidx: nat, parseTime: seq<char> -> Option<int>)
    requires Defined(s) && cidx < TableCols
    ensures Fits(s, Tokenize(s, 0, ScanCols))
    ensures Column(s, cidx, parseTime) == Cell(s, SlotsOf(s, Tokenize(s, 0, ScanCols)), cidx, parseTime)
  {
    ScanFits(s);
  }

  /** The fixed slots of the table: the first two fields, the third or the static empty
      string, the message, the epoch's size and the whole line. */
  lemma FixedSlotsOf(s: seq<char>, sc: Scan)
    requires Fits(s, sc)
    ensures var r := SlotsOf(s, sc);
      r[0] == FieldSlot(sc.fields[0]) && r[1] == FieldSlot(sc.fields[1]) &&
      r[2] == ClientSlot(s, sc.fields[2]) && r[3] == Slot(At(sc.stop + 1), |s| - sc.stop - 1) &&
      r[13] == Slot(NoPtr, 2) && r[14] == Slot(At(0), |s|)
  {
  }

  /** remote_host and its copy share one slot. */
  lemma HostSlotsOf(s: seq<char>, sc: Scan)
    requires Fits(s, sc)
    ensures SlotsOf(s, sc)[4] == HostSlot(s, sc.fields[2].start)
    ensures SlotsOf(s, sc)[5] == HostSlot(s, sc.fields[2].start)
  {
  }

  /** The time-part slots of the table: those of TimeSlot. */
  lemma TimeSlotsOf(s: seq<char>, sc: Scan, k: nat)
    requires Fits(s, sc) && 6 <= k <= 12
    ensures SlotsOf(s, sc)[k] == TimeSlot(sc.fields[0], k)
  {
  }

  /** A field's slot holds the field's bytes. */
  lemma FieldSlotText(s: seq<char>, f: Field)
    requires Delimited(s, f)
    ensures f.start + f.size <= |s| && SlotText(s, FieldSlot(f)) == FieldText(s, f)
  {
    DelimitedBytes(s, f);
  }

  /** A slot that runs from o to the end of the line holds the line's suffix from o. */
  lemma SuffixText(s: seq<char>, o: nat)
    requires o <= |s|
    ensures SlotText(s, Slot(At(o), |s| - o)) == s[o..]
  {
  }

  /** A column that is neither converted nor computed hands back its slot's bytes. */
  lemma TextCell(s: seq<char>, tab: seq<Slot>, k: nat, parseTime: seq<char> -> Option<int>)
    requires Table(s, tab) && k in {0, 1, 2, 3, 4, 7, 14} && tab[k].size >= 0
    ensures SlotOk(s, tab[k], k) && Cell(s, tab, k, parseTime) == Text(SlotText(s, tab[k]))
  {
  }

  /** The day, year, hour, minute and second cells read their slot's start with atoi. */
  lemma AtoiCell(s: seq<char>, tab: seq<Slot>, k: nat, parseTime: seq<char> -> Option<int>)
    requires Table(s, tab) && k in {6, 9, 10, 11, 12} && tab[k].size >= 0
    ensures SlotOk(s, tab[k], k) && tab[k].ptr.At?
    ensures Cell(s, tab, k, parseTime) == Int(Atoi(s[tab[k].ptr.off..]))
  {
  }

  /** The month cell: the month's number, or its three bytes when the name is unknown. */
  lemma MonthCell(s: seq<char>, tab: seq<Slot>, parseTime: seq<char> -> Option<int>)
    requires Table(s, tab) && tab[8].size >= 0
    ensures SlotOk(s, tab[8], 8) && tab[8].ptr.At? && tab[8].ptr.off + 3 <= |s|
    ensures Cell(s, tab, 8, parseTime) == MonthValue(s, tab[8].ptr.off)
  {
  }

  /** The remote_host_int cell: the reversed-octet integer from its slot's start. */
  lemma IpCell(s: seq<char>, tab: seq<Slot>, parseTime: seq<char> -> Option<int>)
    requires Table(s, tab) && tab[5].size >= 0
    ensures SlotOk(s, tab[5], 5) && tab[5].ptr.At?
    ensures Cell(s, tab, 5, parseTime) == Int(IpValue(s, tab[5].ptr.off))
  {
  }

  /** The epoch cell: the epoch of the stamp at the first slot. */
  lemma EpochCell(s: seq<char>, tab: seq<Slot>, parseTime: seq<char> -> Option<int>)
    requires Table(s, tab) && tab[13] == Slot(NoPtr, 2)
    ensures SlotOk(s, tab[0], 0)
    ensures Cell(s, tab, 13, parseTime) == Int(Epoch(s, tab[0].ptr.off, parseTime))
  {
  }

  /** The time and log_level cells hold the bytes of the first two fields. */
  lemma LeadCell(s: seq<char>, sc: Scan, i: nat, parseTime: seq<char> -> Option<int>)
    requires Fits(s, sc) && i < 2
    ensures Delimited(s, sc.fields[i]) && sc.fields[i].start + sc.fields[i].size <= |s|
    ensures Cell(s, SlotsOf(s, sc), i, parseTime) == Text(FieldText(s, sc.fields[i]))
  {
    FixedSlotsOf(s, sc);
    FieldSlotText(s, sc.fields[i]);
    TextCell(s, SlotsOf(s, sc), i, parseTime);
  }

  /** The client cell holds the third field's bytes when it names a client, else nothing. */
  lemma ClientCell(s: seq<char>, sc: Scan, parseTime: seq<char> -> Option<int>)
    requires Fits(s, sc)
    ensures sc.fields[2].start + sc.fields[2].size <= |s|
    ensures Cell(s, SlotsOf(s, sc), 2, parseTime) ==
      if IsClient(s, sc.fields[2].start) then Text(FieldText(s, sc.fields[2])) else Text([])
  {
    FixedSlotsOf(s, sc);
    FieldSlotText(s, sc.fields[2]);
    TextCell(s, SlotsOf(s, sc), 2, parseTime);
  }

  /** The message cell runs from one byte past the field loop's stop to the end. */
  lemma MessageCell(s: seq<char>, sc: Scan, parseTime: seq<char> -> Option<int>)
    requires Fits(s, sc)
    ensures Cell(s, SlotsOf(s, sc), 3, parseTime) == Text(s[sc.stop + 1..])
  {
    FixedSlotsOf(s, sc);
    TextCell(s, SlotsOf(s, sc), 3, parseTime);
    SuffixText(s, sc.stop + 1);
  }

  /** The line cell is the whole line. */
  lemma LineCell(s: seq<char>, sc: Scan, parseTime: seq<char> -> Option<int>)
    requires Fits(s, sc)
    ensures Cell(s, SlotsOf(s, sc), 14, parseTime) == Text(s)
  {
    FixedSlotsOf(s, sc);
    TextCell(s, SlotsOf(s, sc), 14, parseTime);
    SuffixText(s, 0);
  }

  /** The epoch cell is the epoch of the stamp at the first field's start. */
  lemma StampCell(s: seq<char>, sc: Scan, parseTime: seq<char> -> Option<int>)
    requires Fits(s, sc)
    ensures sc.fields[0].start <= |s|
    ensures Cell(s, SlotsOf(s, sc), 13, parseTime) == Int(Epoch(s, sc.fields[0].start, parseTime))
  {
    FixedSlotsOf(s, sc);
    EpochCell(s, SlotsOf(s, sc), parseTime);
  }

  /** The time and log_level columns are the bytes of the first two fields; each field
      runs to its closer or the end of the line. */
  lemma LeadColumn(s: seq<char>, sc: Scan, i: nat, parseTime: seq<char> -> Option<int>)
    requires Defined(s) && sc == Tokenize(s, 0, ScanCols) && i < 2
    ensures Delimited(s, sc.fields[i]) && sc.fields[i].start + sc.fields[i].size <= |s|
    ensures Column(s, i, parseTime) == Text(FieldText(s, sc.fields[i]))
  {
    ColumnScan(s, i, parseTime);
    LeadCell(s, sc, i, parseTime);
  }

  /** The client column: the third field when it names a client, the empty string
      otherwise. */
  lemma ClientColumn(s: seq<char>, sc: Scan, parseTime: seq<char> -> Option<int>)
    requires Defined(s) && sc == Tokenize(s, 0, ScanCols)
    ensures Delimited(s, sc.fields[2]) && sc.fields[2].start + sc.fields[2].size <= |s|
    ensures Column(s, 2, parseTime) ==
      if IsClient(s, sc.fields[2].start) then Text(FieldText(s, sc.fields[2])) else Text([])
  {
    ColumnScan(s, 2, parseTime);
    ClientCell(s, sc, parseTime);
  }

  /** The message column: everything from one byte past where the field loop stopped to
      the end of the line. */
  lemma MessageColumn(s: seq<char>, sc: Scan, parseTime: seq<char> -> Option<int>)
    requires Defined(s) && sc == Tokenize(s, 0, ScanCols)
    ensures sc.stop < |s| && Column(s, 3, parseTime) == Text(s[sc.stop + 1..])
  {
    ColumnScan(s, 3, parseTime);
    MessageCell(s, sc, parseTime);
  }

  /** The line column is the whole trimmed line. */
  lemma LineColumn(s: seq<char>, parseTime: seq<char> -> Option<int>)
    requires Defined(s)
    ensures Column(s, 14, parseTime) == Text(s)
  {
    ColumnScan(s, 14, parseTime);
    LineCell(s, Tokenize(s, 0, ScanCols), parseTime);
  }

  /** The epoch column is never NULL: strptime's result over the 24 bytes from the first
      field's start (fewer when the line ends sooner), or -1 when they do not parse. */
  lemma EpochColumn(s: seq<char>, sc: Scan, parseTime: seq<char> -> Option<int>)
    requires Defined(s) && sc == Tokenize(s, 0, ScanCols)
    ensures sc.fields[0].start <= |s|
    ensures Column(s, 13, parseTime) == Int(Epoch(s, sc.fields[0].start, parseTime))
  {
    ColumnScan(s, 13, parseTime);
    StampCell(s, sc, parseTime);
  }

  /** A slot from a to b holds the line's bytes from a to b. */
  lemma SliceText(s: seq<char>, a: nat, b: nat)
    requires a <= b <= |s|
    ensures SlotText(s, Slot(At(a), b - a)) == s[a..b]
  {
  }

  /** The host slot of a client field followed by a space (at sp), with ']' further on (at br). */
  lemma ClientHostSlot(s: seq<char>, p: nat, sp: nat, br: nat)
    requires p <= |s| && IsClient(s, p) && sp == FindOrEnd(s, p, ' ') && br == FindOrEnd(s, p, ']')
    requires sp < br < |s|
    ensures HostSlot(s, p) == Slot(At(sp + 1), br - (sp + 1))
  {
  }

  /** The host slot is absent or of negative size in every other case. */
  lemma NoHostSlot(s: seq<char>, p: nat)
    requires p <= |s| && (IsClient(s, p) && Strchr(s, p, ' ').Some? ==> Strchr(s, p, ']').Some?)
    requires !IsClient(s, p) || FindOrEnd(s, p, ' ') == |s| || FindOrEnd(s, p, ']') <= FindOrEnd(s, p, ' ')
    ensures HostSlot(s, p).size < 0
  {
  }

  /** A text cell whose slot starts at a and ends at b holds the bytes from a to b. */
  lemma SliceCell(s: seq<char>, tab: seq<Slot>, k: nat, a: nat, b: nat, parseTime: seq<char> -> Option<int>)
    requires Table(s, tab) && k in {0, 1, 2, 3, 4, 7, 14} && a <= b <= |s| && tab[k] == Slot(At(a), b - a)
    ensures Cell(s, tab, k, parseTime) == Text(s[a..b])
  {
    TextCell(s, tab, k, parseTime);
    SliceText(s, a, b);
  }

  /** The two host slots of a client field followed by a space (sp), with ']' further on (br). */
  lemma ClientHostSlotsOf(s: seq<char>, sc: Scan, sp: nat, br: nat)
    requires Fits(s, sc) && IsClient(s, sc.fields[2].start)
    requires sp == FindOrEnd(s, sc.fields[2].start, ' ') && br == FindOrEnd(s, sc.fields[2].start, ']')
    requires sp < br < |s|
    ensures SlotsOf(s, sc)[4] == Slot(At(sp + 1), br - (sp + 1))
    ensures SlotsOf(s, sc)[5] == Slot(At(sp + 1), br - (sp + 1))
  {
    HostSlotsOf(s, sc);
    ClientHostSlot(s, sc.fields[2].start, sp, br);
  }

  /** remote_host and remote_host_int are NULL when the third field is not a client, when
      no space follows it, or when the first ']' comes before the first space. */
  lemma NoHostCell(s: seq<char>, sc: Scan, k: nat, parseTime: seq<char> -> Option<int>)
    requires Fits(s, sc) && (k == 4 || k == 5)
    requires !IsClient(s, sc.fields[2].start) || FindOrEnd(s, sc.fields[2].start, ' ') == |s| ||
      FindOrEnd(s, sc.fields[2].start, ']') <= FindOrEnd(s, sc.fields[2].start, ' ')
    ensures Cell(s, SlotsOf(s, sc), k, parseTime) == Null
  {
    HostSlotsOf(s, sc);
    NoHostSlot(s, sc.fields[2].start);
  }

  /** The time-part slots of a first field of at least 20 bytes sit at their fixed offsets
      into it. */
  lemma TimeSlotAt(s: seq<char>, sc: Scan, k: nat)
    requires Fits(s, sc) && 6 <= k <= 12 && sc.fields[0].size >= 20
    ensures sc.fields[0].start + 20 <= |s|
    ensures SlotsOf(s, sc)[k] == Slot(At(sc.fields[0].start + TimeOffset(k)), TimeWidth(k))
  {
    DelimitedBytes(s, sc.fields[0]);
    TimeSlotsOf(s, sc, k);
  }

  /** A month cell whose slot holds three bytes at o converts them. */
  lemma MonthCellAt(s: seq<char>, tab: seq<Slot>, o: nat, parseTime: seq<char> -> Option<int>)
    requires Table(s, tab) && tab[8] == Slot(At(o), 3)
    ensures o + 3 <= |s| && Cell(s, tab, 8, parseTime) == MonthValue(s, o)
  {
    MonthCell(s, tab, parseTime);
  }

  /** The day, year, hour, minute and second cells of a first field of at least 20 bytes
      read atoi at their fixed offsets into it. */
  lemma TimePartCell(s: seq<char>, sc: Scan, k: nat, parseTime: seq<char> -> Option<int>)
    requires Fits(s, sc) && k in {6, 9, 10, 11, 12} && sc.fields[0].size >= 20
    ensures sc.fields[0].start + TimeOffset(k) <= |s|
    ensures Cell(s, SlotsOf(s, sc), k, parseTime) ==
      Int(Atoi(s[sc.fields[0].start + TimeOffset(k)..]))
  {
    TimeSlotAt(s, sc, k);
    AtoiCell(s, SlotsOf(s, sc), k, parseTime);
  }

  /** The month-name cell holds the three bytes at offset 4 of the first field. */
  lemma MonthNameCell(s: seq<char>, sc: Scan, parseTime: seq<char> -> Option<int>)
    requires Fits(s, sc) && sc.fields[0].size >= 20
    ensures sc.fields[0].start + 7 <= |s|
    ensures Cell(s, SlotsOf(s, sc), 7, parseTime) ==
      Text(s[sc.fields[0].start + 4..sc.fields[0].start + 7])
  {
    TimeSlotAt(s, sc, 7);
    SliceCell(s, SlotsOf(s, sc), 7, sc.fields[0].start + 4, sc.fields[0].start + 7, parseTime);
  }

  /** The month cell converts the same three bytes. */
  lemma MonthNumberCell(s: seq<char>, sc: Scan, parseTime: seq<char> -> Option<int>)
    requires Fits(s, sc) && sc.fields[0].size >= 20
    ensures sc.fields[0].start + 7 <= |s|
    ensures Cell(s, SlotsOf(s, sc), 8, parseTime) == MonthValue(s, sc.fields[0].start + 4)
  {
    TimeSlotAt(s, sc, 8);
    MonthCellAt(s, SlotsOf(s, sc), sc.fields[0].start + 4, parseTime);
  }

  /** Without a first field of at least 20 bytes the time parts are NULL. */
  lemma NoTimeCell(s: seq<char>, sc: Scan, k: nat, parseTime: seq<char> -> Option<int>)
    requires Fits(s, sc) && 6 <= k <= 12 && sc.fields[0].size < 20
    ensures Cell(s, SlotsOf(s, sc), k, parseTime) == Null
  {
    TimeSlotsOf(s, sc, k);
  }

  /** The host slots of a line whose client field is followed by a space (sp), with ']'
      further on (br). */
  lemma ClientHostSlots(s: seq<char>, sc: Scan, sp: nat, br: nat)
    requires Defined(s) && sc == Tokenize(s, 0, ScanCols) && IsClient(s, sc.fields[2].start)
    requires Strchr(s, sc.fields[2].start, ' ') == Some(sp) && Strchr(s, sc.fields[2].start, ']') == Some(br)
    requires sp < br
    ensures br < |s|
    ensures Slots(s)[4] == Slot(At(sp + 1), br - (sp + 1)) && Slots(s)[5] == Slot(At(sp + 1), br - (sp + 1))
  {
    SlotsScan(s);
    ClientHostSlotsOf(s, sc, sp, br);
  }

  /** The host columns of a line whose host slots run from a to b: the bytes from a to b,
      and their reversed-octet conversion. */
  lemma HostColumnsAt(s: seq<char>, a: nat, b: nat, parseTime: seq<char> -> Option<int>)
    requires Defined(s) && a <= b <= |s|
    requires Slots(s)[4] == Slot(At(a), b - a) && Slots(s)[5] == Slot(At(a), b - a)
    ensures Column(s, 4, parseTime) == Text(s[a..b])
    ensures Column(s, 5, parseTime) == Int(IpValue(s, a))
  {
    SliceCell(s, Slots(s), 4, a, b, parseTime);
    IpCell(s, Slots(s), parseTime);
  }

  /** remote_host is the text strictly between the first space (sp) and the first ']' (br)
      after the client field's start, both searched over the rest of the line, and
      remote_host_int converts the same host from just past that space. */
  lemma RemoteHostColumns(s: seq<char>, sc: Scan, sp: nat, br: nat, parseTime: seq<char> -> Option<int>)
    requires Defined(s) && sc == Tokenize(s, 0, ScanCols) && IsClient(s, sc.fields[2].start)
    requires Strchr(s, sc.fields[2].start, ' ') == Some(sp) && Strchr(s, sc.fields[2].start, ']') == Some(br)
    requires sp < br
    ensures Column(s, 4, parseTime) == Text(s[sp + 1..br])
    ensures Column(s, 5, parseTime) == Int(IpValue(s, sp + 1))
  {
    ClientHostSlots(s, sc, sp, br);
    HostColumnsAt(s, sp + 1, br, parseTime);
  }

  /** Both host columns are NULL when the third field is not a client, when no space
      follows it, or when the first ']' comes before the first space. */
  lemma NoHostColumn(s: seq<char>, sc: Scan, k: nat, parseTime: seq<char> -> Option<int>)
    requires Defined(s) && sc == Tokenize(s, 0, ScanCols) && (k == 4 || k == 5)
    requires !IsClient(s, sc.fields[2].start) || FindOrEnd(s, sc.fields[2].start, ' ') == |s| ||
      FindOrEnd(s, sc.fields[2].start, ']') <= FindOrEnd(s, sc.fields[2].start, ' ')
    ensures Column(s, k, parseTime) == Null
  {
    ColumnScan(s, k, parseTime);
    NoHostCell(s, sc, k, parseTime);
  }

  /** The day, year, hour, minute and second columns of a line whose first field has at
      least 20 bytes: atoi at offsets 8, 20, 11, 14 and 17 of the field. */
  lemma TimePartColumn(s: seq<char>, sc: Scan, k: nat, parseTime: seq<char> -> Option<int>)
    requires Defined(s) && sc == Tokenize(s, 0, ScanCols)
    requires k in {6, 9, 10, 11, 12} && sc.fields[0].size >= 20
    ensures sc.fields[0].start + TimeOffset(k) <= |s|
    ensures Column(s, k, parseTime) == Int(Atoi(s[sc.fields[0].start + TimeOffset(k)..]))
  {
    ColumnScan(s, k, parseTime);
    TimePartCell(s, sc, k, parseTime);
  }

  /** The month columns of such a line: the three bytes at offset 4, as text and as the
      month's number (the text when the name is unknown). */
  lemma MonthColumns(s: seq<char>, sc: Scan, parseTime: seq<char> -> Option<int>)
    requires Defined(s) && sc == Tokenize(s, 0, ScanCols) && sc.fields[0].size >= 20
    ensures sc.fields[0].start + 7 <= |s|
    ensures Column(s, 7, parseTime) == Text(s[sc.fields[0].start + 4..sc.fields[0].start + 7])
    ensures Column(s, 8, parseTime) == MonthValue(s, sc.fields[0].start + 4)
  {
    ColumnScan(s, 7, parseTime);
    ColumnScan(s, 8, parseTime);
    MonthNameCell(s, sc, parseTime);
    MonthNumberCell(s, sc, parseTime);
  }

  /** Without a first field of at least 20 bytes the seven time-part columns are NULL. */
  lemma NoTimeColumn(s: seq<char>, sc: Scan, k: nat, parseTime: seq<char> -> Option<int>)
    requires Defined(s) && sc == Tokenize(s, 0, ScanCols) && 6 <= k <= 12
    requires sc.fields[0].size < 20
    ensures Column(s, k, parseTime) == Null
  {
    ColumnScan(s, k, parseTime);
    NoTimeCell(s, sc, k, parseTime);
  }

  /** Where a search starting at t stops, read off a known window of the line. */
  lemma FindInWindow(s: seq<char>, t: nat, w: seq<char>, c: char, e: nat)
    requires t + |w| <= |s| && s[t..t + |w|] == w && e < |w| && FindOrEnd(w, 0, c) == e
    ensures FindOrEnd(s, t, c) == t + e
  {
    FindOrEndSkips(w, 0, c);
    WindowBytes(s, t, w);
    forall i | t <= i < t + e
      ensures s[i] != c
    {
      assert s[t + (i - t)] == w[i - t];
    }
    FindOrEndAt(s, t, c, t + e);
  }

  /** atoi at o reads n when the numeral t of n is there, followed by a non-digit. */
  lemma NumberAt(s: seq<char>, o: nat, n: nat, t: seq<char>)
    requires t == NatText(n) && o + |t| < |s| && s[o..o + |t|] == t && !IsDigit(s[o + |t|])
    ensures Atoi(s[o..]) == n
  {
    assert s[o..] == t + s[o + |t|..];
    AtoiOfNatText(n, s[o + |t|..]);
  }

  /** A search from offset i of a known window, read off the rest of the window. */
  lemma FindInWindowFrom(s: seq<char>, h: nat, v: seq<char>, i: nat, c: char, e: nat)
    requires h + |v| <= |s| && s[h..h + |v|] == v && i <= |v|
    requires e < |v| - i && FindOrEnd(v[i..], 0, c) == e
    ensures FindOrEnd(s, h + i, c) == h + i + e
  {
    WindowSlice(s, h, v, i, |v|);
    FindInWindow(s, h + i, v[i..], c, e);
  }

  /** Where the '.' searches stop in the host "208.65.89.219" followed by ']'. */
  lemma ExampleHostDots(s: seq<char>, h: nat)
    requires h + 14 <= |s| && s[h..h + 14] == "208.65.89.219]"
    ensures NextOctet(s, h) == h + 4 && NextOctet(s, h + 4) == h + 7 && NextOctet(s, h + 7) == h + 10
  {
    var v: seq<char> := "208.65.89.219]";
    assert FindOrEnd(v, 0, '.') == 3;
    FindInWindow(s, h, v, '.', 3);
    var u: seq<char> := "65.89.219]";
    assert v[4..] == u && FindOrEnd(u, 0, '.') == 2;
    FindInWindowFrom(s, h, v, 4, '.', 2);
    var x: seq<char> := "89.219]";
    assert v[7..] == x && FindOrEnd(x, 0, '.') == 2;
    FindInWindowFrom(s, h, v, 7, '.', 2);
  }

  /** atoi at offset i of a known window reads n when the numeral t of n is there,
      followed by a non-digit. */
  lemma NumberInWindow(s: seq<char>, h: nat, v: seq<char>, i: nat, n: nat, t: seq<char>)
    requires h + |v| <= |s| && s[h..h + |v|] == v && i + |t| < |v|
    requires t == NatText(n) && v[i..i + |t|] == t && !IsDigit(v[i + |t|])
    ensures Atoi(s[h + i..]) == n
  {
    WindowSlice(s, h, v, i, i + |t|);
    assert s[h..h + |v|][i + |t|] == s[h + i + |t|];
    NumberAt(s, h + i, n, t);
  }

  /** What atoi reads at the first two octet pointers of that host. */
  lemma ExampleLowOctets(s: seq<char>, h: nat)
    requires h + 14 <= |s| && s[h..h + 14] == "208.65.89.219]"
    ensures Atoi(s[h..]) == 208 && Atoi(s[h + 4..]) == 65
  {
    var v: seq<char> := "208.65.89.219]";
    assert v[0..3] == "208" && NatText(208) == "208" && v[3] == '.';
    NumberInWindow(s, h, v, 0, 208, "208");
    assert v[4..6] == "65" && NatText(65) == "65" && v[6] == '.';
    NumberInWindow(s, h, v, 4, 65, "65");
  }

  /** What atoi reads at the last two octet pointers of that host. */
  lemma ExampleHighOctets(s: seq<char>, h: nat)
    requires h + 14 <= |s| && s[h..h + 14] == "208.65.89.219]"
    ensures Atoi(s[h + 7..]) == 89 && Atoi(s[h + 10..]) == 219
  {
    var v: seq<char> := "208.65.89.219]";
    assert v[7..9] == "89" && NatText(89) == "89" && v[9] == '.';
    NumberInWindow(s, h, v, 7, 89, "89");
    assert v[10..13] == "219" && NatText(219) == "219" && v[13] == ']';
    NumberInWindow(s, h, v, 10, 219, "219");
  }

  /** The host 208.65.89.219 converts to 219*256^3 + 89*256^2 + 65*256 + 208. */
  lemma ExampleHostValue(s: seq<char>, h: nat)
    requires h + 14 <= |s| && s[h..h + 14] == "208.65.89.219]"
    ensures IpValue(s, h) == 3680059856
  {
    ExampleHostDots(s, h);
    ExampleLowOctets(s, h);
    ExampleHighOctets(s, h);
    IpValueOfOctets(s, h, h + 4, h + 7, h + 10);
  }

  /** The field "client 208.65.89.219]" names a client. */
  lemma ExampleIsClient(s: seq<char>, p: nat)
    requires p + 21 <= |s| && s[p..p + 21] == "client 208.65.89.219]"
    ensures IsClient(s, p)
  {
    var w: seq<char> := "client 208.65.89.219]";
    WindowSlice(s, p, w, 0, 6);
    assert w[0..6] == "client";
  }

  /** The space search from the start of that field stops after "client". */
  lemma ExampleClientSpace(s: seq<char>, p: nat)
    requires p + 21 <= |s| && s[p..p + 21] == "client 208.65.89.219]"
    ensures FindOrEnd(s, p, ' ') == p + 6
  {
    FindInWindow(s, p, "client 208.65.89.219]", ' ', 6);
  }

  /** The host part of that field. */
  lemma ExampleClientHost(s: seq<char>, p: nat)
    requires p + 21 <= |s| && s[p..p + 21] == "client 208.65.89.219]"
    ensures s[p + 7..p + 20] == "208.65.89.219" && s[p + 7..p + 21] == "208.65.89.219]"
  {
    var w: seq<char> := "client 208.65.89.219]";
    WindowSlice(s, p, w, 7, 21);
    assert w[7..21] == "208.65.89.219]";
    WindowSlice(s, p, w, 7, 20);
    assert w[7..20] == "208.65.89.219";
  }

  /** No ']' in "client ". */
  lemma ExampleClientPrefix(s: seq<char>, p: nat)
    requires p + 21 <= |s| && s[p..p + 21] == "client 208.65.89.219]"
    ensures forall i :: p <= i < p + 7 ==> s[i] != ']'
  {
    var w: seq<char> := "client 208.65.89.219]";
    WindowSlice(s, p, w, 0, 7);
    assert w[0..7] == "client ";
    forall i | p <= i < p + 7
      ensures s[i] != ']'
    {
      assert s[p..p + 7][i - p] == s[i];
    }
  }

  /** The host text holds no ']' before its closing one. */
  lemma ExampleHostBracket()
    ensures FindOrEnd("208.65.89.219]", 0, ']') == 13
  {
  }

  /** The ']' search from the start of that field stops at its end. */
  lemma ExampleClientBracket(s: seq<char>, p: nat)
    requires p + 21 <= |s| && s[p..p + 21] == "client 208.65.89.219]"
    ensures FindOrEnd(s, p, ']') == p + 20
  {
    ExampleClientHost(s, p);
    ExampleHostBracket();
    FindInWindow(s, p + 7, "208.65.89.219]", ']', 13);
    ExampleClientPrefix(s, p);
    FindOrEndSkips(s, p + 7, ']');
    FindOrEndAt(s, p, ']', p + 20);
  }

  /** "[client 208.65.89.219]": remote_host is "208.65.89.219" and remote_host_int is
      219*256^3 + 89*256^2 + 65*256 + 208. */
  lemma ClientHostExample(s: seq<char>, sc: Scan, parseTime: seq<char> -> Option<int>)
    requires Defined(s) && sc == Tokenize(s, 0, ScanCols)
    requires sc.fields[2].start + 21 <= |s|
    requires s[sc.fields[2].start..sc.fields[2].start + 21] == "client 208.65.89.219]"
    ensures Column(s, 4, parseTime) == Text("208.65.89.219")
    ensures Column(s, 5, parseTime) == Int(3680059856)
  {
    var p := sc.fields[2].start;
    ExampleIsClient(s, p);
    ExampleClientSpace(s, p);
    ExampleClientBracket(s, p);
    ExampleClientHost(s, p);
    RemoteHostColumns(s, sc, p + 6, p + 20, parseTime);
    ExampleHostValue(s, p + 7);
  }

  /** The space search over a word tok with no space in it, followed by a space. */
  lemma SpaceAfterWord(s: seq<char>, p: nat, tok: seq<char>)
    requires p + |tok| < |s| && s[p..p + |tok|] == tok && s[p + |tok|] == ' '
    requires FindOrEnd(tok, 0, ' ') == |tok|
    ensures FindOrEnd(s, p, ' ') == p + |tok| && FindOrEnd(s, p + |tok|, ' ') == p + |tok|
  {
    FindOrEndSkips(tok, 0, ' ');
    forall i | p <= i < p + |tok|
      ensures s[i] != ' '
    {
      assert s[p..p + |tok|][i - p] == s[i];
    }
    FindOrEndAt(s, p, ' ', p + |tok|);
    FindOrEndAt(s, p + |tok|, ' ', p + |tok|);
  }

  /** Where the third field ends and the field loop stops when that field is not
      bracketed (a space before it): at the first space after its start, and at the first
      space from there. */
  lemma UnbracketedThird(s: seq<char>, sc: Scan, p: nat)
    requires Defined(s) && sc == Tokenize(s, 0, ScanCols) && p == sc.fields[2].start
    requires 0 < p <= |s| && s[p - 1] == ' '
    ensures sc.stop == FindOrEnd(s, FindOrEnd(s, p, ' '), ' ')
  {
    TokenizeDelimited(s, 0, ScanCols, 2);
    assert CloserAt(s, p) == ' ';
    TokenizeLastWalk(s, 0, ScanCols);
  }

  /** An unquoted third field tok at p, preceded and followed by a space, ends the field
      loop at the space after it. */
  lemma UnquotedThirdField(s: seq<char>, sc: Scan, p: nat, tok: seq<char>)
    requires Defined(s) && sc == Tokenize(s, 0, ScanCols) && p == sc.fields[2].start
    requires 0 < p && p + |tok| < |s| && s[p - 1] == ' ' && s[p + |tok|] == ' '
    requires s[p..p + |tok|] == tok && FindOrEnd(tok, 0, ' ') == |tok|
    ensures sc.stop == p + |tok|
  {
    UnbracketedThird(s, sc, p);
    SpaceAfterWord(s, p, tok);
  }

  /** The token of the example has no space in it. */
  lemma ProxyTokenWord()
    ensures FindOrEnd("proxy_util.c(1852):", 0, ' ') == 19
  {
  }

  /** "[date] [debug] proxy_util.c(1852): proxy: worker already initialized": the
      unbracketed third field at p is consumed by the field loop, so the message is what
      follows it and the "proxy_util.c(1852):" token is in no column. */
  lemma DebugLineMessage(s: seq<char>, sc: Scan, p: nat, parseTime: seq<char> -> Option<int>)
    requires Defined(s) && sc == Tokenize(s, 0, ScanCols) && p == sc.fields[2].start
    requires 0 < p && p + 20 <= |s| && s[p - 1] == ' ' && s[p + 19] == ' '
    requires s[p..p + 19] == "proxy_util.c(1852):"
    requires s[p + 20..] == "proxy: worker already initialized"
    ensures Column(s, 3, parseTime) == Text("proxy: worker already initialized")
  {
    ProxyTokenWord();
    UnquotedThirdField(s, sc, p, "proxy_util.c(1852):");
    MessageColumn(s, sc, parseTime);
  }
}
