/**
  What the two scanners share: the slot table the scan fills (one pointer and
  one size per column), the column values handed to SQLite, the tokenizer loop
  that splits a line into its leading fields, and the derived values both
  formats compute the same way (the reversed-octet IP integer and the month
  number).
 */
module FieldScan {
  import opened Maybe
  import opened CString

  /** A line_ptrs entry: NULL, an offset into the line, or the static empty
      string the error scanner substitutes for a field that is not a client. */
  datatype Ptr = NoPtr | At(off: nat) | EmptyLiteral

  /** One column's line_ptrs / line_size pair. */
  datatype Slot = Slot(ptr: Ptr, size: int)

  /** What the scan's clearing loop writes into every column first. */
  const Absent: Slot := Slot(NoPtr, -1)

  /** A column result: sqlite3_result_null, _int / _int64, or _text. */
  datatype Value = Null | Int(i: int) | Text(t: seq<char>)

  predicate IsOpener(c: char)
  {
    c == '"' || c == '['
  }

  /** The byte a field is scanned up to, given the byte it starts with. */
  function Closer(c: char): char
  {
    if c == '"' then '"' else if c == '[' then ']' else ' '
  }

  /** A scanned field: where its text starts and how many bytes it has. */
  datatype Field = Field(start: nat, size: nat)

  /** The fields found, and where the scan pointer stood when the loop ended. */
  datatype Scan = Scan(fields: seq<Field>, stop: nat)

  /** Where a field scan may begin: the start of the line, its end, or a space. */
  predicate Boundary(s: seq<char>, i: nat)
  {
    i == 0 || i == |s| || (i < |s| && s[i] == ' ')
  }

  /** The closer a field whose text starts at q was scanned for: the opener just
      before it decides, and a field with no opener runs to a space. */
  function CloserAt(s: seq<char>, q: nat): char
    requires q <= |s|
  {
    if q > 0 && IsOpener(s[q - 1]) then Closer(s[q - 1]) else ' '
  }

  /** A field runs from its start to the first closer after it (strchr), or to the end of
      the line when there is none. */
  predicate Delimited(s: seq<char>, f: Field)
  {
    f.start <= |s| && f.start + f.size == FindOrEnd(s, f.start, CloserAt(s, f.start))
  }

  /** One field and where the scan pointer goes after it. */
  datatype Step = Step(field: Field, next: nat)

  /** One pass of the field loop's body from p, the first non-space byte: step over an
      opener, search for the closer, record the field, then walk to a space or the end. */
  function FieldAt(s: seq<char>, p: nat): (st: Step)
    requires p < |s| && s[p] != ' ' && (p == 0 || s[p - 1] == ' ')
    ensures p <= st.field.start && p < st.next
    ensures st.field.start + st.field.size <= st.next <= |s| && (st.next == |s| || s[st.next] == ' ')
    ensures Delimited(s, st.field)
    ensures st.field.start == if IsOpener(s[p]) then p + 1 else p
  {
    var q := if IsOpener(s[p]) then p + 1 else p;
    var e := FindOrEnd(s, q, Closer(s[p]));
    assert CloserAt(s, q) == Closer(s[p]);
    Step(Field(q, e - q), FindOrEnd(s, e, ' '))
  }

  /** The field loop's body from a boundary i: skip the spaces, then either stop at the
      end of the line (None) or take the field that starts there. */
  function Next(s: seq<char>, i: nat): (r: Option<Step>)
    requires i <= |s| && (i == 0 || i == |s| || s[i] == ' ' || s[i - 1] == ' ')
    ensures r.Some? ==> i <= r.value.field.start && i < r.value.next
    ensures r.Some? ==> r.value.field.start + r.value.field.size <= r.value.next <= |s|
    ensures r.Some? ==> Boundary(s, r.value.next) && Delimited(s, r.value.field)
    ensures r.Some? && i < |s| && s[i] == ' ' ==> i < r.value.field.start
    decreases |s| - i
  {
    if i == |s| then None
    else if s[i] == ' ' then Next(s, i + 1)
    else Some(FieldAt(s, i))
  }

  /**
    The field loop of the scanners, for at most n fields from start: each pass
    skips spaces, stops at the end of the line, and otherwise records one field
    and moves the scan pointer on to the next space or the end of the line.
   */
  function Tokenize(s: seq<char>, start: nat, n: nat): (r: Scan)
    requires start <= |s| && Boundary(s, start)
    ensures |r.fields| <= n && start <= r.stop <= |s| && Boundary(s, r.stop)
    ensures |r.fields| < n ==> r.stop == |s|
    ensures start == |s| ==> r.fields == []
    decreases n
  {
    if n == 0 then Scan([], start)
    else
      match Next(s, start)
      case None => Scan([], |s|)
      case Some(st) =>
        var rest := Tokenize(s, st.next, n - 1);
        Scan([st.field] + rest.fields, rest.stop)
  }

  /** When a field remains, the scan is that field followed by the scan from where it ended. */
  lemma TokenizeCons(s: seq<char>, start: nat, n: nat) returns (st: Step)
    requires start <= |s| && Boundary(s, start) && n > 0 && Next(s, start).Some?
    ensures st == Next(s, start).value && Boundary(s, st.next)
    ensures Tokenize(s, start, n).fields == [st.field] + Tokenize(s, st.next, n - 1).fields
    ensures Tokenize(s, start, n).stop == Tokenize(s, st.next, n - 1).stop
  {
    st := Next(s, start).value;
  }

  /** Every field runs exactly to the first closer after its start, or to the end of the line. */
  lemma {:induction false} TokenizeDelimited(s: seq<char>, start: nat, n: nat, i: nat)
    requires start <= |s| && Boundary(s, start)
    ensures i < |Tokenize(s, start, n).fields| ==> Delimited(s, Tokenize(s, start, n).fields[i])
    decreases n
  {
    if 0 < i < |Tokenize(s, start, n).fields| {
      var st := TokenizeCons(s, start, n);
      assert Tokenize(s, start, n).fields[i] == Tokenize(s, st.next, n - 1).fields[i - 1];
      TokenizeDelimited(s, st.next, n - 1, i - 1);
    }
  }

  /** What Delimited means byte by byte: the field lies inside the line, holds no closer,
      and is followed by its closer or by the end of the line. */
  lemma DelimitedBytes(s: seq<char>, f: Field)
    requires Delimited(s, f)
    ensures f.start + f.size <= |s|
    ensures forall k :: f.start <= k < f.start + f.size ==> s[k] != CloserAt(s, f.start)
    ensures f.start + f.size == |s| || s[f.start + f.size] == CloserAt(s, f.start)
  {
    FindOrEndSkips(s, f.start, CloserAt(s, f.start));
  }

  /** The fields start after the start of the scan, strictly after it when the scan
      starts on a space. */
  lemma {:induction false} TokenizeAfter(s: seq<char>, start: nat, n: nat, i: nat)
    requires start <= |s| && Boundary(s, start)
    ensures i < |Tokenize(s, start, n).fields| ==> start <= Tokenize(s, start, n).fields[i].start
    ensures i < |Tokenize(s, start, n).fields| && start < |s| && s[start] == ' ' ==>
      start < Tokenize(s, start, n).fields[i].start
    decreases n
  {
    if 0 < i < |Tokenize(s, start, n).fields| {
      var st := TokenizeCons(s, start, n);
      assert Tokenize(s, start, n).fields[i] == Tokenize(s, st.next, n - 1).fields[i - 1];
      TokenizeAfter(s, st.next, n - 1, i - 1);
    }
  }

  /** The first field ends before any later field starts. */
  lemma TokenizeFirstBefore(s: seq<char>, start: nat, n: nat, j: nat)
    requires start <= |s| && Boundary(s, start)
    ensures 0 < j < |Tokenize(s, start, n).fields| ==>
      Tokenize(s, start, n).fields[0].start + Tokenize(s, start, n).fields[0].size < Tokenize(s, start, n).fields[j].start
  {
    if 0 < j < |Tokenize(s, start, n).fields| {
      var st := TokenizeCons(s, start, n);
      assert Tokenize(s, start, n).fields[j] == Tokenize(s, st.next, n - 1).fields[j - 1];
      TokenizeAfter(s, st.next, n - 1, j - 1);
    }
  }

  /** The fields come in order, with at least one byte between one and the next. */
  lemma {:induction false} TokenizeOrdered(s: seq<char>, start: nat, n: nat, i: nat, j: nat)
    requires start <= |s| && Boundary(s, start)
    ensures i < j < |Tokenize(s, start, n).fields| ==>
      Tokenize(s, start, n).fields[i].start + Tokenize(s, start, n).fields[i].size < Tokenize(s, start, n).fields[j].start
    decreases n
  {
    if i < j < |Tokenize(s, start, n).fields| {
      if i == 0 {
        TokenizeFirstBefore(s, start, n, j);
      } else {
        var st := TokenizeCons(s, start, n);
        assert Tokenize(s, start, n).fields[i] == Tokenize(s, st.next, n - 1).fields[i - 1];
        assert Tokenize(s, start, n).fields[j] == Tokenize(s, st.next, n - 1).fields[j - 1];
        TokenizeOrdered(s, st.next, n - 1, i - 1, j - 1);
      }
    }
  }

  /** Every field ends at or before the point where the scan stopped. */
  lemma {:induction false} TokenizeBeforeStop(s: seq<char>, start: nat, n: nat, i: nat)
    requires start <= |s| && Boundary(s, start)
    ensures i < |Tokenize(s, start, n).fields| ==>
      Tokenize(s, start, n).fields[i].start + Tokenize(s, start, n).fields[i].size <= Tokenize(s, start, n).stop
    decreases n
  {
    if i < |Tokenize(s, start, n).fields| {
      var st := TokenizeCons(s, start, n);
      if i == 0 {
        TokenizeAfter(s, st.next, n - 1, 0);
      } else {
        assert Tokenize(s, start, n).fields[i] == Tokenize(s, st.next, n - 1).fields[i - 1];
        TokenizeBeforeStop(s, st.next, n - 1, i - 1);
      }
    }
  }

  /** After a field the scan pointer walks from the field's end to the next space. */
  lemma {:induction false} NextWalk(s: seq<char>, i: nat)
    requires i <= |s| && (i == 0 || i == |s| || s[i] == ' ' || s[i - 1] == ' ')
    ensures Next(s, i).Some? ==>
      Next(s, i).value.next == FindOrEnd(s, Next(s, i).value.field.start + Next(s, i).value.field.size, ' ')
    decreases |s| - i
  {
    if i < |s| && s[i] == ' ' {
      NextWalk(s, i + 1);
    }
  }

  /** A scan that found all n fields stopped where the walk after the last one stopped. */
  lemma {:induction false} TokenizeLastWalk(s: seq<char>, start: nat, n: nat)
    requires start <= |s| && Boundary(s, start) && n > 0 && |Tokenize(s, start, n).fields| == n
    ensures var f := Tokenize(s, start, n).fields[n - 1];
      f.start + f.size <= |s| && Tokenize(s, start, n).stop == FindOrEnd(s, f.start + f.size, ' ')
    decreases n
  {
    var st := TokenizeCons(s, start, n);
    var rest := Tokenize(s, st.next, n - 1);
    if n == 1 {
      assert st.next == FindOrEnd(s, st.field.start + st.field.size, ' ') by {
        NextWalk(s, start);
      }
      assert rest.stop == st.next;
    } else {
      assert |rest.fields| == n - 1;
      assert Tokenize(s, start, n).fields[n - 1] == rest.fields[n - 2];
      TokenizeLastWalk(s, st.next, n - 1);
    }
  }

  function FieldSlot(f: Field): Slot
  {
    Slot(At(f.start), f.size)
  }

  /** The slot table after the clearing loop and the field loop. */
  function RawSlots(fields: seq<Field>, total: nat): (r: seq<Slot>)
    requires |fields| <= total
    ensures |r| == total
    ensures forall i :: 0 <= i < |fields| ==> r[i] == FieldSlot(fields[i])
    ensures forall i :: |fields| <= i < total ==> r[i] == Absent
  {
    seq(total, i requires 0 <= i < total => if i < |fields| then FieldSlot(fields[i]) else Absent)
  }

  /** A slot whose size is not negative can be handed to SQLite as text: it points into the
      line and its bytes lie inside it, or it is the static empty string. */
  predicate Readable(s: seq<char>, sl: Slot)
  {
    sl.size >= 0 ==>
      (sl.ptr.At? && sl.ptr.off + sl.size <= |s|) || (sl.ptr.EmptyLiteral? && sl.size == 0)
  }

  /** sqlite3_result_text(ptr, size): the bytes of a readable slot. */
  function SlotText(s: seq<char>, sl: Slot): (t: seq<char>)
    requires sl.size >= 0 && Readable(s, sl)
    ensures |t| == sl.size
  {
    match sl.ptr
    case At(o) => s[o..o + sl.size]
    case _ => []
  }

  /** The text of a field. */
  function FieldText(s: seq<char>, f: Field): seq<char>
    requires f.start + f.size <= |s|
  {
    s[f.start..f.start + f.size]
  }

  /** Where the next octet starts: just past the next '.', searched over the
      rest of the line; when there is none the pointer stays where it is. */
  function NextOctet(s: seq<char>, o: nat): (r: nat)
    requires o <= |s|
    ensures o <= r <= |s|
  {
    match Strchr(s, o, '.')
    case Some(d) => d + 1
    case None => o
  }

  /** The last k octets of the IP conversion, from octet pointer o: the octet at o
      plus 256 times the octets after the next '.'. */
  function OctetFold(s: seq<char>, o: nat, k: nat): int
    requires o <= |s|
    decreases k
  {
    if k == 0 then 0 else Atoi(s[o..]) + 256 * OctetFold(s, NextOctet(s, o), k - 1)
  }

  /** remote_host_int: four octets from host start p, the last one most significant. */
  function IpValue(s: seq<char>, p: nat): int
    requires p <= |s|
  {
    OctetFold(s, p, 4)
  }

  /** The IP column's loop: record four octet pointers, each one just past the next '.'
      after the one before, then accumulate v from the last octet down. */
  method OctetSum(s: seq<char>, p: nat) returns (v: int)
    requires p <= |s|
    ensures v == IpValue(s, p)
  {
    var oct := new nat[4];
    var start := p;
    for i := 0 to 4
      invariant p <= start <= |s|
      invariant i > 0 ==> oct[0] == p
      invariant forall k :: 0 <= k < i ==> p <= oct[k] <= |s|
      invariant forall k :: 0 < k < i ==> oct[k] == NextOctet(s, oct[k - 1])
      invariant start == if i == 0 then p else NextOctet(s, oct[i - 1])
    {
      oct[i] := start;
      match Strchr(s, start, '.') {
        case Some(e) => start := e + 1;
        case None =>
      }
    }
    v := 0;
    v := v + Atoi(s[oct[3]..]); v := v * 256;
    v := v + Atoi(s[oct[2]..]); v := v * 256;
    v := v + Atoi(s[oct[1]..]); v := v * 256;
    v := v + Atoi(s[oct[0]..]);
    assert OctetFold(s, oct[3], 1) == Atoi(s[oct[3]..]);
    assert OctetFold(s, oct[2], 2) == Atoi(s[oct[2]..]) + 256 * OctetFold(s, oct[3], 1);
    assert OctetFold(s, oct[1], 3) == Atoi(s[oct[1]..]) + 256 * OctetFold(s, oct[2], 2);
  }

  /** The value of the IP column once the three '.' searches are known. */
  lemma IpValueOfOctets(s: seq<char>, p: nat, o1: nat, o2: nat, o3: nat)
    requires p <= |s| && NextOctet(s, p) == o1 && NextOctet(s, o1) == o2 && NextOctet(s, o2) == o3
    ensures IpValue(s, p) == ((Atoi(s[o3..]) * 256 + Atoi(s[o2..])) * 256 + Atoi(s[o1..])) * 256 + Atoi(s[p..])
  {
    assert OctetFold(s, o3, 1) == Atoi(s[o3..]);
    assert OctetFold(s, o2, 2) == Atoi(s[o2..]) + 256 * OctetFold(s, o3, 1);
    assert OctetFold(s, o1, 3) == Atoi(s[o1..]) + 256 * OctetFold(s, o2, 2);
  }

  /** A numeral followed by a '.': atoi reads the number, and the next octet starts after the dot. */
  lemma NextOctetAfterNumeral(s: seq<char>, o: nat, t: seq<char>, r: seq<char>)
    requires Numeral(t) && o <= |s| && s[o..] == t + ['.'] + r
    ensures o + |t| + 1 <= |s| && NextOctet(s, o) == o + |t| + 1
    ensures Atoi(s[o..]) == Digits(t, 0) && s[o + |t| + 1..] == r
  {
    assert forall k :: o <= k < o + |t| ==> s[k] == t[k - o];
    assert s[o + |t|] == '.';
    FindOrEndAt(s, o, '.', o + |t|);
    assert s[o..] == t + (['.'] + r);
    AtoiOfNumeral(t, ['.'] + r);
    assert s[o + |t| + 1..] == s[o..][|t| + 1..];
  }

  /** The worked example: 192.168.1.4 converts to 4*256^3 + 1*256^2 + 168*256 + 192 = 67217600. */
  lemma IpValueExample()
    ensures IpValue("192.168.1.4", 0) == 67217600
  {
    var s := "192.168.1.4";
    IpExampleDots(s);
    IpExampleAtoi(s);
    IpValueOfOctets(s, 0, 4, 8, 10);
  }

  /** Where the three '.' searches stop in the example. */
  lemma IpExampleDots(s: seq<char>)
    requires s == "192.168.1.4"
    ensures NextOctet(s, 0) == 4 && NextOctet(s, 4) == 8 && NextOctet(s, 8) == 10
  {
    FindOrEndAt(s, 0, '.', 3);
    FindOrEndAt(s, 4, '.', 7);
    FindOrEndAt(s, 8, '.', 9);
  }

  /** What atoi reads at the four octet pointers of the example. */
  lemma IpExampleAtoi(s: seq<char>)
    requires s == "192.168.1.4"
    ensures Atoi(s[0..]) == 192 && Atoi(s[4..]) == 168 && Atoi(s[8..]) == 1 && Atoi(s[10..]) == 4
  {
    assert s[0..] == "192" + ".168.1.4";
    AtoiOfNumeral("192", ".168.1.4");
    assert s[4..] == "168" + ".1.4";
    AtoiOfNumeral("168", ".1.4");
    assert s[8..] == "1" + ".4";
    AtoiOfNumeral("1", ".4");
    assert s[10..] == "4" + [];
    AtoiOfNumeral("4", []);
  }

  /** With no '.' ahead of the host start, every octet pointer stays there, so the one
      component is repeated in all four places instead of the rest being 0. */
  lemma IpValueWithoutDots(s: seq<char>, p: nat)
    requires p <= |s| && forall k :: p <= k < |s| ==> s[k] != '.'
    ensures IpValue(s, p) == Atoi(s[p..]) * 16843009
  {
    FindOrEndAt(s, p, '.', |s|);
  }

  /** No '.' ahead: the next octet pointer stays where it is. */
  lemma NextOctetWithoutDot(s: seq<char>, o: nat)
    requires o <= |s| && forall k :: 0 <= k < |s[o..]| ==> s[o..][k] != '.'
    ensures NextOctet(s, o) == o
  {
    assert forall k :: o <= k < |s| ==> s[k] == s[o..][k - o];
    FindOrEndAt(s, o, '.', |s|);
  }

  /** Once the dots run out, the last octet found is repeated: a.b gives
      b*256^3 + b*256^2 + b*256 + a. */
  lemma IpValueOfTwoParts(s: seq<char>, p: nat, a: seq<char>, b: seq<char>, tail: seq<char>)
    requires Numeral(a) && Numeral(b) && (tail == [] || !IsDigit(tail[0]))
    requires forall k :: 0 <= k < |tail| ==> tail[k] != '.'
    requires p <= |s| && s[p..] == a + ['.'] + (b + tail)
    ensures IpValue(s, p) == Digits(b, 0) * 16843008 + Digits(a, 0)
  {
    NextOctetAfterNumeral(s, p, a, b + tail);
    var o1 := p + |a| + 1;
    NextOctetWithoutDot(s, o1);
    AtoiOfNumeral(b, tail);
    IpValueOfOctets(s, p, o1, o1, o1);
  }

  /** The month names in calendar order. */
  const Months: seq<seq<char>> :=
    ["Jan", "Feb", "Mar", "Apr", "May", "Jun", "Jul", "Aug", "Sep", "Oct", "Nov", "Dec"]

  /** time_month: the strncmp chain against "Jan" .. "Dec" at p, case-sensitive. */
  function MonthNumber(s: seq<char>, p: nat): (m: Option<nat>)
    ensures m.Some? ==> 1 <= m.value <= 12 && HasPrefixAt(s, p, Months[m.value - 1])
    ensures m.None? ==> forall k :: 0 <= k < 12 ==> !HasPrefixAt(s, p, Months[k])
  {
    if HasPrefixAt(s, p, "Jan") then Some(1)
    else if HasPrefixAt(s, p, "Feb") then Some(2)
    else if HasPrefixAt(s, p, "Mar") then Some(3)
    else if HasPrefixAt(s, p, "Apr") then Some(4)
    else if HasPrefixAt(s, p, "May") then Some(5)
    else if HasPrefixAt(s, p, "Jun") then Some(6)
    else if HasPrefixAt(s, p, "Jul") then Some(7)
    else if HasPrefixAt(s, p, "Aug") then Some(8)
    else if HasPrefixAt(s, p, "Sep") then Some(9)
    else if HasPrefixAt(s, p, "Oct") then Some(10)
    else if HasPrefixAt(s, p, "Nov") then Some(11)
    else if HasPrefixAt(s, p, "Dec") then Some(12)
    else None
  }

  /** The chain finds the one month whose name is at p. */
  lemma MonthNumberOfName(s: seq<char>, p: nat, k: nat)
    requires k < 12 && HasPrefixAt(s, p, Months[k])
    ensures MonthNumber(s, p) == Some(k + 1)
  {
    var w := s[p..p + 3];
    assert w == Months[k];
    assert w[0] == Months[k][0] && w[1] == Months[k][1] && w[2] == Months[k][2];
  }

  /** A month column's value: the number when the name is known, the three bytes otherwise. */
  function MonthValue(s: seq<char>, p: nat): (v: Value)
    requires p + 3 <= |s|
    ensures v.Int? ==> 1 <= v.i <= 12 && s[p..p + 3] == Months[v.i - 1]
    ensures v.Text? ==> v.t == s[p..p + 3] && forall k :: 0 <= k < 12 ==> v.t != Months[k]
    ensures v.Int? || v.Text?
  {
    match MonthNumber(s, p)
    case Some(m) => Int(m)
    case None => Text(s[p..p + 3])
  }

  /** A piece of a known window of the line is the same piece of the window. */
  lemma WindowSlice(s: seq<char>, t: nat, w: seq<char>, i: nat, j: nat)
    requires t + |w| <= |s| && s[t..t + |w|] == w && i <= j <= |w|
    ensures s[t + i..t + j] == w[i..j]
  {
    assert forall k :: i <= k < j ==> s[t + k] == w[k];
  }

  /** atoi of two digits followed by a non-digit, as in the day or hour of a timestamp. */
  lemma TwoDigitsIn(s: seq<char>, p: nat)
    requires p + 3 <= |s| && IsDigit(s[p]) && IsDigit(s[p + 1]) && !IsDigit(s[p + 2])
    ensures Atoi(s[p..]) == 10 * DigitValue(s[p]) + DigitValue(s[p + 1])
  {
    AtoiOfTwoDigits(s[p..]);
  }

  /** The window's bytes, one by one. */
  lemma WindowBytes(s: seq<char>, t: nat, w: seq<char>)
    requires t + |w| <= |s| && s[t..t + |w|] == w
    ensures forall k :: 0 <= k < |w| ==> s[t + k] == w[k]
  {
    forall k | 0 <= k < |w|
      ensures s[t + k] == w[k]
    {
      assert s[t..t + |w|][k] == s[t + k];
    }
  }

  /** The numeral of the year 2014. */
  lemma DigitsOfYear()
    ensures Digits("2014", 0) == 2014
  {
    var y: seq<char> := "2014";
    assert y[1..] == "014" && y[1..][1..] == "14" && y[1..][1..][1..] == "4";
    assert y[1..][1..][1..][1..] == [];
    assert Digits("4", 201) == 2014;
    assert Digits("14", 20) == 2014;
    assert Digits("014", 2) == 2014;
  }

  /** atoi reads 2014 from "2014" followed by a non-digit. */
  lemma Year2014At(s: seq<char>, p: nat)
    requires p + 4 <= |s| && s[p..p + 4] == "2014" && (p + 4 == |s| || !IsDigit(s[p + 4]))
    ensures Atoi(s[p..]) == 2014
  {
    assert s[p..] == "2014" + s[p + 4..];
    assert p + 4 < |s| ==> s[p + 4..][0] == s[p + 4];
    AtoiOfNumeral("2014", s[p + 4..]);
    DigitsOfYear();
  }

  /** The month column reads "Nov" as 11. */
  lemma NovemberAt(s: seq<char>, p: nat)
    requires p + 3 <= |s| && s[p..p + 3] == "Nov"
    ensures MonthValue(s, p) == Int(11)
  {
    assert Months[10] == "Nov";
    MonthNumberOfName(s, p, 10);
  }
}
