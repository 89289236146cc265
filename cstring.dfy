/** The optional value returned by searches that may find nothing (a NULL pointer in C). */
module Maybe {
  datatype Option<+T> = None | Some(value: T)
}

/**
  The few C library routines the log scanners rely on (strchr, strncmp, atoi),
  stated over a NUL-free line held as a sequence of characters. A C pointer into
  the line is an offset 0..|s|; offset |s| is where the terminating NUL sits.
 */
module CString {
  import opened Maybe

  /** The line holds no NUL byte, so strlen of the buffer is its length. */
  predicate NulFree(s: seq<char>)
  {
    forall i :: 0 <= i < |s| ==> s[i] != '\0'
  }

  /** The loop inside strchr(s + from, c) for a non-NUL c: the offset of the first c at
      or after from, or the offset of the terminator when there is none. */
  function FindOrEnd(s: seq<char>, from: nat, c: char): (e: nat)
    requires from <= |s|
    ensures from <= e <= |s|
    ensures e == |s| || s[e] == c
    decreases |s| - from
  {
    if from == |s| || s[from] == c then from else FindOrEnd(s, from + 1, c)
  }

  /** strchr(s + from, c): the first c at or after from, or NULL. */
  function Strchr(s: seq<char>, from: nat, c: char): (r: Option<nat>)
    requires from <= |s|
    ensures r.Some? ==> from <= r.value < |s| && s[r.value] == c
    ensures r.Some? <==> FindOrEnd(s, from, c) < |s|
  {
    var e := FindOrEnd(s, from, c);
    if e < |s| then Some(e) else None
  }

  /** Nothing the search steps over is a c. */
  lemma {:induction false} FindOrEndSkips(s: seq<char>, from: nat, c: char)
    requires from <= |s|
    ensures forall i :: from <= i < FindOrEnd(s, from, c) ==> s[i] != c
    decreases |s| - from
  {
    if from < |s| && s[from] != c {
      FindOrEndSkips(s, from + 1, c);
    }
  }

  /** The search stops at the first c: a c at e with none before it is what it finds. */
  lemma {:induction false} FindOrEndAt(s: seq<char>, from: nat, c: char, e: nat)
    requires from <= e <= |s| && (e == |s| || s[e] == c)
    requires forall i :: from <= i < e ==> s[i] != c
    ensures FindOrEnd(s, from, c) == e
    decreases e - from
  {
    if from < e {
      FindOrEndAt(s, from + 1, c, e);
    }
  }

  /** strncmp(s + p, w, |w|) == 0 for a NUL-free word w. */
  predicate HasPrefixAt(s: seq<char>, p: nat, w: seq<char>)
  {
    p + |w| <= |s| && s[p..p + |w|] == w
  }

  predicate IsDigit(c: char)
  {
    '0' <= c <= '9'
  }

  /** isspace() in the C locale. */
  predicate IsSpace(c: char)
  {
    c == ' ' || c == '\t' || c == '\n' || c == '\U{0B}' || c == '\U{0C}' || c == '\r'
  }

  function DigitValue(c: char): nat
    requires IsDigit(c)
  {
    (c as int) - ('0' as int)
  }

  function DigitChar(d: nat): (c: char)
    requires d < 10
    ensures IsDigit(c) && DigitValue(c) == d
  {
    (('0' as int) + d) as char
  }

  /** The decimal digits at the front of t, accumulated onto acc as atoi's loop does. */
  function Digits(t: seq<char>, acc: int): int
  {
    if |t| > 0 && IsDigit(t[0]) then Digits(t[1..], acc * 10 + DigitValue(t[0])) else acc
  }

  /**
    atoi(t): leading white space, an optional sign, then as many decimal digits
    as follow; 0 when no digit follows. Integers are unbounded here.
   */
  function Atoi(t: seq<char>): int
  {
    if |t| > 0 && IsSpace(t[0]) then Atoi(t[1..])
    else if |t| > 0 && t[0] == '-' then -Digits(t[1..], 0)
    else if |t| > 0 && t[0] == '+' then Digits(t[1..], 0)
    else Digits(t, 0)
  }

  /** The decimal numeral of n, the text atoi is meant to read back. */
  function NatText(n: nat): (r: seq<char>)
    ensures |r| > 0 && forall i :: 0 <= i < |r| ==> IsDigit(r[i])
    decreases n
  {
    if n < 10 then [DigitChar(n)] else NatText(n / 10) + [DigitChar(n % 10)]
  }

  lemma {:induction false} DigitsAppend(a: seq<char>, b: seq<char>, acc: int)
    requires forall i :: 0 <= i < |a| ==> IsDigit(a[i])
    ensures Digits(a + b, acc) == Digits(b, Digits(a, acc))
    decreases |a|
  {
    if |a| == 0 {
      assert a + b == b;
    } else {
      assert (a + b)[0] == a[0];
      assert (a + b)[1..] == a[1..] + b;
      DigitsAppend(a[1..], b, acc * 10 + DigitValue(a[0]));
    }
  }

  lemma {:induction false} DigitsOfNatText(n: nat)
    ensures Digits(NatText(n), 0) == n
    decreases n
  {
    var d := DigitChar(n % 10);
    if n < 10 {
      assert Digits([d], 0) == Digits([], DigitValue(d));
    } else {
      DigitsOfNatText(n / 10);
      DigitsAppend(NatText(n / 10), [d], 0);
      assert Digits([d], n / 10) == Digits([], (n / 10) * 10 + DigitValue(d));
    }
  }

  /** A run of one or more decimal digits. */
  predicate Numeral(t: seq<char>)
  {
    |t| > 0 && forall i :: 0 <= i < |t| ==> IsDigit(t[i])
  }

  /** atoi reads a numeral up to the first byte that is not a digit. */
  lemma AtoiOfNumeral(t: seq<char>, rest: seq<char>)
    requires Numeral(t) && (rest == [] || !IsDigit(rest[0]))
    ensures Atoi(t + rest) == Digits(t, 0)
  {
    assert (t + rest)[0] == t[0];
    DigitsAppend(t, rest, 0);
  }

  /** Round trip: atoi reads back the numeral of n when no further digit follows it. */
  lemma AtoiOfNatText(n: nat, rest: seq<char>)
    requires rest == [] || !IsDigit(rest[0])
    ensures Atoi(NatText(n) + rest) == n
  {
    AtoiOfNumeral(NatText(n), rest);
    DigitsOfNatText(n);
  }

  /** A minus sign in front of the numeral negates it. */
  lemma {:induction false} AtoiOfNegative(n: nat, rest: seq<char>)
    requires rest == [] || !IsDigit(rest[0])
    ensures Atoi(['-'] + NatText(n) + rest) == -(n as int)
  {
    var t := ['-'] + NatText(n) + rest;
    assert t[0] == '-';
    assert t[1..] == NatText(n) + rest;
    DigitsAppend(NatText(n), rest, 0);
    DigitsOfNatText(n);
  }

  /** Leading white space does not change what atoi reads. */
  lemma {:induction false} AtoiSkipsBlanks(w: seq<char>, t: seq<char>)
    requires forall i :: 0 <= i < |w| ==> IsSpace(w[i])
    ensures Atoi(w + t) == Atoi(t)
    decreases |w|
  {
    if |w| > 0 {
      assert (w + t)[1..] == w[1..] + t;
      AtoiSkipsBlanks(w[1..], t);
    } else {
      assert w + t == t;
    }
  }

  /** Text that does not start (after a sign) with a digit reads as 0, e.g. "-". */
  lemma AtoiOfNonNumeric(t: seq<char>)
    requires |t| == 0 || !IsSpace(t[0])
    requires |t| == 0 || (if t[0] == '-' || t[0] == '+' then |t| == 1 || !IsDigit(t[1]) else !IsDigit(t[0]))
    ensures Atoi(t) == 0
  {
  }

  /** Two digits followed by a non-digit, as in the "04" of a timestamp. */
  lemma AtoiOfTwoDigits(t: seq<char>)
    requires |t| >= 2 && IsDigit(t[0]) && IsDigit(t[1]) && (|t| == 2 || !IsDigit(t[2]))
    ensures Atoi(t) == 10 * DigitValue(t[0]) + DigitValue(t[1])
  {
    assert !IsSpace(t[0]) && t[0] != '-' && t[0] != '+';
    var x := 10 * DigitValue(t[0]) + DigitValue(t[1]);
    assert t[1..][1..] == t[2..];
    assert Digits(t[2..], x) == x;
    assert Digits(t[1..], DigitValue(t[0])) == x;
  }
}
