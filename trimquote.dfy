/**
  The file-name argument of CREATE VIRTUAL TABLE arrives as SQL text, possibly
  quoted: trimquote drops one optional quote character from each end, checking
  the two ends independently, and copies the bytes in between.
 */
module TrimQuote {
  /** The two characters trimquote strips: a double or a single quote. */
  predicate IsQuote(c: char)
  {
    c == '"' || c == '\''
  }

  /** Index of the first byte kept: one past a leading quote. */
  function First(q: seq<char>): nat
    requires |q| > 0
  {
    if IsQuote(q[0]) then 1 else 0
  }

  /** One past the last byte kept: before a trailing quote. */
  function Past(q: seq<char>): nat
    requires |q| > 0
  {
    if IsQuote(q[|q| - 1]) then |q| - 1 else |q|
  }

  /** The unquoted name: the bytes between the stripped ends, nothing when the two ends
      overlap (a lone quote). */
  function Unquoted(q: seq<char>): (r: seq<char>)
    requires |q| > 0
    ensures |q| - 2 <= |r| <= |q|
  {
    if First(q) <= Past(q) then q[First(q)..Past(q)] else []
  }

  /** Quotes around a name come off, whichever quote opens and whichever closes. */
  lemma WrappedName(a: char, name: seq<char>, b: char)
    requires IsQuote(a) && IsQuote(b)
    ensures Unquoted([a] + name + [b]) == name
  {
    var q := [a] + name + [b];
    assert q[0] == a && q[|q| - 1] == b;
    assert q[1..|q| - 1] == name;
  }

  /** A name that neither starts nor ends with a quote is copied unchanged. */
  lemma BareName(q: seq<char>)
    requires |q| > 0 && !IsQuote(q[0]) && !IsQuote(q[|q| - 1])
    ensures Unquoted(q) == q
  {
  }

  /** At most one byte comes off each end, and only a quote: the name is what is kept
      with its stripped quotes put back. */
  lemma {:induction false} StripsAtMostOne(q: seq<char>)
    requires |q| >= 2
    ensures q == (if IsQuote(q[0]) then [q[0]] else []) + Unquoted(q) +
                 (if IsQuote(q[|q| - 1]) then [q[|q| - 1]] else [])
  {
    var lead: seq<char> := if IsQuote(q[0]) then [q[0]] else [];
    var trail: seq<char> := if IsQuote(q[|q| - 1]) then [q[|q| - 1]] else [];
    assert q[..First(q)] == lead;
    assert q[Past(q)..] == trail;
    assert q == q[..First(q)] + q[First(q)..Past(q)] + q[Past(q)..];
  }

  /** Doubled quotes lose only their outer layer, so stripping is not idempotent. */
  lemma DoubledQuotes()
    ensures Unquoted("''a''") == "'a'"
    ensures Unquoted(Unquoted("''a''")) == "a"
  {
    var q: seq<char> := "''a''";
    var m: seq<char> := "'a'";
    assert q == ['\''] + m + ['\''];
    WrappedName('\'', m, '\'');
    assert m == ['\''] + "a" + ['\''];
    WrappedName('\'', "a", '\'');
  }

  /** A lone quote leaves nothing. */
  lemma LoneQuote(c: char)
    requires IsQuote(c)
    ensures Unquoted([c]) == []
  {
  }

  /** How many bytes the source's copy loop and terminator store write into the buffer
      it allocated with the name's length: the kept bytes, then a NUL only when at least
      one byte was kept. */
  function WrittenBytes(q: seq<char>): (n: nat)
    requires |q| > 0
    ensures n == 0 <==> Unquoted(q) == []
    ensures n <= |Unquoted(q)| + 1
  {
    if |Unquoted(q)| > 0 then |Unquoted(q)| + 1 else 0
  }

  /** As written, a bare name overruns the buffer of |q| bytes by one: the terminator
      lands at index |q|. */
  lemma BareNameOverrun(q: seq<char>)
    requires |q| > 0 && !IsQuote(q[0]) && !IsQuote(q[|q| - 1])
    ensures WrittenBytes(q) == |q| + 1
  {
  }

  /** As written, an empty result ("" quoted, or a lone quote) gets no terminator. */
  lemma EmptyUnterminated()
    ensures WrittenBytes("\"\"") == 0 && WrittenBytes("'") == 0
  {
    WrappedName('"', [], '"');
    LoneQuote('\'');
  }

  /**
    trimquote with the buffer one byte longer than the name, so that the terminator
    always fits, and the terminator written even after an empty copy: u[..n] is the
    unquoted name and u[n] is NUL.
   */
  method Trim(q: seq<char>) returns (u: array<char>, n: nat)
    requires |q| > 0
    ensures fresh(u) && u.Length == |q| + 1
    ensures n == |Unquoted(q)| < u.Length && u[..n] == Unquoted(q) && u[n] == 0 as char
  {
    var start: int := 0;
    var end: int := |q| - 1;
    u := new char[|q| + 1];
    if IsQuote(q[0]) {
      start := start + 1;
    }
    if IsQuote(q[|q| - 1]) {
      end := end - 1;
    }
    var i := start;
    var j := 0;
    while i <= end
      invariant start == First(q) && end + 1 == Past(q)
      invariant start <= i <= |q| && j == i - start
      invariant start <= end + 1 ==> i <= end + 1
      invariant start > end + 1 ==> i == start
      invariant u[..j] == q[start..i]
    {
      u[j] := q[i];
      i := i + 1;
      j := j + 1;
    }
    u[j] := 0 as char;
    n := j;
  }
}
