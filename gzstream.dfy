/**
  The decompressed input as the cursor sees it through zlib: the bytes of the
  file, a read position, and how the stream ends. gzopen, gzseek and gzgets are
  foreign calls; only what gzgets hands back and what gzeof then reports is
  modelled.
 */
module GzStream {
  import opened CString

  /** Clean: reading past the last byte reports end of file (gzeof is true).
      Broken: the data decompresses up to that point and the next read that
      needs more bytes fails (gzgets returns NULL while gzeof is false). */
  datatype Ending = Clean | Broken

  datatype Stream = Stream(data: seq<char>, pos: nat, ending: Ending)
  {
    predicate Valid()
    {
      pos <= |data| && NulFree(data)
    }

    /** gzseek(f, 0, SEEK_SET) */
    function Rewind(): (r: Stream)
      ensures r.pos == 0 && r.data == data && r.ending == ending
    {
      this.(pos := 0)
    }

    predicate AtCleanEnd()
    {
      pos == |data| && ending == Clean
    }
  }

  /** What one gzgets call yields: a chunk, given by the offset just past its last
      byte (the bytes are data[pos..end]), or NULL (with gzeof's answer). */
  datatype Read = Chunk(end: nat) | NoData(atEnd: bool)

  /**
    Where gzgets(buf, left + 1) stops copying: after left bytes, after the
    first newline, or at the end of the data, whichever comes first.
   */
  function ChunkEnd(data: seq<char>, pos: nat, left: nat): (e: nat)
    requires pos <= |data|
    ensures pos <= e <= |data| && e - pos <= left
    ensures e - pos == left || e == |data| || (e > pos && data[e - 1] == '\n')
    ensures e == pos ==> left == 0 || pos == |data|
    decreases left
  {
    if left == 0 || pos == |data| then pos
    else if data[pos] == '\n' then pos + 1
    else ChunkEnd(data, pos + 1, left - 1)
  }

  /** gzgets copies no newline except possibly the last byte. */
  lemma {:induction false} ChunkEndStopsAtNewline(data: seq<char>, pos: nat, left: nat)
    requires pos <= |data|
    ensures forall i :: pos <= i < ChunkEnd(data, pos, left) - 1 ==> data[i] != '\n'
    decreases left
  {
    if left > 0 && pos < |data| && data[pos] != '\n' {
      ChunkEndStopsAtNewline(data, pos + 1, left - 1);
    }
  }

  /**
    gzgets(s, buf, size): at most size - 1 bytes, stopping after a newline.
    NULL when nothing is left (gzeof then true), or when the read had to ask a
    Broken stream for bytes past its good data.
   */
  function Gets(s: Stream, size: nat): (r: Read)
    requires s.Valid() && size >= 2
    ensures r.Chunk? ==> s.pos < r.end <= |s.data| && r.end - s.pos <= size - 1
    ensures r.Chunk? ==> s.data[r.end - 1] == '\n' || r.end - s.pos == size - 1
                         || (r.end == |s.data| && s.ending == Clean)
    ensures r == NoData(true) <==> s.AtCleanEnd()
    ensures r == NoData(false) ==> s.ending == Broken
  {
    var e := ChunkEnd(s.data, s.pos, size - 1);
    var dry := e - s.pos < size - 1 && !(e > s.pos && s.data[e - 1] == '\n');
    if s.ending == Broken && dry then NoData(false)
    else if e == s.pos then NoData(true)
    else
      assert s.data[e - 1] != '\n' && e - s.pos < size - 1 ==> dry && e == |s.data| && s.ending == Clean;
      Chunk(e)
  }

  /** A chunk holds no newline before its last byte. */
  lemma GetsStopsAtNewline(s: Stream, size: nat)
    requires s.Valid() && size >= 2 && Gets(s, size).Chunk?
    ensures forall i :: s.pos <= i < Gets(s, size).end - 1 ==> s.data[i] != '\n'
  {
    ChunkEndStopsAtNewline(s.data, s.pos, size - 1);
  }

  /** When a newline at e is the first one ahead, gzgets copies up to and including it,
      or left bytes if that is fewer. */
  lemma {:induction false} ChunkEndBeforeNewline(data: seq<char>, pos: nat, e: nat, left: nat)
    requires pos <= e < |data| && data[e] == '\n'
    requires forall i :: pos <= i < e ==> data[i] != '\n'
    ensures ChunkEnd(data, pos, left) == if e + 1 - pos <= left then e + 1 else pos + left
    decreases left
  {
    if left > 0 && pos < e {
      ChunkEndBeforeNewline(data, pos + 1, e, left - 1);
    }
  }

  /** When no newline lies ahead, gzgets copies up to the end of the data, or left
      bytes if that is fewer. */
  lemma {:induction false} ChunkEndAtEnd(data: seq<char>, pos: nat, left: nat)
    requires pos <= |data|
    requires forall i :: pos <= i < |data| ==> data[i] != '\n'
    ensures ChunkEnd(data, pos, left) == pos + (if |data| - pos <= left then |data| - pos else left)
    decreases left
  {
    if left == 0 || pos == |data| {
    } else {
      ChunkEndAtEnd(data, pos + 1, left - 1);
    }
  }
}
