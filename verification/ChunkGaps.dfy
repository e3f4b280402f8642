// What holes in a file do to reads and to later writes: a write that starts in a chunk after
// the one the file ends in stores nothing between, and rows are put together without regard
// to the bytes that are not there.
module ChunkGaps {
  import opened Basics
  import opened ChunkStore

  // ---- Reads --------------------------------------------------------------------------------------

  // What `read` makes of the assembled rows: `local` is the offset within the first of them,
  // `room` the bytes up to the recorded size.
  function Cut(assembled: Bytes, local: nat, n: nat, room: nat): ReadResult {
    var take := Min(Min(n, Monus(|assembled|, local)), room);
    if local + take > |assembled| then Panic else ReadResult.Bytes(assembled[local..local + take])
  }

  lemma ReadIsCut(g: File, offset: nat, n: nat, cs: nat)
    requires cs > 0 && offset < g.size
    ensures Index(offset, cs) <= Index(Monus(Min(offset + n, g.size), 1), cs) + 1
    ensures var last := Index(Monus(Min(offset + n, g.size), 1), cs);
      Read(g, offset, n, cs) ==
        Cut(Assemble(g.chunks, Index(offset, cs), last + 1), Within(offset, cs), n, g.size - offset)
  {
    LastRead(offset, Min(offset + n, g.size), cs);
    ChunkOf(offset, cs);
    hide Start, Index, Within, Assemble;
  }

  lemma CutPanicsIff(assembled: Bytes, local: nat, n: nat, room: nat)
    ensures Cut(assembled, local, n, room) == Panic <==> |assembled| < local
  {
  }

  lemma CutIsIff(assembled: Bytes, local: nat, n: nat, room: nat, want: Bytes)
    requires |want| == Min(n, room)
    ensures Cut(assembled, local, n, room) == ReadResult.Bytes(want) <==>
      local + |want| <= |assembled| && assembled[local..local + |want|] == want
  {
  }

  // ---- Reads that panic -------------------------------------------------------------------------

  // Whether bytes are missing at `offset` of a file with `size` bytes in its chunks: it is
  // beyond them, and not where a chunk starts (there a read finds nothing, and returns it).
  predicate InHole(size: nat, offset: nat, cs: nat)
    requires cs > 0
  {
    size < offset && Within(offset, cs) != 0
  }

  // The bytes before `offset` in its chunk that chunks lo..hi-1 of the buffer leave missing.
  lemma SpanShort(buf: Bytes, offset: nat, hi: nat, cs: nat)
    requires cs > 0 && Index(offset, cs) <= hi && (Within(offset, cs) != 0 ==> Index(offset, cs) < hi)
    ensures |Span(buf, Index(offset, cs), hi, cs)| < Within(offset, cs) <==> InHole(|buf|, offset, cs)
  {
    var first := Index(offset, cs);
    ChunkOf(offset, cs);
    NextStart(first, cs);
    StartsGrow(first, hi, cs);
    if first < hi { StartsGrow(first + 1, hi, cs); }
    hide Start, Index, Within;
  }

  // A file whose rows where it is read are those of a file that stands for `buf`: reading
  // panics if and only if it starts in a hole.
  lemma HoleReadPanicsIff(g: File, f: File, buf: Bytes, offset: nat, size: nat, cs: nat)
    requires cs > 0 && Represents(f, buf, cs) && offset < g.size
    requires forall k: nat :: Index(offset, cs) <= k <= Index(Monus(Min(offset + size, g.size), 1), cs) ==>
      ChunkRow(g.chunks, k) == ChunkRow(f.chunks, k)
    ensures Read(g, offset, size, cs) == Panic <==> InHole(|buf|, offset, cs)
  {
    hide Start, Index, Within, Represents, InHole, ChunkRow, Cut, Read, Span, Assemble;
    var first, last := Index(offset, cs), Index(Monus(Min(offset + size, g.size), 1), cs);
    LastRead(offset, Min(offset + size, g.size), cs);
    ReadIsCut(g, offset, size, cs);
    CutPanicsIff(Assemble(g.chunks, first, last + 1), Within(offset, cs), size, g.size - offset);
    AssembleSame(g.chunks, f.chunks, first, last + 1);
    AssembleSpan(f, buf, first, last + 1, cs);
    SpanShort(buf, offset, last + 1, cs);
  }

  // The last chunk of a read is not before its first one, unless it is empty and starts
  // where a chunk does.
  lemma LastRead(offset: nat, end: nat, cs: nat)
    requires cs > 0 && offset <= end
    ensures Index(offset, cs) <= Index(Monus(end, 1), cs) + 1
    ensures Within(offset, cs) != 0 ==> Index(offset, cs) <= Index(Monus(end, 1), cs)
  {
    var first := Index(offset, cs);
    ChunkOf(offset, cs);
    if Within(offset, cs) != 0 {
      IndexUnique(offset - 1, first, cs);
      IndexGrows(offset - 1, Monus(end, 1), cs);
    } else if offset > 0 {
      StartsGrow(0, first, cs);
      NextStart(first - 1, cs);
      IndexUnique(offset - 1, first - 1, cs);
      IndexGrows(offset - 1, Monus(end, 1), cs);
    } else {
      NextStart(0, cs);
      IndexUnique(0, 0, cs);
    }
  }

  // After a truncation that grew the file from `buf` to `size`.
  lemma GrownReadPanicsIff(f: File, buf: Bytes, size: nat, offset: nat, n: nat, cs: nat)
    requires cs > 0 && Represents(f, buf, cs) && |buf| < size
    ensures Read(Truncate(f, size, cs), offset, n, cs) == Panic <==> offset < size && InHole(|buf|, offset, cs)
  {
    GrowingTruncate(f, buf, size, cs);
    hide Index, Within, Represents, InHole;
    if offset < size {
      HoleReadPanicsIff(File(f.chunks, size), f, buf, offset, n, cs);
    }
  }

  // A write leaves the rows before its first chunk alone.
  lemma WrittenFrom(chunks: Chunks, offset: nat, data: Bytes, cs: nat)
    requires cs > 0 && data != []
    ensures forall k: nat :: k < Index(offset, cs) ==>
      ChunkRow(WriteChunks(chunks, offset, data, cs), k) == ChunkRow(chunks, k)
  {
    IndexGrows(offset, offset + |data| - 1, cs);
    MergeRangeRows(chunks, Index(offset, cs), Index(offset + |data| - 1, cs) + 1, offset, data, cs);
    hide Index, MergeRange, MergeChunk;
  }

  lemma EndsBefore(i: nat, k: nat, cs: nat)
    requires cs > 0 && k > 0 && i < Start(k, cs)
    ensures Index(i, cs) < k
  {
    ChunkOf(i, cs);
    hide Start, Index;
    if k <= Index(i, cs) { StartsGrow(k, Index(i, cs), cs); }
  }

  // ---- Reads after a write beyond a hole ---------------------------------------------------------

  // The write at `at` starts in a chunk after the one the file ends in.
  ghost predicate Leaves(f: File, buf: Bytes, at: nat, data: Bytes, cs: nat) {
    cs > 0 && data != [] && Represents(f, buf, cs) && !Covered(|buf|, at, data, cs)
  }

  lemma HoleBounds(f: File, buf: Bytes, at: nat, data: Bytes, cs: nat)
    requires Leaves(f, buf, at, data, cs)
    ensures |buf| < Start(Index(at, cs), cs) <= at
    ensures Write(f, at, data, cs).size == |FlatWrite(buf, at, data)| == at + |data|
    ensures forall i :: 0 <= i < |buf| ==> FlatWrite(buf, at, data)[i] == buf[i]
    ensures forall i :: |buf| <= i < at ==> FlatWrite(buf, at, data)[i] == 0
  {
    FlatWriteMeaning(buf, at, data);
    ChunkOf(at, cs);
    ChunkOf(|buf|, cs);
    hide Start, Index, Represents, WriteChunks, FlatWrite;
    StartsGrow(Index(|buf|, cs), Index(at, cs), cs);
  }

  // From its first chunk on, the rows are those of the flat buffer.
  lemma RowsAfterHole(f: File, buf: Bytes, at: nat, data: Bytes, cs: nat, k: nat)
    requires Leaves(f, buf, at, data, cs) && Index(at, cs) <= k
    ensures ChunkRow(Write(f, at, data, cs).chunks, k) == Span(FlatWrite(buf, at, data), k, k + 1, cs)
  {
    hide Start, Index, Leaves, MergeRange, MergeChunk, FlatWrite, Represents, Covered, Span, Slice;
    LeavesMeans(f, buf, at, data, cs);
    HoleBounds(f, buf, at, data, cs);
    var last := Index(at + |data| - 1, cs);
    NoRowThere(f, buf, at, k, cs);
    IndexGrows(at, at + |data| - 1, cs);
    MergeRangeRows(f.chunks, Index(at, cs), last + 1, at, data, cs);
    if k <= last {
      StartsGrow(Index(at, cs), k, cs);
      MergedRow(buf, k, at, data, cs);
      SliceIsSpan(FlatWrite(buf, at, data), k, cs);
    } else {
      PastTheEnd(at + |data|, k, cs);
      NothingSpanned(FlatWrite(buf, at, data), k, cs);
    }
  }

  lemma NoRowThere(f: File, buf: Bytes, at: nat, k: nat, cs: nat)
    requires cs > 0 && Represents(f, buf, cs) && |buf| < Start(Index(at, cs), cs) && Index(at, cs) <= k
    ensures k !in f.chunks
  {
    StartsGrow(Index(at, cs), k, cs);
    hide Start, Index;
  }

  lemma PastTheEnd(size: nat, k: nat, cs: nat)
    requires cs > 0 && size > 0 && Index(size - 1, cs) < k
    ensures size <= Start(k, cs)
  {
    ChunkOf(size - 1, cs);
    NextStart(Index(size - 1, cs), cs);
    hide Start, Index;
    StartsGrow(Index(size - 1, cs) + 1, k, cs);
  }

  lemma SliceIsSpan(buf: Bytes, k: nat, cs: nat)
    requires Start(k, cs) <= |buf|
    ensures Slice(buf, k, cs) == Span(buf, k, k + 1, cs)
  {
    hide Start;
    NextStart(k, cs);
  }

  lemma NothingSpanned(buf: Bytes, k: nat, cs: nat)
    requires |buf| <= Start(k, cs)
    ensures Span(buf, k, k + 1, cs) == []
  {
    hide Start;
    NextStart(k, cs);
  }

  lemma AssembleAfterHole(f: File, buf: Bytes, at: nat, data: Bytes, cs: nat, lo: nat, hi: nat)
    requires Leaves(f, buf, at, data, cs) && Index(at, cs) <= lo <= hi
    ensures Assemble(Write(f, at, data, cs).chunks, lo, hi) == Span(FlatWrite(buf, at, data), lo, hi, cs)
    decreases hi
  {
    hide Start, Index, Represents, Write, FlatWrite, ChunkRow, Leaves;
    if lo < hi {
      AssembleAfterHole(f, buf, at, data, cs, lo, hi - 1);
      RowsAfterHole(f, buf, at, data, cs, hi - 1);
      assert cs > 0 by { LeavesMeans(f, buf, at, data, cs); }
      SpanSplit(FlatWrite(buf, at, data), lo, hi - 1, hi, cs);
    }
  }

  lemma LeavesMeans(f: File, buf: Bytes, at: nat, data: Bytes, cs: nat)
    requires Leaves(f, buf, at, data, cs)
    ensures cs > 0 && data != [] && Represents(f, buf, cs) && Index(|buf|, cs) < Index(at, cs)
  {
  }

  // The rows lo..hi-1 put together: the bytes before the hole, and right after them those
  // of the flat buffer from the first written chunk on.
  lemma AssembleAcross(f: File, buf: Bytes, at: nat, data: Bytes, cs: nat, lo: nat, hi: nat)
    requires Leaves(f, buf, at, data, cs) && lo <= hi && lo <= Index(at, cs)
    ensures var w := Index(at, cs);
      Assemble(Write(f, at, data, cs).chunks, lo, hi) ==
        if hi <= w then Span(buf, lo, hi, cs) else Span(buf, lo, w, cs) + Span(FlatWrite(buf, at, data), w, hi, cs)
  {
    LeavesMeans(f, buf, at, data, cs);
    hide Start, Index, Represents, FlatWrite, ChunkRow, Leaves, Covered, WriteChunks;
    var w, t := Index(at, cs), Write(f, at, data, cs).chunks;
    WrittenFrom(f.chunks, at, data, cs);
    var mid := if hi <= w then hi else w;
    AssembleSame(t, f.chunks, lo, mid);
    AssembleSpan(f, buf, lo, mid, cs);
    if w < hi {
      AssembleSplit(t, lo, w, hi);
      AssembleAfterHole(f, buf, at, data, cs, w, hi);
    }
  }

  // The last chunk a read selects, and how many bytes it gets from the written chunks.
  function LastChunkRead(at: nat, data: Bytes, offset: nat, n: nat, cs: nat): nat
    requires cs > 0
  {
    Index(Monus(Min(offset + n, at + |data|), 1), cs)
  }

  function WrittenRead(at: nat, data: Bytes, offset: nat, n: nat, cs: nat): int
    requires cs > 0
  {
    var last := LastChunkRead(at, data, offset, n, cs);
    if last < Index(at, cs) then 0 else Min(Start(last + 1, cs), at + |data|) - Start(Index(at, cs), cs)
  }

  lemma SpanLength(buf: Bytes, lo: nat, hi: nat, cs: nat)
    requires lo <= hi
    ensures Start(lo, cs) <= Start(hi, cs)
    ensures |Span(buf, lo, hi, cs)| == Min(Start(hi, cs), |buf|) - Min(Start(lo, cs), |buf|)
  {
    hide Start;
    StartsGrow(lo, hi, cs);
  }

  // The bytes assembled, but for those a read never gets to.
  lemma AcrossLength(f: File, buf: Bytes, at: nat, data: Bytes, offset: nat, last: nat, cs: nat)
    requires Leaves(f, buf, at, data, cs) && Index(offset, cs) < Index(at, cs)
    requires Index(offset, cs) <= last + 1 && (Within(offset, cs) != 0 ==> Index(offset, cs) <= last)
    ensures var a := Assemble(Write(f, at, data, cs).chunks, Index(offset, cs), last + 1);
      var written := if last < Index(at, cs) then 0
        else Min(Start(last + 1, cs), at + |data|) - Start(Index(at, cs), cs);
      |a| < Within(offset, cs) <==> Monus(|buf|, Start(Index(offset, cs), cs)) + written < Within(offset, cs)
  {
    hide Start, Index, Within, Represents, FlatWrite, Write, Leaves, Assemble, Span;
    LeavesMeans(f, buf, at, data, cs);
    var first, w := Index(offset, cs), Index(at, cs);
    HoleBounds(f, buf, at, data, cs);
    AssembleAcross(f, buf, at, data, cs, first, last + 1);
    ChunkOf(offset, cs);
    NextStart(first, cs);
    if last < w {
      SpanLength(buf, first, last + 1, cs);
      if first <= last { StartsGrow(first + 1, last + 1, cs); }
    } else {
      SpanLength(buf, first, w, cs);
      SpanLength(FlatWrite(buf, at, data), w, last + 1, cs);
    }
  }

  // After a write beyond a hole a read panics if and only if it starts in a chunk before
  // the written ones, and the bytes that its rows hold before and after the hole are fewer
  // than those in front of its offset in that chunk.
  lemma GapReadPanicsIff(f: File, buf: Bytes, at: nat, data: Bytes, offset: nat, n: nat, cs: nat)
    requires Leaves(f, buf, at, data, cs)
    ensures Read(Write(f, at, data, cs), offset, n, cs) == Panic <==>
      && offset < at + |data| && Index(offset, cs) < Index(at, cs)
      && Monus(|buf|, Start(Index(offset, cs), cs)) + WrittenRead(at, data, offset, n, cs) < Within(offset, cs)
  {
    hide Start, Index, Within, Represents, Write, FlatWrite, Leaves, Covered, Cut, Read, Assemble;
    LeavesMeans(f, buf, at, data, cs);
    HoleBounds(f, buf, at, data, cs);
    var g := Write(f, at, data, cs);
    if offset >= g.size {
      BeyondEnd(g, offset, n, cs);
    } else if Index(at, cs) <= Index(offset, cs) {
      AfterHoleRight(f, buf, at, data, offset, n, cs);
    } else {
      var last := LastChunkRead(at, data, offset, n, cs);
      ReadIsCut(g, offset, n, cs);
      LastRead(offset, Min(offset + n, g.size), cs);
      AcrossLength(f, buf, at, data, offset, last, cs);
      CutPanicsIff(Assemble(g.chunks, Index(offset, cs), last + 1), Within(offset, cs), n, g.size - offset);
    }
  }

  lemma BeyondEnd(g: File, offset: nat, n: nat, cs: nat)
    requires cs > 0 && g.size <= offset
    ensures Read(g, offset, n, cs) == ReadResult.Bytes([])
  {
  }

  // Reads that start in a written chunk are right.
  lemma AfterHoleRight(f: File, buf: Bytes, at: nat, data: Bytes, offset: nat, n: nat, cs: nat)
    requires Leaves(f, buf, at, data, cs) && Index(at, cs) <= Index(offset, cs)
    ensures Read(Write(f, at, data, cs), offset, n, cs)
      == ReadResult.Bytes(FlatRead(FlatWrite(buf, at, data), offset, n))
  {
    hide Start, Index, Within, Represents, FlatWrite, FlatRead, Leaves, Covered, Assemble, Write, Read, Replace, Span;
    LeavesMeans(f, buf, at, data, cs);
    HoleBounds(f, buf, at, data, cs);
    var g, flat := Write(f, at, data, cs), FlatWrite(buf, at, data);
    var h, first, last := Replace(flat, cs), Index(offset, cs), Index(Monus(Min(offset + n, g.size), 1), cs);
    ReplaceRefines(flat, cs);
    ReplacedSize(flat, cs);
    if offset < g.size {
      LastRead(offset, Min(offset + n, g.size), cs);
      AssembleAfterHole(f, buf, at, data, cs, first, last + 1);
      AssembleSpan(h, flat, first, last + 1, cs);
      SameAssembled(g, h, offset, n, cs);
    } else {
      BeyondEnd(g, offset, n, cs);
      BeyondEnd(h, offset, n, cs);
    }
    ReadRefines(h, flat, offset, n, cs);
  }

  lemma ReplacedSize(content: Bytes, cs: nat)
    requires cs > 0
    ensures Replace(content, cs).size == |content|
  {
    ReplaceRefines(content, cs);
  }

  lemma SameAssembled(g: File, h: File, offset: nat, n: nat, cs: nat)
    requires cs > 0 && g.size == h.size
    requires var first, last := Index(offset, cs), Index(Monus(Min(offset + n, g.size), 1), cs);
      Assemble(g.chunks, first, last + 1) == Assemble(h.chunks, first, last + 1)
    ensures Read(g, offset, n, cs) == Read(h, offset, n, cs)
  {
    hide Start, Index, Assemble;
  }

  // ---- Reads that return wrong bytes --------------------------------------------------------------

  // How far the bytes after the hole have moved up, seen from a read at `offset`.
  function Shift(size: nat, at: nat, offset: nat, cs: nat): int
    requires cs > 0
  {
    Start(Index(at, cs), cs) - Max(size, Start(Index(offset, cs), cs))
  }

  // The read gets all bytes it asks for although it reaches across the hole, since enough
  // follow it in the last chunk, and they are the ones the flat buffer has further up.
  ghost predicate HappensToAgree(buf: Bytes, flat: Bytes, at: nat, offset: nat, end: nat, last: nat, cs: nat)
    requires cs > 0 && end <= |flat|
  {
    var h := Shift(|buf|, at, offset, cs);
    && Index(at, cs) <= last && end + h <= Min(Start(last + 1, cs), |flat|)
    && forall i: nat :: Max(offset, |buf|) <= i < end && 0 <= i + h < |flat| ==> flat[i + h] == flat[i]
  }

  // Assembled across the hole: the byte of the flat buffer at `i`, or for one beyond the old
  // end that which lies further up.
  lemma AcrossBytes(buf: Bytes, flat: Bytes, first: nat, w: nat, hi: nat, cs: nat)
    requires first <= w <= hi && |buf| <= |flat| && |buf| < Start(w, cs) <= |flat|
    ensures Start(first, cs) <= Start(w, cs) <= Start(hi, cs)
    ensures var a, s := Span(buf, first, w, cs) + Span(flat, w, hi, cs), Start(first, cs);
      var up := Max(|buf|, s);
      && |a| == up - s + Min(Start(hi, cs), |flat|) - Start(w, cs)
      && (forall j :: 0 <= j < |a| && s + j < up ==> a[j] == buf[s + j])
      && (forall j :: 0 <= j < |a| && up <= s + j ==> a[j] == flat[s + j + Start(w, cs) - up])
  {
    hide Start;
    StartsGrow(first, w, cs);
    StartsGrow(w, hi, cs);
  }

  // Bytes up to position `up`, and right after them those from `up + h` on.
  lemma JoinedIff(a: Bytes, flat: Bytes, from: nat, up: nat, h: nat, top: nat, offset: nat, end: nat)
    requires from <= up && from <= offset <= end <= |flat| && up + h <= top <= |flat|
    requires |a| == top - from - h
    requires forall j :: 0 <= j < |a| ==> a[j] == if from + j < up then flat[from + j] else flat[from + j + h]
    ensures (end - from <= |a| && a[offset - from..end - from] == flat[offset..end]) <==>
      end + h <= top && forall i: nat :: Max(offset, up) <= i < end && i + h < |flat| ==> flat[i + h] == flat[i]
  {
    if end - from <= |a| {
      SliceIff(a, offset - from, flat, offset, end);
      forall i: nat | offset <= i < end ensures a[i - from] == if i < up then flat[i] else flat[i + h] {
        assert a[i - from] == a[offset - from + i - offset];
      }
    }
  }

  lemma AcrossRightIff(buf: Bytes, flat: Bytes, at: nat, offset: nat, end: nat, last: nat, cs: nat)
    requires cs > 0 && |buf| < Start(Index(at, cs), cs) <= |flat| && offset <= end <= |flat|
    requires forall i :: 0 <= i < |buf| ==> |buf| <= |flat| && flat[i] == buf[i]
    requires Index(offset, cs) < Index(at, cs) <= last
    ensures var a := Span(buf, Index(offset, cs), Index(at, cs), cs) + Span(flat, Index(at, cs), last + 1, cs);
      var local := Within(offset, cs);
      (local + (end - offset) <= |a| && a[local..local + (end - offset)] == flat[offset..end]) <==>
        HappensToAgree(buf, flat, at, offset, end, last, cs)
  {
    hide Start, Index, Within, Span;
    var first, w := Index(offset, cs), Index(at, cs);
    ChunkOf(offset, cs);
    AcrossBytes(buf, flat, first, w, last + 1, cs);
    NextStart(first, cs);
    StartsGrow(first + 1, w, cs);
    var a, s := Span(buf, first, w, cs) + Span(flat, w, last + 1, cs), Start(first, cs);
    var up := Max(|buf|, s);
    JoinedIff(a, flat, s, up, Start(w, cs) - up, Min(Start(last + 1, cs), |flat|), offset, end);
  }

  lemma SliceIff(a: Bytes, local: nat, b: Bytes, offset: nat, end: nat)
    requires offset <= end <= |b| && local + (end - offset) <= |a|
    ensures a[local..local + (end - offset)] == b[offset..end] <==>
      forall i: nat :: offset <= i < end ==> a[local + i - offset] == b[i]
  {
    var x, y := a[local..local + (end - offset)], b[offset..end];
    if x == y {
      forall i: nat | offset <= i < end ensures a[local + i - offset] == b[i] {
        assert x[i - offset] == y[i - offset];
      }
    }
  }

  // A read that ends before the written chunks is right if all it asks for was there before.
  lemma BeforeRightIff(buf: Bytes, flat: Bytes, offset: nat, end: nat, cs: nat)
    requires cs > 0 && offset <= end <= |flat| && |buf| <= |flat|
    requires forall i :: 0 <= i < |buf| ==> flat[i] == buf[i]
    requires Index(offset, cs) <= Index(Monus(end, 1), cs) + 1
    requires Within(offset, cs) != 0 ==> Index(offset, cs) <= Index(Monus(end, 1), cs)
    ensures var a := Span(buf, Index(offset, cs), Index(Monus(end, 1), cs) + 1, cs);
      var local := Within(offset, cs);
      (local + (end - offset) <= |a| && a[local..local + (end - offset)] == flat[offset..end]) <==>
        end <= |buf| || (end == offset && !InHole(|buf|, offset, cs))
  {
    var first, last, local := Index(offset, cs), Index(Monus(end, 1), cs), Within(offset, cs);
    ChunkOf(offset, cs);
    ChunkOf(Monus(end, 1), cs);
    NextStart(last, cs);
    SpanLength(buf, first, last + 1, cs);
    if end == offset {
      SpanShort(buf, offset, last + 1, cs);
      hide Start, Index, Within, Span, InHole;
      EmptySlices(Span(buf, first, last + 1, cs), flat, local, offset);
      NotInHole(|buf|, offset, cs);
    } else {
      var s := Start(first, cs);
      assert Span(buf, first, last + 1, cs) == buf[Min(s, |buf|)..Min(Start(last + 1, cs), |buf|)];
      hide Start, Index, Within, Span;
      if end <= |buf| {
        SliceOfSlice(buf, s, Min(Start(last + 1, cs), |buf|), offset, end);
        assert buf[offset..end] == flat[offset..end];
      }
    }
  }

  lemma NotInHole(size: nat, offset: nat, cs: nat)
    requires cs > 0
    ensures offset <= size ==> !InHole(size, offset, cs)
  {
  }

  lemma EmptySlices(a: Bytes, b: Bytes, i: nat, j: nat)
    requires j <= |b|
    ensures i <= |a| ==> a[i..i] == b[j..j]
  {
  }

  // After a write beyond a hole a read returns what the flat buffer does if and only if it
  // starts in a written chunk or past the end, or asks only for bytes from before, or for
  // none and does not panic, or happens to find the right bytes further up.
  lemma GapReadRightIff(f: File, buf: Bytes, at: nat, data: Bytes, offset: nat, n: nat, cs: nat)
    requires Leaves(f, buf, at, data, cs)
    ensures |FlatWrite(buf, at, data)| == at + |data|
    ensures var flat, end := FlatWrite(buf, at, data), Min(offset + n, at + |data|);
      Read(Write(f, at, data, cs), offset, n, cs) == ReadResult.Bytes(FlatRead(flat, offset, n)) <==>
        || at + |data| <= offset || Index(at, cs) <= Index(offset, cs)
        || end <= |buf| || (n == 0 && !InHole(|buf|, offset, cs))
        || HappensToAgree(buf, flat, at, offset, end, LastChunkRead(at, data, offset, n, cs), cs)
  {
    hide Start, Index, Within, Represents, Write, FlatWrite, FlatRead, Leaves, Covered, Cut, Read, Assemble, InHole,
      HappensToAgree, Span;
    LeavesMeans(f, buf, at, data, cs);
    HoleBounds(f, buf, at, data, cs);
    var g, flat, end := Write(f, at, data, cs), FlatWrite(buf, at, data), Min(offset + n, at + |data|);
    FlatReadIs(flat, offset, n);
    if offset >= g.size {
      BeyondEnd(g, offset, n, cs);
    } else if Index(at, cs) <= Index(offset, cs) {
      AfterHoleRight(f, buf, at, data, offset, n, cs);
    } else {
      GapReadIff(f, buf, at, data, offset, n, cs);
    }
  }

  lemma FlatReadIs(buf: Bytes, offset: nat, n: nat)
    ensures FlatRead(buf, offset, n) == if |buf| <= offset then [] else buf[offset..Min(offset + n, |buf|)]
  {
  }

  lemma GapReadIff(f: File, buf: Bytes, at: nat, data: Bytes, offset: nat, n: nat, cs: nat)
    requires Leaves(f, buf, at, data, cs) && offset < at + |data| && Index(offset, cs) < Index(at, cs)
    ensures |FlatWrite(buf, at, data)| == at + |data|
    ensures var flat, end := FlatWrite(buf, at, data), Min(offset + n, at + |data|);
      Read(Write(f, at, data, cs), offset, n, cs) == ReadResult.Bytes(flat[offset..end]) <==>
        || end <= |buf| || (n == 0 && !InHole(|buf|, offset, cs))
        || HappensToAgree(buf, flat, at, offset, end, LastChunkRead(at, data, offset, n, cs), cs)
  {
    hide Start, Index, Within, Represents, Write, FlatWrite, Leaves, Covered, Cut, Read, Assemble, InHole,
      HappensToAgree, Span;
    LeavesMeans(f, buf, at, data, cs);
    HoleBounds(f, buf, at, data, cs);
    var g, flat, end := Write(f, at, data, cs), FlatWrite(buf, at, data), Min(offset + n, at + |data|);
    var last := Index(Monus(end, 1), cs);
    ReadIsCut(g, offset, n, cs);
    LastRead(offset, end, cs);
    AssembleAcross(f, buf, at, data, cs, Index(offset, cs), last + 1);
    CutIsIff(Assemble(g.chunks, Index(offset, cs), last + 1), Within(offset, cs), n, g.size - offset,
      flat[offset..end]);
    if last < Index(at, cs) {
      NoAgreement(buf, flat, at, offset, end, last, cs);
      BeforeRightIff(buf, flat, offset, end, cs);
    } else {
      ReachesWritten(|buf|, at, offset, end, cs);
      AcrossRightIff(buf, flat, at, offset, end, last, cs);
    }
  }

  lemma NoAgreement(buf: Bytes, flat: Bytes, at: nat, offset: nat, end: nat, last: nat, cs: nat)
    requires cs > 0 && end <= |flat| && last < Index(at, cs)
    ensures !HappensToAgree(buf, flat, at, offset, end, last, cs)
  {
  }

  lemma ReachesWritten(size: nat, at: nat, offset: nat, end: nat, cs: nat)
    requires cs > 0 && size < Start(Index(at, cs), cs) && offset <= end
    requires Index(offset, cs) < Index(at, cs) <= Index(Monus(end, 1), cs)
    ensures size < end && offset < end
  {
    ChunkOf(Monus(end, 1), cs);
    IndexGrows(Monus(offset, 1), offset, cs);
    hide Start, Index;
    StartsGrow(Index(at, cs), Index(Monus(end, 1), cs), cs);
  }

  // After a truncation that grew the file a read is right if and only if it starts past the
  // end, asks only for bytes from before, or for none and does not panic.
  lemma GrownReadRightIff(f: File, buf: Bytes, size: nat, offset: nat, n: nat, cs: nat)
    requires cs > 0 && Represents(f, buf, cs) && |buf| < size
    ensures var want := ReadResult.Bytes(FlatRead(FlatTruncate(buf, size), offset, n));
      Read(Truncate(f, size, cs), offset, n, cs) == want <==>
      size <= offset || Min(offset + n, size) <= |buf| || (n == 0 && !InHole(|buf|, offset, cs))
  {
    hide Start, Index, Within, Represents, FlatRead, Cut, Read, Assemble, InHole, Span, Truncate;
    GrowingTruncate(f, buf, size, cs);
    var g, flat, end := File(f.chunks, size), FlatTruncate(buf, size), Min(offset + n, size);
    FlatReadIs(flat, offset, n);
    if size <= offset {
      BeyondEnd(g, offset, n, cs);
    } else {
      var first, last := Index(offset, cs), Index(Monus(end, 1), cs);
      ReadIsCut(g, offset, n, cs);
      LastRead(offset, end, cs);
      AssembleSpan(f, buf, first, last + 1, cs);
      CutIsIff(Assemble(f.chunks, first, last + 1), Within(offset, cs), n, size - offset, flat[offset..end]);
      BeforeRightIff(buf, flat, offset, end, cs);
    }
  }

  // A read that returns other bytes without a word: the first of them are missing, and the
  // bytes written two chunks on come back as if they were here, where the buffer has zeros.
  lemma ShiftedRead(data: Bytes, cs: nat)
    requires |data| == cs > 1
    ensures Read(Write(EMPTY_FILE, 2 * cs, data, cs), cs + 1, 2 * cs - 1, cs) == ReadResult.Bytes(data[1..])
    ensures FlatRead(FlatWrite([], 2 * cs, data), cs + 1, 2 * cs - 1) == Zeros(cs - 1) + data
  {
    hide Start, Index, Within, Represents, Write, FlatWrite, FlatRead, Covered, Read, Assemble, Span, Zeros;
    ThreeChunks(cs);
    EmptyLeaves(data, cs);
    hide Leaves;
    var g, flat := Write(EMPTY_FILE, 2 * cs, data, cs), FlatWrite([], 2 * cs, data);
    HoleBounds(EMPTY_FILE, [], 2 * cs, data, cs);
    AssembleAcross(EMPTY_FILE, [], 2 * cs, data, cs, 1, 3);
    ReadIsCut(g, cs + 1, 2 * cs - 1, cs);
    WrittenTail(data, cs);
    FlatReadIs(flat, cs + 1, 2 * cs - 1);
  }

  lemma ThreeChunks(cs: nat)
    requires cs > 1
    ensures Index(0, cs) == 0 && Index(cs + 1, cs) == 1 && Within(cs + 1, cs) == 1
    ensures Index(2 * cs, cs) == 2 && Index(3 * cs - 1, cs) == 2
    ensures Start(1, cs) == cs && Start(2, cs) == 2 * cs && Start(3, cs) == 3 * cs
  {
    NextStart(0, cs);
    NextStart(1, cs);
    NextStart(2, cs);
    hide Start;
    IndexUnique(0, 0, cs);
    IndexUnique(cs + 1, 1, cs);
    IndexUnique(2 * cs, 2, cs);
    IndexUnique(3 * cs - 1, 2, cs);
    ChunkOf(cs + 1, cs);
  }

  lemma EmptyLeaves(data: Bytes, cs: nat)
    requires |data| == cs > 1
    ensures Leaves(EMPTY_FILE, [], 2 * cs, data, cs)
  {
    ThreeChunks(cs);
    hide Index;
  }

  lemma WrittenTail(data: Bytes, cs: nat)
    requires |data| == cs > 1
    ensures var flat := FlatWrite([], 2 * cs, data);
      |flat| == 3 * cs && flat[cs + 1..] == Zeros(cs - 1) + data
    ensures Start(1, cs) == cs && Start(2, cs) == 2 * cs && Start(3, cs) == 3 * cs
    ensures Span([], 1, 2, cs) + Span(FlatWrite([], 2 * cs, data), 2, 3, cs) == data
  {
    hide FlatWrite, Start, Span;
    ThreeChunks(cs);
    var flat := FlatWrite([], 2 * cs, data);
    FlatWriteMeaning([], 2 * cs, data);
    assert flat[cs + 1..] == Zeros(cs - 1) + data;
    assert flat[2 * cs..] == data;
    Spanned([], 1, 2, cs);
    Spanned(flat, 2, 3, cs);
  }

  lemma Spanned(buf: Bytes, lo: nat, hi: nat, cs: nat)
    requires lo <= hi
    ensures Start(lo, cs) <= Start(hi, cs)
    ensures Span(buf, lo, hi, cs) == buf[Min(Start(lo, cs), |buf|)..Min(Start(hi, cs), |buf|)]
  {
    hide Start;
    StartsGrow(lo, hi, cs);
  }

  // ---- Writes that fill the hole -------------------------------------------------------------------

  // A write of `more` at `o` that starts no later than in the chunk the file ended in, and
  // ends no earlier than where the chunks after the hole start.
  predicate Fills(size: nat, at: nat, o: nat, more: Bytes, cs: nat)
    requires cs > 0
  {
    Index(o, cs) <= Index(size, cs) && Start(Index(at, cs), cs) <= o + |more|
  }

  lemma KeysAfterHole(f: File, buf: Bytes, at: nat, data: Bytes, cs: nat, k: nat)
    requires Leaves(f, buf, at, data, cs)
    ensures Index(at, cs) <= k ==> (k in Write(f, at, data, cs).chunks <==> Start(k, cs) < at + |data|)
    ensures k < Index(at, cs) ==> (k in Write(f, at, data, cs).chunks <==> Start(k, cs) < |buf|)
  {
    hide Start, Index, Leaves, MergeRange, MergeChunk, Covered, Slice;
    LeavesMeans(f, buf, at, data, cs);
    HoleBounds(f, buf, at, data, cs);
    var last := Index(at + |data| - 1, cs);
    IndexGrows(at, at + |data| - 1, cs);
    MergeRangeRows(f.chunks, Index(at, cs), last + 1, at, data, cs);
    if Index(at, cs) <= k {
      NoRowThere(f, buf, at, k, cs);
      if last < k { PastTheEnd(at + |data|, k, cs); } else { InTheFile(at + |data|, k, cs); }
    }
  }

  lemma InTheFile(size: nat, k: nat, cs: nat)
    requires cs > 0 && size > 0 && k <= Index(size - 1, cs)
    ensures Start(k, cs) < size
  {
    ChunkOf(size - 1, cs);
    hide Start, Index;
    StartsGrow(k, Index(size - 1, cs), cs);
  }

  // Chunk k after both writes, where the second fills the hole.
  lemma FilledRow(f: File, buf: Bytes, at: nat, data: Bytes, o: nat, more: Bytes, cs: nat, k: nat)
    requires Leaves(f, buf, at, data, cs) && more != [] && Fills(|buf|, at, o, more, cs)
    ensures var full, t := FlatWrite(FlatWrite(buf, at, data), o, more), Write(Write(f, at, data, cs), o, more, cs);
      && (k in t.chunks <==> Start(k, cs) < |full|)
      && (k in t.chunks && Start(k, cs) < |full| ==> t.chunks[k] == Slice(full, k, cs))
  {
    hide Leaves, Covered, Represents, Slice, MergeChunk, MergeRange, FlatWrite, Span, Start, Index;
    LeavesMeans(f, buf, at, data, cs);
    HoleBounds(f, buf, at, data, cs);
    KeysAfterHole(f, buf, at, data, cs, k);
    var flat, g, last := FlatWrite(buf, at, data), Write(f, at, data, cs), Index(o + |more| - 1, cs);
    FlatWriteMeaning(flat, o, more);
    IndexGrows(o, o + |more| - 1, cs);
    MergeRangeRows(g.chunks, Index(o, cs), last + 1, o, more, cs);
    if k < Index(o, cs) {
      FilledBefore(f, buf, at, data, o, more, cs, k);
    } else if last < k {
      FilledAfter(f, buf, at, data, o, more, cs, k);
    } else if Index(at, cs) <= k {
      RowsAfterHole(f, buf, at, data, cs, k);
      InTheFile(o + |more|, k, cs);
      SpanRow(flat, k, cs);
      MergedRow(flat, k, o, more, cs);
    } else {
      FilledHole(f, buf, at, data, o, more, cs, k);
    }
  }

  lemma SpanRow(buf: Bytes, k: nat, cs: nat)
    ensures Span(buf, k, k + 1, cs) == if Start(k, cs) < |buf| then Slice(buf, k, cs) else []
  {
    hide Start;
    NextStart(k, cs);
  }

  lemma RowBeforeHole(f: File, buf: Bytes, at: nat, data: Bytes, cs: nat, k: nat)
    requires Leaves(f, buf, at, data, cs) && k < Index(at, cs)
    ensures ChunkRow(Write(f, at, data, cs).chunks, k) == Span(buf, k, k + 1, cs)
  {
    LeavesMeans(f, buf, at, data, cs);
    hide Leaves, Represents, Covered, Span, WriteChunks, Index, Start, ChunkRow;
    WrittenFrom(f.chunks, at, data, cs);
    RowIsSpan(f, buf, k, cs);
  }

  // Before the filling write the chunks are full.
  lemma FilledBefore(f: File, buf: Bytes, at: nat, data: Bytes, o: nat, more: Bytes, cs: nat, k: nat)
    requires Leaves(f, buf, at, data, cs) && more != [] && Fills(|buf|, at, o, more, cs) && k < Index(o, cs)
    ensures var full, g := FlatWrite(FlatWrite(buf, at, data), o, more), Write(f, at, data, cs);
      Start(k, cs) < |buf| <= |full| && k in g.chunks && g.chunks[k] == Slice(full, k, cs)
  {
    hide Leaves, Covered, Represents, WriteChunks, FlatWrite, Span, Slice, Start, Index;
    LeavesMeans(f, buf, at, data, cs);
    HoleBounds(f, buf, at, data, cs);
    FlatWriteMeaning(FlatWrite(buf, at, data), o, more);
    EndsBy(k, o, cs);
    EndsBy(k, |buf|, cs);
    NextStart(k, cs);
    RowBeforeHole(f, buf, at, data, cs, k);
    KeysAfterHole(f, buf, at, data, cs, k);
    SpanRow(buf, k, cs);
    SlicesSame(buf, FlatWrite(FlatWrite(buf, at, data), o, more), k, cs);
  }

  lemma EndsBy(k: nat, i: nat, cs: nat)
    requires cs > 0 && k < Index(i, cs)
    ensures Start(k, cs) + cs <= i
  {
    ChunkOf(i, cs);
    hide Start, Index;
    StartsGrow(k, Index(i, cs), cs);
  }

  lemma SlicesSame(a: Bytes, b: Bytes, k: nat, cs: nat)
    requires Start(k, cs) + cs <= |a| <= |b| && forall i :: Start(k, cs) <= i < Start(k, cs) + cs ==> a[i] == b[i]
    ensures Slice(a, k, cs) == Slice(b, k, cs)
  {
    hide Start;
  }

  // After it they are as the first write left them.
  lemma FilledAfter(f: File, buf: Bytes, at: nat, data: Bytes, o: nat, more: Bytes, cs: nat, k: nat)
    requires Leaves(f, buf, at, data, cs) && more != [] && Fills(|buf|, at, o, more, cs)
    requires Index(o + |more| - 1, cs) < k
    ensures var full, g := FlatWrite(FlatWrite(buf, at, data), o, more), Write(f, at, data, cs);
      && (k in g.chunks <==> Start(k, cs) < |full|)
      && (k in g.chunks && Start(k, cs) < |full| ==> g.chunks[k] == Slice(full, k, cs))
  {
    hide Leaves, Covered, Represents, WriteChunks, FlatWrite, Span, Start, Index;
    LeavesMeans(f, buf, at, data, cs);
    HoleBounds(f, buf, at, data, cs);
    FlatWriteMeaning(FlatWrite(buf, at, data), o, more);
    PastTheEnd(o + |more|, k, cs);
    BeyondStart(Index(at, cs), k, o + |more|, cs);
    RowsAfterHole(f, buf, at, data, cs, k);
    KeysAfterHole(f, buf, at, data, cs, k);
    SpanRow(FlatWrite(buf, at, data), k, cs);
    if Start(k, cs) < |FlatWrite(buf, at, data)| {
      assert Slice(FlatWrite(buf, at, data), k, cs) == Slice(FlatWrite(FlatWrite(buf, at, data), o, more), k, cs);
    }
  }

  lemma BeyondStart(w: nat, k: nat, end: nat, cs: nat)
    requires cs > 0 && end > 0 && Start(w, cs) <= end && Index(end - 1, cs) < k
    ensures w <= k
  {
    PastTheEnd(end, k, cs);
    ChunkOf(end - 1, cs);
    hide Start, Index;
    if k < w {
      NextStart(k, cs);
      StartsGrow(k + 1, w, cs);
    }
  }

  // A chunk of the hole is full now: old bytes, new bytes, and zeros between.
  lemma FilledHole(f: File, buf: Bytes, at: nat, data: Bytes, o: nat, more: Bytes, cs: nat, k: nat)
    requires Leaves(f, buf, at, data, cs) && more != [] && Fills(|buf|, at, o, more, cs)
    requires Index(o, cs) <= k <= Index(o + |more| - 1, cs) && k < Index(at, cs)
    ensures var full, g := FlatWrite(FlatWrite(buf, at, data), o, more), Write(f, at, data, cs);
      Start(k, cs) < |full| && MergeChunk(ChunkRow(g.chunks, k), k, o, more, cs) == Slice(full, k, cs)
  {
    hide Leaves, Covered, Represents, WriteChunks, FlatWrite, Span, Start, Index, MergeChunk, ChunkRow;
    LeavesMeans(f, buf, at, data, cs);
    HoleBounds(f, buf, at, data, cs);
    var flat := FlatWrite(buf, at, data);
    FlatWriteMeaning(flat, o, more);
    RowBeforeHole(f, buf, at, data, cs, k);
    SpanRow(buf, k, cs);
    NextStart(k, cs);
    StartsGrow(k + 1, Index(at, cs), cs);
    var row, full := Span(buf, k, k + 1, cs), FlatWrite(flat, o, more);
    MergeMeaning(row, k, o, more, cs);
    var r := MergeChunk(row, k, o, more, cs);
    assert |r| == cs == |Slice(full, k, cs)|;
    forall i | 0 <= i < cs ensures r[i] == Slice(full, k, cs)[i] {
      assert flat[Start(k, cs) + i] == if i < |row| then row[i] else 0;
    }
  }

  // The chunk the file ended in stays short where the second write starts after it.
  lemma StaysShort(f: File, buf: Bytes, at: nat, data: Bytes, o: nat, more: Bytes, cs: nat)
    requires Leaves(f, buf, at, data, cs) && more != [] && Index(|buf|, cs) < Index(o, cs)
    ensures var t, k := Write(Write(f, at, data, cs), o, more, cs), Index(|buf|, cs);
      |ChunkRow(t.chunks, k)| < cs
  {
    hide Leaves, Covered, Represents, WriteChunks, Span, Start, Index, ChunkRow;
    LeavesMeans(f, buf, at, data, cs);
    var k := Index(|buf|, cs);
    WrittenFrom(Write(f, at, data, cs).chunks, o, more, cs);
    RowBeforeHole(f, buf, at, data, cs, k);
    SpanLength(buf, k, k + 1, cs);
    ChunkOf(|buf|, cs);
    NextStart(k, cs);
  }

  // The last chunk of the hole stays short where the second write ends before its end.
  lemma EndsShort(f: File, buf: Bytes, at: nat, data: Bytes, o: nat, more: Bytes, cs: nat)
    requires Leaves(f, buf, at, data, cs) && more != [] && o + |more| < Start(Index(at, cs), cs)
    ensures Index(at, cs) > 0
    ensures |ChunkRow(Write(Write(f, at, data, cs), o, more, cs).chunks, Index(at, cs) - 1)| < cs
  {
    hide Leaves, Covered, Represents, MergeChunk, MergeRange, FlatWrite, Span, Start, Index;
    LeavesMeans(f, buf, at, data, cs);
    HoleBounds(f, buf, at, data, cs);
    NextStart(Index(at, cs) - 1, cs);
    var k, g, last := Index(at, cs) - 1, Write(f, at, data, cs), Index(o + |more| - 1, cs);
    RowBeforeHole(f, buf, at, data, cs, k);
    SpanLength(buf, k, k + 1, cs);
    IndexGrows(o, o + |more| - 1, cs);
    MergeRangeRows(g.chunks, Index(o, cs), last + 1, o, more, cs);
    if Index(o, cs) <= k <= last {
      MergeMeaning(ChunkRow(g.chunks, k), k, o, more, cs);
    }
  }

  lemma FullRow(f: File, buf: Bytes, k: nat, cs: nat)
    requires cs > 0 && Represents(f, buf, cs) && Start(k, cs) + cs <= |buf|
    ensures |ChunkRow(f.chunks, k)| == cs
  {
    hide Start;
  }

  // A later write mends the file if and only if it fills the hole: what it leaves are then
  // exactly the chunks of the flat buffer after both writes.
  lemma HoleFilledIff(f: File, buf: Bytes, at: nat, data: Bytes, o: nat, more: Bytes, cs: nat)
    requires Leaves(f, buf, at, data, cs) && more != []
    ensures var full, t := FlatWrite(FlatWrite(buf, at, data), o, more), Write(Write(f, at, data, cs), o, more, cs);
      && (Represents(t, full, cs) <==> Fills(|buf|, at, o, more, cs))
      && (Fills(|buf|, at, o, more, cs) ==> ReadAll(t) == full)
  {
    hide Leaves, Covered, Represents, WriteChunks, FlatWrite, Start, Index, ChunkRow, ReadAll;
    LeavesMeans(f, buf, at, data, cs);
    HoleBounds(f, buf, at, data, cs);
    FlatWriteMeaning(FlatWrite(buf, at, data), o, more);
    var full, t, k := FlatWrite(FlatWrite(buf, at, data), o, more), Write(Write(f, at, data, cs), o, more, cs),
      Index(|buf|, cs);
    if Fills(|buf|, at, o, more, cs) {
      forall j: nat
        ensures (j in t.chunks <==> Start(j, cs) < |full|)
          && (j in t.chunks && Start(j, cs) < |full| ==> t.chunks[j] == Slice(full, j, cs))
      {
        FilledRow(f, buf, at, data, o, more, cs, j);
      }
      assert Represents(t, full, cs) by { RowsRepresent(t, full, cs); }
      ReadAllRefines(t, full, cs);
    } else if k < Index(o, cs) {
      StaysShort(f, buf, at, data, o, more, cs);
      EndsBy(k, at, cs);
      if Represents(t, full, cs) { FullRow(t, full, k, cs); }
    } else {
      EndsShort(f, buf, at, data, o, more, cs);
      NextStart(Index(at, cs) - 1, cs);
      if Represents(t, full, cs) { FullRow(t, full, Index(at, cs) - 1, cs); }
    }
  }

  lemma RowsRepresent(f: File, buf: Bytes, cs: nat)
    requires f.size == |buf|
    requires forall j: nat :: j in f.chunks <==> Start(j, cs) < |buf|
    requires forall j: nat :: j in f.chunks && Start(j, cs) < |buf| ==> f.chunks[j] == Slice(buf, j, cs)
    ensures Represents(f, buf, cs)
  {
    hide Start, Slice;
  }
}
