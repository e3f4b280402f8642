// Files cut into fixed-size chunks (cache/file.rs) against the flat buffer they stand
// for (the in-memory handle of vfs/mem.rs). The functions say what each operation does
// to the chunk rows of one inode and to its size; `cs` is the chunk size.
module ChunkStore {
  import opened Basics

  // fs_data rows of one inode, by chunk index.
  type Chunks = map<nat, Bytes>

  datatype File = File(chunks: Chunks, size: nat)

  const EMPTY_FILE := File(map[], 0)

  function Zeros(n: nat): Bytes { seq(n, i => 0) }

  // `Vec::resize` with zeros.
  function Resize(b: Bytes, n: nat): Bytes {
    if |b| < n then b + Zeros(n - |b|) else b[..n]
  }

  function Monus(a: nat, b: nat): nat { if a < b then 0 else a - b }

  // ---- Chunk arithmetic ------------------------------------------------------------------

  function Index(i: nat, cs: nat): nat
    requires cs > 0
  {
    i / cs
  }

  function Within(i: nat, cs: nat): nat
    requires cs > 0
  {
    i % cs
  }

  function Start(k: nat, cs: nat): nat { k * cs }

  lemma ChunkOf(i: nat, cs: nat)
    requires cs > 0
    ensures Start(Index(i, cs), cs) <= i < Start(Index(i, cs), cs) + cs
    ensures Within(i, cs) == i - Start(Index(i, cs), cs)
  {
  }

  lemma NextStart(k: nat, cs: nat)
    ensures Start(k + 1, cs) == Start(k, cs) + cs
    ensures Start(0, cs) == 0
  {
  }

  lemma {:induction false} StartsGrow(j: nat, k: nat, cs: nat)
    requires j <= k
    ensures Start(j, cs) <= Start(k, cs)
    ensures j < k ==> Start(j, cs) + cs <= Start(k, cs)
    decreases k
  {
    if j < k {
      hide Start;
      StartsGrow(j, k - 1, cs);
      NextStart(k - 1, cs);
    }
  }

  lemma IndexUnique(i: nat, k: nat, cs: nat)
    requires cs > 0 && Start(k, cs) <= i < Start(k, cs) + cs
    ensures Index(i, cs) == k
  {
    ChunkOf(i, cs);
    hide Start, Index;
    if Index(i, cs) < k { StartsGrow(Index(i, cs), k, cs); }
    if k < Index(i, cs) { StartsGrow(k, Index(i, cs), cs); }
  }

  lemma IndexGrows(a: nat, b: nat, cs: nat)
    requires cs > 0 && a <= b
    ensures Index(a, cs) <= Index(b, cs)
  {
    ChunkOf(a, cs);
    ChunkOf(b, cs);
    hide Start, Index;
    if Index(b, cs) < Index(a, cs) { StartsGrow(Index(b, cs), Index(a, cs), cs); }
  }

  // ---- The flat buffer ------------------------------------------------------------

  function FlatRead(buf: Bytes, offset: nat, size: nat): Bytes {
    var start := Min(offset, |buf|);
    buf[start..Min(start + size, |buf|)]
  }

  function FlatWrite(buf: Bytes, offset: nat, data: Bytes): Bytes {
    var b := if offset + |data| > |buf| then Resize(buf, offset + |data|) else buf;
    b[..offset] + data + b[offset + |data|..]
  }

  function FlatTruncate(buf: Bytes, size: nat): Bytes { Resize(buf, size) }

  // ---- The chunked file -------------------------------------------------------------

  function ChunkRow(chunks: Chunks, k: nat): Bytes { if k in chunks then chunks[k] else [] }

  // Rows lo..hi-1 in index order, missing rows skipped.
  function Assemble(chunks: Chunks, lo: nat, hi: nat): Bytes
    decreases hi
  {
    if hi <= lo then [] else Assemble(chunks, lo, hi - 1) + ChunkRow(chunks, hi - 1)
  }

  // What `read` does: bytes, or a panic when the slice bounds are out of range.
  datatype ReadResult = Bytes(bytes: Bytes) | Panic

  function Read(f: File, offset: nat, size: nat, cs: nat): ReadResult
    requires cs > 0
  {
    if f.size == 0 || offset >= f.size then ReadResult.Bytes([])
    else
      var first := Index(offset, cs);
      var endByte := Min(offset + size, f.size);
      var last := Index(Monus(endByte, 1), cs);
      var assembled := Assemble(f.chunks, first, last + 1);
      var local := Monus(offset, Start(first, cs));
      var take := Min(Min(size, Monus(|assembled|, local)), f.size - offset);
      if local + take > |assembled| then Panic else ReadResult.Bytes(assembled[local..local + take])
  }

  // The row grown to `needed`, with as much of `data` as fits laid over from..to.
  function Splice(row: Bytes, needed: nat, from: nat, to: nat, data: Bytes, cs: nat): Bytes {
    var grown := if |row| < cs && |row| < needed then Resize(row, needed) else row;
    if from <= to && data != [] then
      var n := Min(to - from, |data|);
      var full := if |grown| < from + n then Resize(grown, from + n) else grown;
      full[..from] + data[..n] + full[from + n..]
    else grown
  }

  // One affected chunk: grown to where the write (or the chunk) ends, then overlaid.
  function MergeChunk(row: Bytes, k: nat, offset: nat, data: Bytes, cs: nat): Bytes
    requires cs > 0 && data != [] && k <= Index(offset + |data| - 1, cs)
  {
    var lastByte := offset + |data| - 1;
    ChunkOf(lastByte, cs);
    StartsGrow(k, Index(lastByte, cs), cs);
    NextStart(k, cs);
    var needed := if k == Index(lastByte, cs) then Min(Within(lastByte, cs) + 1, cs) else cs;
    var writeStart, dataStart := Monus(offset, Start(k, cs)), Monus(Start(k, cs), offset);
    var writeEnd := Min(Min(Start(k + 1, cs) - Start(k, cs), |data| - dataStart + writeStart), cs);
    Splice(row, needed, writeStart, writeEnd, data[dataStart..], cs)
  }

  // Rows lo..hi-1 merged in turn, the others kept.
  function MergeRange(chunks: Chunks, lo: nat, hi: nat, offset: nat, data: Bytes, cs: nat): Chunks
    requires cs > 0 && data != [] && hi <= Index(offset + |data| - 1, cs) + 1
    decreases hi
  {
    if hi <= lo then chunks
    else
      MergeRange(chunks, lo, hi - 1, offset, data, cs)
        [hi - 1 := MergeChunk(ChunkRow(chunks, hi - 1), hi - 1, offset, data, cs)]
  }

  // Rows first..last merged, the others kept.
  function WriteChunks(chunks: Chunks, offset: nat, data: Bytes, cs: nat): Chunks
    requires cs > 0 && data != []
  {
    var first, last := Index(offset, cs), Index(offset + |data| - 1, cs);
    MergeRange(chunks, first, last + 1, offset, data, cs)
  }

  function Write(f: File, offset: nat, data: Bytes, cs: nat): File
    requires cs > 0
  {
    if data == [] then f
    else File(WriteChunks(f.chunks, offset, data, cs), Max(offset + |data|, f.size))
  }

  function Truncate(f: File, size: nat, cs: nat): File
    requires cs > 0
  {
    if size == 0 then EMPTY_FILE
    else
      var last := Index(size - 1, cs);
      var kept := map k | k in f.chunks && k <= last :: f.chunks[k];
      var cut := Within(size, cs);
      File(if cut > 0 && last in kept && cut <= |kept[last]| then kept[last := kept[last][..cut]] else kept, size)
  }

  function Slice(buf: Bytes, k: nat, cs: nat): Bytes
    requires Start(k, cs) <= |buf|
  {
    buf[Start(k, cs)..Min(Start(k, cs) + cs, |buf|)]
  }

  // `write_content_to_ino`: the body cut into chunks from scratch, the first `n` of them.
  function Chop(content: Bytes, n: nat, cs: nat): Chunks
    requires cs > 0 && (n > 0 ==> Start(n - 1, cs) <= |content|)
  {
    if n == 0 then map[]
    else
      StartsGrow(Monus(n, 2), n - 1, cs);
      Chop(content, n - 1, cs)[n - 1 := Slice(content, n - 1, cs)]
  }

  // How many chunks `size` bytes fill.
  function ChunkCount(size: nat, cs: nat): nat
    requires cs > 0
  {
    if size == 0 then 0 else Index(size - 1, cs) + 1
  }

  function Replace(content: Bytes, cs: nat): File
    requires cs > 0
  {
    if content != [] then ChunkOf(|content| - 1, cs); File(Chop(content, ChunkCount(|content|, cs), cs), |content|)
    else EMPTY_FILE
  }

  // ---- Refinement ---------------------------------------------------------------------------

  // Chunk k is there exactly when it has a byte to hold, and holds its slice of `buf`.
  ghost predicate Represents(f: File, buf: Bytes, cs: nat) {
    && f.size == |buf|
    && (forall k: nat :: k in f.chunks <==> Start(k, cs) < |buf|)
    && (forall k :: k in f.chunks && Start(k, cs) < |buf| ==> f.chunks[k] == Slice(buf, k, cs))
  }

  // The part of `buf` from chunk lo up to chunk hi.
  function Span(buf: Bytes, lo: nat, hi: nat, cs: nat): Bytes
    requires lo <= hi
  {
    StartsGrow(lo, hi, cs);
    buf[Min(Start(lo, cs), |buf|)..Min(Start(hi, cs), |buf|)]
  }

  lemma SpanSplit(buf: Bytes, lo: nat, mid: nat, hi: nat, cs: nat)
    requires lo <= mid <= hi
    ensures Span(buf, lo, hi, cs) == Span(buf, lo, mid, cs) + Span(buf, mid, hi, cs)
  {
    hide Start;
    StartsGrow(lo, mid, cs);
    StartsGrow(mid, hi, cs);
  }

  lemma RowIsSpan(f: File, buf: Bytes, k: nat, cs: nat)
    requires cs > 0 && Represents(f, buf, cs)
    ensures ChunkRow(f.chunks, k) == Span(buf, k, k + 1, cs)
  {
    hide Start;
    NextStart(k, cs);
  }

  lemma {:induction false} AssembleSpan(f: File, buf: Bytes, lo: nat, hi: nat, cs: nat)
    requires cs > 0 && Represents(f, buf, cs) && lo <= hi
    ensures Assemble(f.chunks, lo, hi) == Span(buf, lo, hi, cs)
    decreases hi
  {
    hide Start, Represents, ChunkRow;
    if lo < hi {
      AssembleSpan(f, buf, lo, hi - 1, cs);
      RowIsSpan(f, buf, hi - 1, cs);
      SpanSplit(buf, lo, hi - 1, hi, cs);
    }
  }

  lemma SliceOfSlice(buf: Bytes, lo: nat, hi: nat, a: nat, b: nat)
    requires lo <= a <= b <= hi <= |buf|
    ensures buf[lo..hi][a - lo..b - lo] == buf[a..b]
  {
    forall i | 0 <= i < b - a ensures buf[lo..hi][a - lo..b - lo][i] == buf[a..b][i] {
      assert buf[lo..hi][a - lo + i] == buf[a + i];
    }
  }

  // A read inside the file, when the rows it selects span lo..hi of the buffer.
  lemma ReadInside(f: File, buf: Bytes, offset: nat, size: nat, cs: nat, lo: nat, endByte: nat, hi: nat)
    requires cs > 0 && f.size == |buf| && offset < |buf|
    requires lo == Start(Index(offset, cs), cs) && endByte == Min(offset + size, |buf|)
    requires lo <= offset <= endByte <= hi <= |buf|
    requires Assemble(f.chunks, Index(offset, cs), Index(Monus(endByte, 1), cs) + 1) == buf[lo..hi]
    ensures Read(f, offset, size, cs) == ReadResult.Bytes(FlatRead(buf, offset, size))
  {
    hide Start, Index, Assemble;
    SliceOfSlice(buf, lo, hi, offset, endByte);
  }

  // The rows a read selects, as a stretch of the buffer that covers the bytes asked for.
  lemma SelectedSpan(f: File, buf: Bytes, offset: nat, endByte: nat, cs: nat) returns (lo: nat, hi: nat)
    requires cs > 0 && Represents(f, buf, cs) && offset <= endByte <= |buf| && offset < |buf|
    ensures lo == Start(Index(offset, cs), cs) && lo <= offset <= endByte <= hi <= |buf|
    ensures Assemble(f.chunks, Index(offset, cs), Index(Monus(endByte, 1), cs) + 1) == buf[lo..hi]
  {
    hide Start, Index, Represents, Assemble;
    var first, last := Index(offset, cs), Index(Monus(endByte, 1), cs);
    lo, hi := Start(first, cs), Start(first, cs);
    ChunkOf(offset, cs);
    ChunkOf(Monus(endByte, 1), cs);
    NextStart(last, cs);
    if first <= last {
      StartsGrow(first, last + 1, cs);
      AssembleSpan(f, buf, first, last + 1, cs);
      hi := Min(Start(last + 1, cs), |buf|);
    } else {
      StartsGrow(last + 1, first, cs);
      AssembleNothing(f.chunks, first, last + 1);
    }
  }

  // Any read, at any offset and length, returns what the flat buffer returns.
  lemma ReadRefines(f: File, buf: Bytes, offset: nat, size: nat, cs: nat)
    requires cs > 0 && Represents(f, buf, cs)
    ensures Read(f, offset, size, cs) == ReadResult.Bytes(FlatRead(buf, offset, size))
  {
    if offset < |buf| {
      var lo, hi := SelectedSpan(f, buf, offset, Min(offset + size, |buf|), cs);
      ReadInside(f, buf, offset, size, cs, lo, Min(offset + size, |buf|), hi);
    }
  }

  lemma AssembleNothing(chunks: Chunks, lo: nat, hi: nat)
    requires hi <= lo
    ensures Assemble(chunks, lo, hi) == []
  {
  }

  // The byte a write leaves at position i of a file that held `before` there.
  function Overlaid(offset: nat, data: Bytes, i: nat, before: byte): byte {
    if offset <= i < offset + |data| then data[i - offset] else before
  }

  // What merging leaves in chunk k: its new length, and each byte.
  lemma MergeMeaning(row: Bytes, k: nat, offset: nat, data: Bytes, cs: nat)
    requires cs > 0 && data != [] && Index(offset, cs) <= k <= Index(offset + |data| - 1, cs) && |row| <= cs
    ensures var r, start := MergeChunk(row, k, offset, data, cs), Start(k, cs);
      && start < offset + |data| && offset < start + cs
      && |r| == Max(|row|, Min(cs, offset + |data| - start))
      && forall i :: 0 <= i < |r| ==> r[i] == Overlaid(offset, data, start + i, if i < |row| then row[i] else 0)
  {
    hide Start, Index, Within, Splice;
    var start, end, last := Start(k, cs), offset + |data|, Index(offset + |data| - 1, cs);
    ChunkOf(offset + |data| - 1, cs);
    ChunkOf(offset, cs);
    NextStart(k, cs);
    StartsGrow(k, last, cs);
    StartsGrow(Index(offset, cs), k, cs);
    var reach, from, skip := Min(cs, end - start), Monus(offset, start), Monus(start, offset);
    assert MergeChunk(row, k, offset, data, cs) == Splice(row, reach, from, reach, data[skip..], cs);
    SpliceMeaning(row, reach, from, data[skip..], cs);
  }

  lemma SpliceMeaning(row: Bytes, reach: nat, from: nat, data: Bytes, cs: nat)
    requires |row| <= cs && from < reach <= cs && reach - from <= |data|
    ensures var r := Splice(row, reach, from, reach, data, cs);
      && |r| == Max(|row|, reach)
      && forall i :: 0 <= i < |r| ==>
           r[i] == if from <= i < reach then data[i - from] else if i < |row| then row[i] else 0
  {
  }

  lemma {:induction false} MergeRangeRows(chunks: Chunks, lo: nat, hi: nat, offset: nat, data: Bytes, cs: nat)
    requires cs > 0 && data != [] && hi <= Index(offset + |data| - 1, cs) + 1
    ensures var t := MergeRange(chunks, lo, hi, offset, data, cs);
      && (forall k: nat :: k in t <==> k in chunks || lo <= k < hi)
      && (forall k: nat :: lo <= k < hi ==> t[k] == MergeChunk(ChunkRow(chunks, k), k, offset, data, cs))
      && (forall k: nat :: k in chunks && !(lo <= k < hi) ==> t[k] == chunks[k])
    decreases hi
  {
    hide Index, MergeChunk;
    if lo < hi {
      MergeRangeRows(chunks, lo, hi - 1, offset, data, cs);
    }
  }

  lemma FlatWriteMeaning(buf: Bytes, offset: nat, data: Bytes)
    ensures var t := FlatWrite(buf, offset, data);
      && |t| == Max(|buf|, offset + |data|)
      && forall i :: 0 <= i < |t| ==> t[i] == Overlaid(offset, data, i, if i < |buf| then buf[i] else 0)
  {
  }

  // A write starts inside the file's last chunk or right after it: no earlier chunk has
  // to grow. An empty write is ignored here, but the flat buffer still grows to its offset.
  predicate Covered(size: nat, offset: nat, data: Bytes, cs: nat)
    requires cs > 0
  {
    if data == [] then offset <= size else Index(offset, cs) <= Index(size, cs)
  }

  lemma MergedRow(buf: Bytes, k: nat, offset: nat, data: Bytes, cs: nat)
    requires cs > 0 && data != [] && Index(offset, cs) <= k <= Index(offset + |data| - 1, cs)
    ensures var row := if Start(k, cs) < |buf| then Slice(buf, k, cs) else [];
      && Start(k, cs) < |FlatWrite(buf, offset, data)|
      && MergeChunk(row, k, offset, data, cs) == Slice(FlatWrite(buf, offset, data), k, cs)
  {
    hide Start, Index, MergeChunk, FlatWrite;
    MergeMeaning(if Start(k, cs) < |buf| then Slice(buf, k, cs) else [], k, offset, data, cs);
    FlatWriteMeaning(buf, offset, data);
  }

  lemma KeptRow(buf: Bytes, k: nat, offset: nat, data: Bytes, cs: nat)
    requires cs > 0 && data != [] && Covered(|buf|, offset, data, cs)
    requires k < Index(offset, cs) || Index(offset + |data| - 1, cs) < k
    requires Start(k, cs) < |buf|
    ensures Start(k, cs) < |FlatWrite(buf, offset, data)|
    ensures Slice(FlatWrite(buf, offset, data), k, cs) == Slice(buf, k, cs)
  {
    hide Start, Index, FlatWrite;
    FlatWriteMeaning(buf, offset, data);
    ChunkOf(offset, cs);
    ChunkOf(offset + |data| - 1, cs);
    ChunkOf(|buf|, cs);
    if k < Index(offset, cs) {
      StartsGrow(k, Index(offset, cs), cs);
      StartsGrow(k, Index(|buf|, cs), cs);
    } else {
      StartsGrow(Index(offset + |data| - 1, cs), k, cs);
    }
  }

  lemma WrittenKeys(f: File, buf: Bytes, k: nat, offset: nat, data: Bytes, cs: nat)
    requires cs > 0 && data != [] && Represents(f, buf, cs) && Covered(|buf|, offset, data, cs)
    ensures k in Write(f, offset, data, cs).chunks <==> Start(k, cs) < Max(|buf|, offset + |data|)
  {
    hide Start, Index, MergeChunk, MergeRange;
    var first, last := Index(offset, cs), Index(offset + |data| - 1, cs);
    IndexGrows(offset, offset + |data| - 1, cs);
    MergeRangeRows(f.chunks, first, last + 1, offset, data, cs);
    ChunkOf(offset + |data| - 1, cs);
    ChunkOf(|buf|, cs);
    if first <= k <= last {
      StartsGrow(k, last, cs);
    } else if last < k {
      StartsGrow(last, k, cs);
    } else {
      StartsGrow(k, Index(|buf|, cs), cs);
    }
  }

  lemma WrittenRow(f: File, buf: Bytes, k: nat, offset: nat, data: Bytes, cs: nat)
    requires cs > 0 && data != [] && Represents(f, buf, cs) && Covered(|buf|, offset, data, cs)
    requires k in Write(f, offset, data, cs).chunks && Start(k, cs) < |FlatWrite(buf, offset, data)|
    ensures Write(f, offset, data, cs).chunks[k] == Slice(FlatWrite(buf, offset, data), k, cs)
  {
    hide Start, Index, MergeChunk, MergeRange, FlatWrite, Slice;
    var first, last := Index(offset, cs), Index(offset + |data| - 1, cs);
    MergeRangeRows(f.chunks, first, last + 1, offset, data, cs);
    if first <= k <= last {
      MergedRow(buf, k, offset, data, cs);
    } else {
      KeptRow(buf, k, offset, data, cs);
    }
  }

  // A covered write does to the chunks what the flat write does to the buffer, zero-filled
  // gap included.
  lemma WriteRefines(f: File, buf: Bytes, offset: nat, data: Bytes, cs: nat)
    requires cs > 0 && Represents(f, buf, cs) && Covered(|buf|, offset, data, cs)
    ensures Represents(Write(f, offset, data, cs), FlatWrite(buf, offset, data), cs)
  {
    var t, flat := Write(f, offset, data, cs), FlatWrite(buf, offset, data);
    FlatWriteMeaning(buf, offset, data);
    if data == [] {
      assert flat == buf;
    } else {
      hide Start, FlatWrite, Slice, WriteChunks;
      forall k: nat ensures k in t.chunks <==> Start(k, cs) < |flat| {
        WrittenKeys(f, buf, k, offset, data, cs);
      }
      forall k | k in t.chunks && Start(k, cs) < |flat| ensures t.chunks[k] == Slice(flat, k, cs) {
        WrittenRow(f, buf, k, offset, data, cs);
      }
    }
  }

  lemma ChunkAt(f: File, buf: Bytes, k: nat, cs: nat)
    requires Represents(f, buf, cs)
    ensures k in f.chunks <==> Start(k, cs) < |buf|
    ensures Start(k, cs) < |buf| ==> f.chunks[k] == Slice(buf, k, cs)
  {
  }

  // The last chunk a size needs is cut exactly when the size ends inside it.
  lemma LastChunk(size: nat, cs: nat)
    requires cs > 0 && size > 0
    ensures var last := Index(size - 1, cs);
      && Start(last, cs) < size <= Start(last, cs) + cs
      && Within(size, cs) == if size == Start(last, cs) + cs then 0 else size - Start(last, cs)
  {
    hide Start, Index, Within;
    var last := Index(size - 1, cs);
    ChunkOf(size - 1, cs);
    ChunkOf(size, cs);
    NextStart(last, cs);
    if size == Start(last, cs) + cs {
      IndexUnique(size, last + 1, cs);
    } else {
      IndexUnique(size, last, cs);
    }
  }

  lemma TruncatedRow(f: File, buf: Bytes, k: nat, size: nat, cs: nat)
    requires cs > 0 && Represents(f, buf, cs) && 0 < size <= |buf|
    ensures k in Truncate(f, size, cs).chunks <==> Start(k, cs) < size
    ensures Start(k, cs) < size ==> Truncate(f, size, cs).chunks[k] == Slice(buf[..size], k, cs)
  {
    hide Start, Index, Within, Represents;
    var last := Index(size - 1, cs);
    LastChunk(size, cs);
    ChunkAt(f, buf, k, cs);
    ChunkAt(f, buf, last, cs);
    if k <= last { StartsGrow(k, last, cs); } else { StartsGrow(last, k, cs); }
    if Start(k, cs) < size {
      TrimmedRow(buf, Start(k, cs), size, cs);
    }
  }

  // Shrinking (or keeping) the size.
  lemma TruncateRefines(f: File, buf: Bytes, size: nat, cs: nat)
    requires cs > 0 && Represents(f, buf, cs) && size <= |buf|
    ensures Represents(Truncate(f, size, cs), FlatTruncate(buf, size), cs)
  {
    assert FlatTruncate(buf, size) == buf[..size];
    if size > 0 {
      hide Start, Slice, Truncate;
      assert Truncate(f, size, cs).size == size by { TruncateSize(f, size, cs); }
      forall k: nat ensures k in Truncate(f, size, cs).chunks <==> Start(k, cs) < size
        ensures Start(k, cs) < size ==> Truncate(f, size, cs).chunks[k] == Slice(buf[..size], k, cs)
      {
        TruncatedRow(f, buf, k, size, cs);
      }
    }
  }

  lemma TruncateSize(f: File, size: nat, cs: nat)
    requires cs > 0
    ensures Truncate(f, size, cs).size == size
  {
  }

  lemma TrimmedRow(buf: Bytes, start: nat, size: nat, cs: nat)
    requires start < size <= |buf|
    ensures buf[..size][start..Min(start + cs, size)] == buf[start..Min(start + cs, |buf|)][..Min(cs, size - start)]
  {
    var a, b := buf[..size][start..Min(start + cs, size)], buf[start..Min(start + cs, |buf|)][..Min(cs, size - start)];
    forall i | 0 <= i < |a| ensures a[i] == b[i] {
      assert a[i] == buf[start + i];
    }
  }

  lemma {:induction false} ChopRows(content: Bytes, n: nat, cs: nat)
    requires cs > 0 && (n > 0 ==> Start(n - 1, cs) <= |content|)
    ensures forall k: nat :: k in Chop(content, n, cs) <==> k < n
    ensures forall k: nat :: k < n ==> Start(k, cs) <= |content| && Chop(content, n, cs)[k] == Slice(content, k, cs)
  {
    hide Start, Slice;
    if n > 0 {
      StartsGrow(Monus(n, 2), n - 1, cs);
      ChopRows(content, n - 1, cs);
    }
  }

  lemma CountCovers(size: nat, k: nat, cs: nat)
    requires cs > 0
    ensures k < ChunkCount(size, cs) <==> Start(k, cs) < size
  {
    if size > 0 {
      hide Start, Index;
      var last := Index(size - 1, cs);
      ChunkOf(size - 1, cs);
      if k <= last { StartsGrow(k, last, cs); } else { StartsGrow(last, k, cs); }
    }
  }

  // A body written from scratch is cut into exactly the chunks that stand for it.
  lemma ReplaceRefines(content: Bytes, cs: nat)
    requires cs > 0
    ensures Represents(Replace(content, cs), content, cs)
  {
    var n := ChunkCount(|content|, cs);
    if n > 0 {
      CountCovers(|content|, n - 1, cs);
    }
    hide Start, Slice, ChunkCount, Chop;
    ChopRows(content, n, cs);
    forall k: nat ensures k < n <==> Start(k, cs) < |content| {
      CountCovers(|content|, k, cs);
    }
    assert Replace(content, cs) == File(Chop(content, n, cs), |content|) by { ReplaceUnfolds(content, cs); }
  }

  lemma ReplaceUnfolds(content: Bytes, cs: nat)
    requires cs > 0
    ensures var n := ChunkCount(|content|, cs);
      && (n > 0 ==> Start(n - 1, cs) <= |content|)
      && Replace(content, cs) == File(Chop(content, n, cs), |content|)
  {
    if content != [] {
      ChunkOf(|content| - 1, cs);
    }
  }

  // ---- Reading the whole file -----------------------------------------------------------------

  // Above every chunk index.
  ghost function Bound(chunks: Chunks): (n: nat)
    ensures forall k :: k in chunks ==> k < n
  {
    if chunks == map[] then 0
    else
      var k :| k in chunks;
      var n := Bound(chunks - {k});
      assert forall j :: j in chunks && j != k ==> j in chunks - {k};
      Max(k + 1, n)
  }

  // All rows in index order.
  ghost function AllRows(chunks: Chunks): Bytes { Assemble(chunks, 0, Bound(chunks)) }

  // `read_all_content`: all rows, cut to the size.
  ghost function ReadAll(f: File): Bytes {
    if f.size == 0 then [] else if |AllRows(f.chunks)| > f.size then AllRows(f.chunks)[..f.size] else AllRows(f.chunks)
  }

  lemma ReadAllIs(f: File)
    ensures |ReadAll(f)| == Min(f.size, |AllRows(f.chunks)|) && ReadAll(f) <= AllRows(f.chunks)
  {
    hide AllRows;
  }

  lemma {:induction false} AssembleStops(chunks: Chunks, lo: nat, mid: nat, hi: nat)
    requires lo <= mid <= hi && forall k :: mid <= k < hi ==> k !in chunks
    ensures Assemble(chunks, lo, hi) == Assemble(chunks, lo, mid)
    decreases hi
  {
    if mid < hi {
      AssembleStops(chunks, lo, mid, hi - 1);
    }
  }

  lemma AllRowsUpTo(chunks: Chunks, n: nat)
    requires forall k :: k in chunks ==> k < n
    ensures AllRows(chunks) == Assemble(chunks, 0, n)
  {
    if n <= Bound(chunks) {
      AssembleStops(chunks, 0, n, Bound(chunks));
    } else {
      AssembleStops(chunks, 0, Bound(chunks), n);
    }
  }

  lemma RowsAreBuffer(f: File, buf: Bytes, n: nat, cs: nat)
    requires cs > 0 && Represents(f, buf, cs) && ChunkCount(|buf|, cs) <= n
    ensures AllRows(f.chunks) == buf && Assemble(f.chunks, 0, n) == buf
  {
    hide Start, ChunkCount, AllRows, Span;
    forall k | k in f.chunks ensures k < n {
      CountCovers(|buf|, k, cs);
    }
    AllRowsUpTo(f.chunks, n);
    AssembleSpan(f, buf, 0, n, cs);
    CountCovers(|buf|, n, cs);
    SpanWhole(buf, n, cs);
  }

  lemma SpanWhole(buf: Bytes, n: nat, cs: nat)
    requires |buf| <= Start(n, cs)
    ensures Span(buf, 0, n, cs) == buf
  {
    NextStart(0, cs);
    hide Start;
  }

  lemma ReadAllRefines(f: File, buf: Bytes, cs: nat)
    requires cs > 0 && Represents(f, buf, cs)
    ensures ReadAll(f) == buf
  {
    RowsAreBuffer(f, buf, ChunkCount(|buf|, cs), cs);
  }

  // ---- When the chunks do not stand for the buffer ----------------------------------------------

  lemma {:induction false} AssembleSame(a: Chunks, b: Chunks, lo: nat, hi: nat)
    requires forall k :: lo <= k < hi ==> ChunkRow(a, k) == ChunkRow(b, k)
    ensures Assemble(a, lo, hi) == Assemble(b, lo, hi)
    decreases hi
  {
    if lo < hi {
      AssembleSame(a, b, lo, hi - 1);
    }
  }

  lemma {:induction false} AssembleSplit(chunks: Chunks, lo: nat, mid: nat, hi: nat)
    requires lo <= mid <= hi
    ensures Assemble(chunks, lo, hi) == Assemble(chunks, lo, mid) + Assemble(chunks, mid, hi)
    decreases hi
  {
    if mid < hi {
      AssembleSplit(chunks, lo, mid, hi - 1);
    }
  }

  // Beyond a gap the written rows alone hold the bytes from the first of them on.
  lemma {:induction false} WrittenLength(chunks: Chunks, k: nat, offset: nat, data: Bytes, cs: nat)
    requires cs > 0 && data != [] && Index(offset, cs) <= k <= Index(offset + |data| - 1, cs) + 1
    requires forall j :: Index(offset, cs) <= j ==> j !in chunks
    ensures |Assemble(WriteChunks(chunks, offset, data, cs), Index(offset, cs), k)|
         == Min(Start(k, cs), offset + |data|) - Start(Index(offset, cs), cs)
    decreases k
  {
    hide Start, Index, MergeChunk, MergeRange;
    var first := Index(offset, cs);
    ChunkOf(offset, cs);
    if first < k {
      WrittenLength(chunks, k - 1, offset, data, cs);
      MergeRangeRows(chunks, first, Index(offset + |data| - 1, cs) + 1, offset, data, cs);
      MergeMeaning([], k - 1, offset, data, cs);
      NextStart(k - 1, cs);
    }
  }

  lemma GapIsBare(f: File, buf: Bytes, first: nat, cs: nat)
    requires cs > 0 && Represents(f, buf, cs) && Index(|buf|, cs) < first
    ensures |buf| < Start(first, cs)
    ensures forall k: nat :: first <= k ==> k !in f.chunks
    ensures Assemble(f.chunks, 0, first) == buf
  {
    hide Start, Index, Assemble, ChunkCount, AllRows;
    ChunkOf(|buf|, cs);
    StartsGrow(Index(|buf|, cs), first, cs);
    forall k: nat | first <= k ensures k !in f.chunks {
      StartsGrow(first, k, cs);
    }
    if first < ChunkCount(|buf|, cs) {
      CountCovers(|buf|, first, cs);
    }
    RowsAreBuffer(f, buf, first, cs);
  }

  lemma WrittenAfterGap(chunks: Chunks, offset: nat, data: Bytes, cs: nat)
    requires cs > 0 && data != [] && forall k: nat :: Index(offset, cs) <= k ==> k !in chunks
    ensures var t, first := WriteChunks(chunks, offset, data, cs), Index(offset, cs);
      |AllRows(t)| == |Assemble(chunks, 0, first)| + offset + |data| - Start(first, cs)
  {
    hide Start, Index, Assemble, MergeRange, AllRows, MergeChunk;
    var t, first, last := WriteChunks(chunks, offset, data, cs), Index(offset, cs), Index(offset + |data| - 1, cs);
    IndexGrows(offset, offset + |data| - 1, cs);
    MergeRangeRows(chunks, first, last + 1, offset, data, cs);
    AssembleSame(t, chunks, 0, first);
    WrittenLength(chunks, last + 1, offset, data, cs);
    ChunkOf(offset + |data| - 1, cs);
    NextStart(last, cs);
    AssembleSplit(t, 0, first, last + 1);
    forall k | k in t ensures k < last + 1 {
      assert k in chunks ==> k < first;
    }
    AllRowsUpTo(t, last + 1);
  }

  // A write that is not covered leaves fewer bytes than its size: the bytes between the old
  // end and the first written chunk are nowhere.
  lemma UncoveredWriteFallsShort(f: File, buf: Bytes, offset: nat, data: Bytes, cs: nat)
    requires cs > 0 && data != [] && Represents(f, buf, cs) && !Covered(|buf|, offset, data, cs)
    ensures |ReadAll(Write(f, offset, data, cs))| < |FlatWrite(buf, offset, data)|
  {
    FlatWriteMeaning(buf, offset, data);
    hide Start, Index, Assemble, WriteChunks, FlatWrite, AllRows;
    GapIsBare(f, buf, Index(offset, cs), cs);
    WrittenAfterGap(f.chunks, offset, data, cs);
  }

  // Writing keeps the file equal to the flat buffer if and only if the write is covered.
  lemma WriteAgreesIff(f: File, buf: Bytes, offset: nat, data: Bytes, cs: nat)
    requires cs > 0 && Represents(f, buf, cs)
    ensures ReadAll(Write(f, offset, data, cs)) == FlatWrite(buf, offset, data) <==> Covered(|buf|, offset, data, cs)
  {
    if Covered(|buf|, offset, data, cs) {
      WriteRefines(f, buf, offset, data, cs);
      ReadAllRefines(Write(f, offset, data, cs), FlatWrite(buf, offset, data), cs);
    } else if data != [] {
      UncoveredWriteFallsShort(f, buf, offset, data, cs);
    } else {
      ReadAllRefines(f, buf, cs);
      FlatWriteMeaning(buf, offset, data);
    }
  }

  // A size beyond the end is recorded, but no chunk grows to it.
  lemma GrowingTruncate(f: File, buf: Bytes, size: nat, cs: nat)
    requires cs > 0 && Represents(f, buf, cs) && |buf| < size
    ensures Truncate(f, size, cs) == File(f.chunks, size)
  {
    hide Start, Index, Within;
    var last := Index(size - 1, cs);
    LastChunk(size, cs);
    forall k | k in f.chunks ensures k <= last {
      if last < k { StartsGrow(last, k, cs); }
    }
    ChunkAt(f, buf, last, cs);
  }

  // Resizing agrees with the flat buffer if and only if it does not grow the file.
  lemma TruncateAgreesIff(f: File, buf: Bytes, size: nat, cs: nat)
    requires cs > 0 && Represents(f, buf, cs)
    ensures ReadAll(Truncate(f, size, cs)) == FlatTruncate(buf, size) <==> size <= |buf|
  {
    if size <= |buf| {
      TruncateRefines(f, buf, size, cs);
      ReadAllRefines(Truncate(f, size, cs), FlatTruncate(buf, size), cs);
    } else {
      GrowingTruncate(f, buf, size, cs);
      RowsAreBuffer(f, buf, ChunkCount(|buf|, cs), cs);
    }
  }

  // ---- Whole runs -----------------------------------------------------------------------------

  datatype FileOp = ReadAt(offset: nat, size: nat) | WriteAt(offset: nat, data: Bytes) | TruncateTo(size: nat)
    | ReplaceBy(body: Bytes)

  function Step(f: File, op: FileOp, cs: nat): File
    requires cs > 0
  {
    match op
    case ReadAt(_, _) => f
    case WriteAt(offset, data) => Write(f, offset, data, cs)
    case TruncateTo(size) => Truncate(f, size, cs)
    case ReplaceBy(body) => Replace(body, cs)
  }

  function FlatStep(buf: Bytes, op: FileOp): Bytes {
    match op
    case ReadAt(_, _) => buf
    case WriteAt(offset, data) => FlatWrite(buf, offset, data)
    case TruncateTo(size) => FlatTruncate(buf, size)
    case ReplaceBy(body) => body
  }

  // The bytes each read of the run returns; a write reports its length either way.
  function Observed(f: File, ops: seq<FileOp>, cs: nat): seq<ReadResult>
    requires cs > 0
    decreases |ops|
  {
    if ops == [] then []
    else
      var rest := Observed(Step(f, ops[0], cs), ops[1..], cs);
      if ops[0].ReadAt? then [Read(f, ops[0].offset, ops[0].size, cs)] + rest else rest
  }

  function FlatObserved(buf: Bytes, ops: seq<FileOp>): seq<ReadResult>
    decreases |ops|
  {
    if ops == [] then []
    else
      var rest := FlatObserved(FlatStep(buf, ops[0]), ops[1..]);
      if ops[0].ReadAt? then [ReadResult.Bytes(FlatRead(buf, ops[0].offset, ops[0].size))] + rest else rest
  }

  function Final(f: File, ops: seq<FileOp>, cs: nat): File
    requires cs > 0
    decreases |ops|
  {
    if ops == [] then f else Final(Step(f, ops[0], cs), ops[1..], cs)
  }

  function FlatFinal(buf: Bytes, ops: seq<FileOp>): Bytes
    decreases |ops|
  {
    if ops == [] then buf else FlatFinal(FlatStep(buf, ops[0]), ops[1..])
  }

  predicate OpCovered(size: nat, op: FileOp, cs: nat)
    requires cs > 0
  {
    match op
    case WriteAt(offset, data) => Covered(size, offset, data, cs)
    case TruncateTo(n) => n <= size
    case _ => true
  }

  predicate RunCovered(buf: Bytes, ops: seq<FileOp>, cs: nat)
    requires cs > 0
    decreases |ops|
  {
    ops != [] ==> OpCovered(|buf|, ops[0], cs) && RunCovered(FlatStep(buf, ops[0]), ops[1..], cs)
  }

  // One operation keeps the two in step if and only if it is covered.
  lemma StepAgreesIff(f: File, buf: Bytes, op: FileOp, cs: nat)
    requires cs > 0 && Represents(f, buf, cs)
    ensures OpCovered(|buf|, op, cs) ==> Represents(Step(f, op, cs), FlatStep(buf, op), cs)
    ensures OpCovered(|buf|, op, cs) <==> ReadAll(Step(f, op, cs)) == FlatStep(buf, op)
  {
    hide ReadAll, Represents, Covered, Write, FlatWrite, Truncate, FlatTruncate, Replace;
    match op {
      case ReadAt(_, _) => ReadAllRefines(f, buf, cs);
      case WriteAt(offset, data) =>
        WriteAgreesIff(f, buf, offset, data, cs);
        if Covered(|buf|, offset, data, cs) { WriteRefines(f, buf, offset, data, cs); }
      case TruncateTo(size) =>
        TruncateAgreesIff(f, buf, size, cs);
        if size <= |buf| { TruncateRefines(f, buf, size, cs); }
      case ReplaceBy(body) =>
        ReplaceRefines(body, cs);
        ReadAllRefines(Replace(body, cs), body, cs);
    }
  }

  // Over any covered run every read returns what the flat buffer returns, and the whole
  // content read at the end is the flat buffer.
  lemma {:induction false} RunRefines(f: File, buf: Bytes, ops: seq<FileOp>, cs: nat)
    requires cs > 0 && Represents(f, buf, cs) && RunCovered(buf, ops, cs)
    ensures Observed(f, ops, cs) == FlatObserved(buf, ops)
    ensures Represents(Final(f, ops, cs), FlatFinal(buf, ops), cs)
    ensures ReadAll(Final(f, ops, cs)) == FlatFinal(buf, ops)
    decreases |ops|
  {
    hide ReadAll, Represents, Step, FlatStep, OpCovered, Read, FlatRead;
    if ops == [] {
      ReadAllRefines(f, buf, cs);
    } else {
      StepAgreesIff(f, buf, ops[0], cs);
      if ops[0].ReadAt? {
        ReadRefines(f, buf, ops[0].offset, ops[0].size, cs);
      }
      RunRefines(Step(f, ops[0], cs), FlatStep(buf, ops[0]), ops[1..], cs);
    }
  }
}
