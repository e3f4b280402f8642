// Handles to cached files (cache/file.rs). Each operation is proved equal to its
// function in `ChunkStore`, whose agreement with a flat buffer is proved there.
module DbFile {
  import opened Basics
  import opened ChunkStore
  import opened Database
  import opened PathRoundTrip
  import opened PushQueue
  import opened Tree

  // Chunks first..k-1 are merged, those up to `last` still as stored.
  ghost predicate MergedUpTo(stored: Chunks, merged: Chunks, first: nat, k: nat, last: nat, offset: nat, data: Bytes,
    cs: Positive)
    requires data != [] && k <= Index(offset + |data| - 1, cs) + 1
  {
    && (forall j :: j in merged <==> (j in stored && first <= j <= last) || first <= j < k)
    && (forall j :: first <= j < k ==> merged[j] == MergeChunk(ChunkRow(stored, j), j, offset, data, cs))
    && (forall j :: j in merged && k <= j ==> merged[j] == stored[j])
  }

  class DbFile {
    const db: Db
    const ino: nat

    constructor (db: Db, ino: nat)
      ensures this.db == db && this.ino == ino
    {
      this.db, this.ino := db, ino;
    }

    // None is the database error for an inode without a row.
    method Read(offset: nat, size: nat) returns (r: Option<ReadResult>)
      ensures r == if ino !in db.inodes then None
        else Some(ChunkStore.Read(FileOf(db.Tables(), ino), offset, size, db.chunkSize))
    {
      if ino !in db.inodes {
        return None;
      }
      var total := db.inodes[ino].size;
      if total == 0 || offset >= total {
        return Some(ReadResult.Bytes([]));
      }
      var startChunk := Index(offset, db.chunkSize);
      var endByte := Min(offset + size, total);
      var endChunk := Index(Monus(endByte, 1), db.chunkSize);
      var stored := if ino in db.chunks then db.chunks[ino] else map[];
      var assembled: Bytes := [];
      var k := startChunk;
      while k <= endChunk
        invariant k <= Max(startChunk, endChunk + 1)
        invariant startChunk <= k && assembled == Assemble(stored, startChunk, k)
      {
        if k in stored {
          assembled := assembled + stored[k];
        }
        k := k + 1;
      }
      if endChunk < startChunk {
        AssembleNothing(stored, startChunk, endChunk + 1);
      }
      var localOffset := Monus(offset, Start(startChunk, db.chunkSize));
      var available := Monus(|assembled|, localOffset);
      var take := Min(Min(size, available), total - offset);
      if localOffset + take > |assembled| {
        return Some(Panic);
      }
      r := Some(ReadResult.Bytes(assembled[localOffset..localOffset + take]));
    }

    // Merges `data` into the chunks it touches, extends the size, and marks the inode dirty.
    method Write(offset: nat, data: Bytes, now: int) returns (written: nat)
      modifies db`chunks, db`inodes, db`dirty
      ensures written == |data|
      ensures data == [] ==> db.Tables() == old(db.Tables()) && db.dirty == old(db.dirty)
      ensures data != [] ==>
        && db.Tables() == PutFile(old(db.Tables()), ino,
          ChunkStore.Write(old(FileOf(db.Tables(), ino)), offset, data, db.chunkSize))
        && db.dirty == old(db.Marked(ino, Some(now)))
    {
      if data == [] {
        return 0;
      }
      var stored := if ino in db.chunks then db.chunks[ino] else map[];
      var currentSize := if ino in db.inodes then db.inodes[ino].size else 0;
      var merged := MergeChunks(stored, offset, data, db.chunkSize);
      var newSize := Max(offset + |data|, currentSize);
      db.chunks := db.chunks[ino := stored + merged];
      if ino in db.inodes {
        db.inodes := db.inodes[ino := db.inodes[ino].(size := newSize)];
      }
      db.SetDirtySince(ino, Some(now));
      return |data|;
    }

    // The affected chunks after the write, to be put back over the stored ones.
    static method MergeChunks(stored: Chunks, offset: nat, data: Bytes, cs: Positive) returns (merged: Chunks)
      requires data != []
      ensures stored + merged == WriteChunks(stored, offset, data, cs)
    {
      hide Index, MergeRange, MergeChunk;
      var first, lastByte := Index(offset, cs), offset + |data| - 1;
      var last := Index(lastByte, cs);
      IndexGrows(offset, lastByte, cs);
      merged := map k | k in stored && first <= k <= last :: stored[k];
      var k := first;
      while k <= last
        invariant first <= k <= last + 1
        invariant MergedUpTo(stored, merged, first, k, last, offset, data, cs)
      {
        var chunk := MergeOne(if k in merged then merged[k] else [], k, offset, data, cs);
        merged := merged[k := chunk];
        k := k + 1;
      }
      MergedIsWritten(stored, merged, offset, data, cs);
    }

    // One chunk of the loop: extended if it was short, then overlaid with its part of `data`.
    static method MergeOne(row: Bytes, k: nat, offset: nat, data: Bytes, cs: Positive) returns (chunk: Bytes)
      requires data != [] && Index(offset, cs) <= k <= Index(offset + |data| - 1, cs)
      ensures chunk == MergeChunk(row, k, offset, data, cs)
    {
      hide Index, Start, Within, Splice;
      var lastByte := offset + |data| - 1;
      ChunkOf(lastByte, cs);
      StartsGrow(k, Index(lastByte, cs), cs);
      NextStart(k, cs);
      var chunkStart := Start(k, cs);
      var needed := if k == Index(lastByte, cs) then Min(Within(lastByte, cs) + 1, cs) else cs;
      var writeStart, dataStart := Monus(offset, chunkStart), Monus(chunkStart, offset);
      var writeEnd := Min(Min(Start(k + 1, cs) - chunkStart, |data| - dataStart + writeStart), cs);
      chunk := Overlay(row, needed, writeStart, writeEnd, data[dataStart..], cs);
    }

    static method Overlay(row: Bytes, needed: nat, writeStart: nat, writeEnd: nat, piece: Bytes, cs: Positive)
      returns (chunk: Bytes)
      ensures chunk == Splice(row, needed, writeStart, writeEnd, piece, cs)
    {
      chunk := row;
      if |chunk| < cs {
        if |chunk| < needed {
          chunk := Resize(chunk, needed);
        }
      }
      if writeStart <= writeEnd && piece != [] {
        var toWrite := Min(writeEnd - writeStart, |piece|);
        if |chunk| < writeStart + toWrite {
          chunk := Resize(chunk, writeStart + toWrite);
        }
        chunk := chunk[..writeStart] + piece[..toWrite] + chunk[writeStart + toWrite..];
      }
    }

    // Neither pads the file when it grows nor marks the inode dirty.
    method Truncate(size: nat)
      modifies db`chunks, db`inodes
      ensures db.Tables() == PutFile(old(db.Tables()), ino,
        ChunkStore.Truncate(old(FileOf(db.Tables(), ino)), size, db.chunkSize))
    {
      hide Index, Within;
      ghost var before := FileOf(db.Tables(), ino);
      var stored := if ino in db.chunks then db.chunks[ino] else map[];
      if size == 0 {
        db.chunks := db.chunks[ino := map[]];
      } else {
        var lastNeeded := Index(size - 1, db.chunkSize);
        var kept := map k | k in stored && k <= lastNeeded :: stored[k];
        var lastChunkBytes := Within(size, db.chunkSize);
        if lastChunkBytes > 0 && lastNeeded in kept && lastChunkBytes <= |kept[lastNeeded]| {
          kept := kept[lastNeeded := kept[lastNeeded][..lastChunkBytes]];
        }
        assert (map k | k in stored && k <= lastNeeded :: stored[k])
          == (map k | k in before.chunks && k <= lastNeeded :: before.chunks[k]);
        assert kept == ChunkStore.Truncate(before, size, db.chunkSize).chunks;
        db.chunks := db.chunks[ino := kept];
      }
      if ino in db.inodes {
        db.inodes := db.inodes[ino := db.inodes[ino].(size := size)];
      }
    }

    // Registers the path of a new file, marks the inode dirty, and enqueues a write. An
    // inode that has no path and none can be derived for is left alone.
    method Flush(now: int, ticket: nat) returns (path: Option<string>)
      modifies db`remote, db`dirty, db`rows
      ensures OneEntryEach(db.dentries) ==>
        && db.Tables() == Register(old(db.Tables()), ino)
        && (path.Some? <==> ino in db.remote)
      ensures path.None? ==> db.Tables() == old(db.Tables()) && db.dirty == old(db.dirty) && db.rows == old(db.rows)
      ensures path.Some? ==>
        && ino in db.remote && db.remote[ino] == path.value
        && (ino in old(db.remote) ==> db.remote == old(db.remote))
        && db.dirty == old(db.Marked(ino, Some(now)))
        && db.rows == Upsert(old(db.rows), path.value, Op(OpKind.Write, Some(ino), None, ticket), now)
    {
      if ino in db.remote {
        path := Some(db.remote[ino]);
      } else {
        path := db.BuildPathForIno(ino);
        if path.Some? {
          db.SetRemotePath(ino, path.value);
        }
      }
      if path.Some? {
        db.SetDirtySince(ino, Some(now));
        db.PushQueueUpsert(path.value, Op(OpKind.Write, Some(ino), None, ticket), now);
      }
    }
  }

  lemma MergedIsWritten(stored: Chunks, merged: Chunks, offset: nat, data: Bytes, cs: Positive)
    requires data != []
    requires MergedUpTo(stored, merged, Index(offset, cs), Index(offset + |data| - 1, cs) + 1,
      Index(offset + |data| - 1, cs), offset, data, cs)
    ensures stored + merged == WriteChunks(stored, offset, data, cs)
  {
    hide Index, MergeRange, MergeChunk, ChunkRow;
    MergeRangeRows(stored, Index(offset, cs), Index(offset + |data| - 1, cs) + 1, offset, data, cs);
  }
}
