// The cache database (cache/db.rs) as one object, a field per table. Each method is one
// locked section of the source.
module Database {
  import opened Basics
  import opened ChunkStore
  import opened Paths
  import opened PathRoundTrip
  import opened PushQueue
  import opened Tree

  type Positive = n: nat | 0 < n witness 1

  predicate IsLeast(k: nat, s: set<nat>) {
    k in s && forall j :: j in s ==> k <= j
  }

  // `names` below a climbed path.
  function Under(up: Option<Parts>, names: Parts): Option<Parts> {
    match up case None => None case Some(parts) => Some(parts + names)
  }

  ghost predicate OneEntryEach(d: Dentries) {
    forall k, l :: k in d && l in d && d[k] == d[l] ==> k == l
  }

  class Db {
    const chunkSize: Positive
    var inodes: map<nat, Inode>
    var chunks: map<nat, Chunks>
    var dentries: Dentries
    var remote: map<nat, string>
    var nextIno: nat
    var dirty: map<nat, int>          // fs_inode.dirty_since, where set
    var rows: Rows                    // push_queue
    var lastSeen: Option<string>      // sync_meta: last_seen_updated_at

    // A fresh database holds the root directory and nothing else.
    constructor (chunkSize: Positive)
      ensures this.chunkSize == chunkSize && Tables() == NEW_STORE && dirty == map[] && rows == map[]
        && lastSeen == None
      ensures Tables() == Store(map[1 := Inode(true, 0)], map[], map[], map[], 2)
    {
      this.chunkSize := chunkSize;
      inodes, chunks, dentries, remote, nextIno := map[ROOT := Inode(true, 0)], map[], map[], map[], ROOT + 1;
      dirty, rows, lastSeen := map[], map[], None;
    }

    ghost function Tables(): Store
      reads this
    {
      Store(inodes, chunks, dentries, remote, nextIno)
    }

    // The dirty flags after `set_dirty_since`; there is no flag without an inode row.
    ghost function Marked(ino: nat, since: Option<int>): map<nat, int>
      reads this
    {
      if since.None? then dirty - {ino}
      else if ino in inodes then dirty[ino := since.value]
      else dirty
    }

    method SetDirtySince(ino: nat, since: Option<int>)
      modifies this`dirty
      ensures dirty == old(Marked(ino, since))
    {
      if since.None? {
        dirty := dirty - {ino};
      } else if ino in inodes {
        dirty := dirty[ino := since.value];
      }
    }

    method SetRemotePath(ino: nat, path: string)
      modifies this`remote
      ensures remote == old(remote)[ino := path]
    {
      remote := remote[ino := path];
    }

    method DeleteRemotePath(ino: nat)
      modifies this`remote
      ensures remote == old(remote) - {ino}
    {
      remote := remote - {ino};
    }

    // Some inode recorded for the path, if there is one.
    method InoByRemotePath(path: string) returns (ino: Option<nat>)
      ensures ino.None? <==> path !in remote.Values
      ensures ino.Some? ==> ino.value in remote && remote[ino.value] == path
    {
      if i :| i in remote && remote[i] == path {
        return Some(i);
      }
      return None;
    }

    // ---- The push queue --------------------------------------------------------------------

    method PushQueueUpsert(path: Path, op: Op, now: int)
      modifies this`rows
      ensures rows == Upsert(old(rows), path, op, now)
    {
      if IsNoisePath(path) {
        return;
      }
      if path in rows && rows[path].inflight.Some? {
        rows := rows[path := rows[path].(pending := Some(op), updatedAt := now)];
      } else if path in rows {
        rows := rows[path := rows[path].(op := op, attempt := 0, updatedAt := now)];
      } else {
        rows := rows[path := Row(op, None, None, 0, now, false)];
      }
    }

    // Nothing is claimed exactly when nothing is claimable; otherwise the job is a
    // copy of a row of least stamp, and only that row's in-flight mark changes.
    method PushQueueClaimNext(now: int) returns (job: Option<Job>)
      modifies this`rows
      ensures job.None? <==> forall p :: p in old(rows) ==> !Claimable(old(rows), p, now)
      ensures job.None? ==> rows == old(rows)
      ensures job.Some? ==>
        && IsNext(old(rows), job.value.path, now)
        && job.value == JobOf(old(rows), job.value.path)
        && rows == MarkInflight(old(rows), job.value.path, now)
    {
      var best: Option<Path> := None;
      var rest := rows.Keys;
      while rest != {}
        invariant rest <= rows.Keys
        invariant best.None? ==> forall q :: q in rows && q !in rest ==> !Claimable(rows, q, now)
        invariant best.Some? ==>
          && best.value in rows.Keys - rest
          && Claimable(rows, best.value, now)
          && forall q :: q in rows && q !in rest && Claimable(rows, q, now) ==>
            rows[best.value].updatedAt <= rows[q].updatedAt
        decreases |rest|
      {
        var p :| p in rest;
        rest := rest - {p};
        if Claimable(rows, p, now) && (best.None? || rows[p].updatedAt < rows[best.value].updatedAt) {
          best := Some(p);
        }
      }
      if best.None? {
        return None;
      }
      job := Some(JobOf(rows, best.value));
      rows := rows[best.value := rows[best.value].(inflight := Some(now))];
    }

    method PushQueueFinalizeSuccess(path: Path, now: int)
      modifies this`rows
      ensures rows == Success(old(rows), path, now)
    {
      if path in rows && rows[path].pending.Some? {
        rows := rows[path := rows[path].(op := rows[path].pending.value, pending := None, inflight := None,
          attempt := 0, updatedAt := now)];
      } else {
        rows := rows - {path};
      }
    }

    method PushQueueFinalizeFailure(path: Path, now: int, backoff: int)
      modifies this`rows
      ensures rows == Failure(old(rows), path, now, backoff)
    {
      if path in rows {
        rows := rows[path := rows[path].(inflight := None, attempt := rows[path].attempt + 1,
          updatedAt := now + backoff)];
      }
    }

    method PushQueuePoison(path: Path, now: int)
      modifies this`rows
      ensures rows == Poison(old(rows), path, now)
    {
      if path in rows {
        rows := rows[path := rows[path].(poisoned := true, inflight := None, updatedAt := now)];
      }
    }

    // ---- Content and paths -----------------------------------------------------------------

    // Chunk rows in index order.
    static method ConcatRows(stored: Chunks) returns (content: Bytes)
      ensures content == AllRows(stored)
    {
      hide Assemble, AllRows;
      content := [];
      AssembleNothing(stored, 0, 0);
      var rest := stored.Keys;
      ghost var below: nat := 0;
      while rest != {}
        invariant rest <= stored.Keys
        invariant forall k :: k in stored && k !in rest ==> k < below
        invariant forall k :: k in rest ==> below <= k
        invariant content == Assemble(stored, 0, below)
        decreases |rest|
      {
        LeastExists(rest);
        var k :| k in rest && IsLeast(k, rest);
        AssembleStops(stored, 0, below, k);
        AssembleNext(stored, k);
        content := content + stored[k];
        rest := rest - {k};
        below := k + 1;
      }
      AllRowsUpTo(stored, below);
    }

    // The chunk rows, cut to the size.
    method ReadAllContent(ino: nat) returns (content: Bytes)
      ensures content == ReadAll(FileOf(Tables(), ino))
    {
      if ino !in inodes || inodes[ino].size == 0 {
        return [];
      }
      content := ConcatRows(if ino in chunks then chunks[ino] else map[]);
      if |content| > inodes[ino].size {
        content := content[..inodes[ino].size];
      }
    }

    // Names collected upwards from the inode, at most 64 of them. Where an inode has
    // several entries the climb takes any of them.
    method BuildPathForIno(ino: nat) returns (path: Option<string>)
      ensures OneEntryEach(dentries) ==> path == BuildPath(dentries, ino)
    {
      if ino == ROOT {
        return None;
      }
      var components: Parts := [];
      UnderNothing(Climb(dentries, ino, CLIMB_LIMIT));
      var cur, n := ino, 0;
      while n < CLIMB_LIMIT
        invariant 0 <= n <= CLIMB_LIMIT
        invariant OneEntryEach(dentries) ==>
          Climb(dentries, ino, CLIMB_LIMIT) == Under(Climb(dentries, cur, CLIMB_LIMIT - n), components)
        invariant n > 0 ==> components != []
        decreases CLIMB_LIMIT - n
      {
        if k :| k in dentries && dentries[k] == cur {
          assert OneEntryEach(dentries) ==> EntryOf(dentries, cur) == Some(k);
          ghost var before := components;
          components := [k.1] + components;
          if k.0 == ROOT {
            assert OneEntryEach(dentries) ==> Climb(dentries, ino, CLIMB_LIMIT) == Some(components);
            break;
          }
          ClimbUnder(Climb(dentries, k.0, CLIMB_LIMIT - n - 1), k.1, before);
          cur := k.0;
        } else {
          return None;
        }
        n := n + 1;
      }
      assert [] + components == components;
      path := Some(MountPath(Join(components)));
    }
  }

  lemma UnderNothing(up: Option<Parts>)
    ensures Under(up, []) == up
  {
    if up.Some? {
      assert up.value + [] == up.value;
    }
  }

  lemma ClimbUnder(up: Option<Parts>, name: string, names: Parts)
    ensures Under(Under(up, [name]), names) == Under(up, [name] + names)
  {
    if up.Some? {
      assert up.value + [name] + names == up.value + ([name] + names);
    }
  }

  lemma {:induction false} LeastExists(s: set<nat>)
    requires s != {}
    ensures exists k :: k in s && IsLeast(k, s)
  {
    var x :| x in s;
    var rest := s - {x};
    assert forall j :: j in s ==> j == x || j in rest;
    if rest == {} {
      assert IsLeast(x, s);
    } else {
      LeastExists(rest);
      var k :| k in rest && IsLeast(k, rest);
      assert IsLeast(if x < k then x else k, s);
    }
  }

  lemma AssembleNext(stored: Chunks, k: nat)
    requires k in stored
    ensures Assemble(stored, 0, k + 1) == Assemble(stored, 0, k) + stored[k]
  {
  }
}
