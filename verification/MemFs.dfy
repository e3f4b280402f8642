// The in-memory file system as an object (vfs/mem.rs), updated in place. Methods are
// proved equal to the functions of `MemTree` and to the flat buffer of `ChunkStore`.
module MemFs {
  import opened Basics
  import opened ChunkStore
  import opened MemTree
  import opened MemRuns

  class MemFs {
    var nodes: Nodes
    var alloc: nat

    constructor ()
      ensures Now() == NEW_STATE && nodes == map[1 := Dir(map[], 2)] && alloc == 2
    {
      nodes, alloc := map[ROOT := Dir(map[], 2)], 2;
    }

    ghost function Now(): State
      reads this
    {
      State(nodes, alloc)
    }

    method NextIno() returns (ino: nat)
      modifies this`alloc
      ensures ino == old(alloc) && alloc == old(alloc) + 1
    {
      ino := alloc;
      alloc := alloc + 1;
    }

    method Insert(dir: nat, name: string, ino: nat)
      requires IsDir(nodes, dir)
      modifies this`nodes
      ensures nodes == Attach(old(nodes), dir, name, ino)
    {
      nodes := nodes[dir := Dir(nodes[dir].children[name := ino], nodes[dir].nlink)];
    }

    method Remove(dir: nat, name: string)
      requires IsDir(nodes, dir)
      modifies this`nodes
      ensures nodes == Detach(old(nodes), dir, name)
    {
      nodes := nodes[dir := Dir(nodes[dir].children - {name}, nodes[dir].nlink)];
    }

    // Drops one link of a live inode, and the inode with the last one.
    method DropLink(ino: nat)
      requires ino in nodes
      modifies this`nodes
      ensures nodes == Release(old(nodes), ino)
    {
      var left := if nodes[ino].nlink == 0 then 0 else nodes[ino].nlink - 1;
      if left == 0 {
        nodes := nodes - {ino};
      } else {
        nodes := nodes[ino := WithLinks(nodes[ino], left)];
      }
    }

    method MakeDirectory(parent: nat, name: string) returns (r: Outcome)
      requires Shaped(Now())
      modifies this
      ensures (Now(), r) == Mkdir(old(Now()), parent, name)
    {
      if |name| > MemTree.MAX_NAME_LEN {
        return Err(NameTooLong);
      }
      if parent !in nodes {
        return Err(NotFound);
      }
      if !nodes[parent].Dir? {
        return Err(NotDirectory);
      }
      if name in nodes[parent].children {
        return Err(AlreadyExists);
      }
      ShapedBounds(Now(), parent);
      hide Shaped;
      var newIno := NextIno();
      var keepIno := NextIno();
      nodes := nodes[keepIno := Regular([], 1)];
      nodes := nodes[newIno := Dir(map[KEEP := keepIno], 2)];
      Insert(parent, name, newIno);
      nodes := nodes[parent := WithLinks(nodes[parent], nodes[parent].nlink + 1)];
      return Ok(newIno);
    }

    // Creates a file, or opens what is there.
    method Create(parent: nat, name: string) returns (r: Outcome)
      requires Shaped(Now())
      modifies this
      ensures (Now(), r) == CreateFile(old(Now()), parent, name)
    {
      ShapedBounds(Now(), parent);
      hide Shaped;
      if |name| > MemTree.MAX_NAME_LEN {
        return Err(NameTooLong);
      }
      if parent !in nodes {
        return Err(NotFound);
      }
      if !nodes[parent].Dir? {
        return Err(NotDirectory);
      }
      if name in nodes[parent].children {
        return Ok(nodes[parent].children[name]);
      }
      var newIno := NextIno();
      nodes := nodes[newIno := Regular([], 1)];
      Insert(parent, name, newIno);
      return Ok(newIno);
    }

    method SymbolicLink(parent: nat, name: string, target: string) returns (r: Outcome)
      requires Shaped(Now())
      modifies this
      ensures (Now(), r) == MakeSymlink(old(Now()), parent, name, target)
    {
      ShapedBounds(Now(), parent);
      hide Shaped;
      if parent !in nodes {
        return Err(NotFound);
      }
      if !nodes[parent].Dir? {
        return Err(NotDirectory);
      }
      if name in nodes[parent].children {
        return Err(AlreadyExists);
      }
      var newIno := NextIno();
      nodes := nodes[newIno := Symlink(target, 1)];
      Insert(parent, name, newIno);
      return Ok(newIno);
    }

    method HardLink(ino: nat, newParent: nat, newName: string) returns (r: Outcome)
      modifies this
      ensures (Now(), r) == Link(old(Now()), ino, newParent, newName)
    {
      if ino !in nodes {
        return Err(NotFound);
      }
      if nodes[ino].Dir? {
        return Err(IsDirectory);
      }
      if newParent !in nodes {
        return Err(NotFound);
      }
      if !nodes[newParent].Dir? {
        return Err(NotDirectory);
      }
      if newName in nodes[newParent].children {
        return Err(AlreadyExists);
      }
      nodes := nodes[ino := WithLinks(nodes[ino], nodes[ino].nlink + 1)];
      Insert(newParent, newName, ino);
      return Ok(ino);
    }

    method RemoveFile(parent: nat, name: string) returns (r: Outcome)
      modifies this
      ensures (Now(), r) == Unlink(old(Now()), parent, name)
    {
      if parent !in nodes {
        return Err(NotFound);
      }
      if !nodes[parent].Dir? {
        return Err(NotDirectory);
      }
      if name !in nodes[parent].children {
        return Err(NotFound);
      }
      var child := nodes[parent].children[name];
      if child !in nodes {
        return Err(NotFound);
      }
      if nodes[child].Dir? {
        return Err(IsDirectory);
      }
      Remove(parent, name);
      DropLink(child);
      return Ok(child);
    }

    method RemoveDirectory(parent: nat, name: string) returns (r: Outcome)
      requires Shaped(Now())
      modifies this
      ensures (Now(), r) == Rmdir(old(Now()), parent, name)
    {
      if parent !in nodes {
        return Err(NotFound);
      }
      if !nodes[parent].Dir? {
        return Err(NotDirectory);
      }
      if name !in nodes[parent].children {
        return Err(NotFound);
      }
      var child := nodes[parent].children[name];
      if child !in nodes {
        return Err(NotFound);
      }
      if !nodes[child].Dir? {
        return Err(NotDirectory);
      }
      RmdirSafe(Now(), parent, name, child);
      hide Shaped;
      var keep := if KEEP in nodes[child].children then Some(nodes[child].children[KEEP]) else None;
      if keep.Some? {
        nodes := nodes - {keep.value};
        Remove(child, KEEP);
      }
      if nodes[child].children != map[] {
        if keep.Some? {
          var restore := NextIno();
          nodes := nodes[restore := Regular([], 1)];
          Insert(child, KEEP, restore);
        }
        return Err(NotEmpty);
      }
      nodes := nodes - {child};
      Remove(parent, name);
      nodes := nodes[parent := WithLinks(nodes[parent], Dec(nodes[parent].nlink))];
      return Ok(child);
    }

    method MoveEntry(oldParent: nat, oldName: string, newParent: nat, newName: string) returns (r: Outcome)
      requires Shaped(Now())
      modifies this
      ensures (Now(), r) == Rename(old(Now()), oldParent, oldName, newParent, newName)
    {
      if oldParent !in nodes {
        return Err(NotFound);
      }
      if !nodes[oldParent].Dir? {
        return Err(NotDirectory);
      }
      if oldName !in nodes[oldParent].children {
        return Err(NotFound);
      }
      var child := nodes[oldParent].children[oldName];
      assert Child(nodes, newParent, newName).Some? ==> Child(nodes, newParent, newName).value in nodes
        by { EntriesLive(Now()); }
      hide Shaped;
      Remove(oldParent, oldName);
      if newParent in nodes && nodes[newParent].Dir? && newName in nodes[newParent].children {
        DropLink(nodes[newParent].children[newName]);
      }
      if newParent !in nodes {
        return Err(NotFound);
      }
      if !nodes[newParent].Dir? {
        return Err(NotDirectory);
      }
      Insert(newParent, newName, child);
      return Ok(child);
    }
  }

  lemma EntriesLive(s: State)
    requires Shaped(s)
    ensures forall d, n :: Child(s.nodes, d, n).Some? ==> Child(s.nodes, d, n).value in s.nodes
  {
  }

  // The directory, its parent and the next number are what `rmdir` takes them for.
  lemma RmdirSafe(s: State, d: nat, n: string, i: nat)
    requires Shaped(s) && Child(s.nodes, d, n) == Some(i) && IsDir(s.nodes, i)
    ensures d != i && d != s.alloc && i != s.alloc
    ensures Child(s.nodes, i, KEEP).Some? ==> Child(s.nodes, i, KEEP).value != i && Child(s.nodes, i, KEEP).value != d
  {
    ShapedBounds(s, d);
    ShapedBounds(s, i);
    NotUnderItself(s, d, n, i);
    if Child(s.nodes, i, KEEP).Some? { MarkerOnce(s, i, Child(s.nodes, i, KEEP).value); }
  }

  // ---- Open files -------------------------------------------------------------------------------

  datatype ReadOutcome = Data(bytes: Bytes) | NoInode | NotAFile

  class MemFileHandle {
    const fs: MemFs
    const ino: nat

    constructor (fs: MemFs, ino: nat)
      ensures this.fs == fs && this.ino == ino
    {
      this.fs, this.ino := fs, ino;
    }

    method Read(offset: nat, size: nat) returns (r: ReadOutcome)
      ensures r == if ino !in fs.nodes then NoInode else if !fs.nodes[ino].Regular? then NotAFile
        else Data(FlatRead(fs.nodes[ino].data, offset, size))
    {
      if ino !in fs.nodes {
        return NoInode;
      }
      if !fs.nodes[ino].Regular? {
        return NotAFile;
      }
      var data := fs.nodes[ino].data;
      var start := Min(offset, |data|);
      var end := Min(start + size, |data|);
      return Data(data[start..end]);
    }

    method Write(offset: nat, data: Bytes) returns (written: Option<nat>)
      modifies fs`nodes
      ensures fs.Now() == MemRuns.Step(old(fs.Now()), DoWrite(ino, offset, data))
      ensures written == if ino in old(fs.nodes) && old(fs.nodes)[ino].Regular? then Some(|data|) else None
    {
      if ino !in fs.nodes || !fs.nodes[ino].Regular? {
        return None;
      }
      var buf := fs.nodes[ino].data;
      var end := offset + |data|;
      if end > |buf| {
        buf := Resize(buf, end);
      }
      buf := buf[..offset] + data + buf[end..];
      fs.nodes := fs.nodes[ino := Regular(buf, fs.nodes[ino].nlink)];
      return Some(|data|);
    }

    method Truncate(size: nat) returns (ok: bool)
      modifies fs`nodes
      ensures fs.Now() == MemRuns.Step(old(fs.Now()), DoTruncate(ino, size))
      ensures ok <==> ino in old(fs.nodes) && old(fs.nodes)[ino].Regular?
    {
      if ino !in fs.nodes || !fs.nodes[ino].Regular? {
        return false;
      }
      fs.nodes := fs.nodes[ino := Regular(Resize(fs.nodes[ino].data, size), fs.nodes[ino].nlink)];
      return true;
    }
  }
}
