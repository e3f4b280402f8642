// Document paths as the cache takes them apart (cache/fs.rs): a path string, its
// components, its directory part and its file name.
module Paths {
  import opened Basics

  type Parts = seq<string>

  predicate NameOk(name: string) { name != "" && '/' !in name }

  predicate NamesOk(parts: Parts) { forall n :: n in parts ==> NameOk(n) }

  function NonEmpty(parts: Parts): Parts {
    if parts == [] then []
    else (if parts[0] == "" then [] else [parts[0]]) + NonEmpty(parts[1..])
  }

  function Join(parts: Parts): string {
    if parts == [] then "" else if |parts| == 1 then parts[0] else parts[0] + "/" + Join(parts[1..])
  }

  function Initial(parts: Parts): Parts
    requires parts != []
  {
    parts[..|parts| - 1]
  }

  function Last(parts: Parts): string
    requires parts != []
  {
    parts[|parts| - 1]
  }

  // The absolute path with these components.
  function Absolute(parts: Parts): string { "/" + Join(parts) }

  // The components path resolution walks: leading slashes trimmed, empty ones skipped.
  function ResolveParts(path: string): Parts { NonEmpty(Split(TrimStart(path, '/'), '/')) }

  // The directories created on the way to a document.
  function DirParts(path: string): Parts { NonEmpty(Initial(Split(TrimStart(path, '/'), '/'))) }

  function FileName(path: string): string { Last(Split(path, '/')) }

  // Everything before the last slash.
  function ParentPath(path: string): string {
    if path == "" then "" else if path[|path| - 1] == '/' then path[..|path| - 1] else ParentPath(path[..|path| - 1])
  }

  // Where upsert puts a document: directories, then name.
  function DocParts(path: string): Parts { DirParts(path) + [FileName(path)] }

  lemma {:induction false} NonEmptyConcat(a: Parts, b: Parts)
    ensures NonEmpty(a + b) == NonEmpty(a) + NonEmpty(b)
  {
    if a == [] {
      assert a + b == b;
    } else {
      assert (a + b)[1..] == a[1..] + b;
      NonEmptyConcat(a[1..], b);
    }
  }

  lemma {:induction false} NonEmptyOk(parts: Parts)
    requires NamesOk(parts)
    ensures NonEmpty(parts) == parts
  {
    if parts != [] {
      NonEmptyOk(parts[1..]);
      assert parts[0] in parts;
    }
  }

  // A skipped first component changes neither the rest nor the last.
  lemma SkipsFirst(parts: Parts)
    ensures NonEmpty([""] + parts) == NonEmpty(parts)
    ensures parts != [] ==>
      Last([""] + parts) == Last(parts) && NonEmpty(Initial([""] + parts)) == NonEmpty(Initial(parts))
  {
    var all := [""] + parts;
    assert all[1..] == parts;
    if parts != [] {
      assert Initial(all)[1..] == Initial(parts);
    }
  }

  lemma {:induction false} TrimSplit(path: string)
    ensures NonEmpty(Split(TrimStart(path, '/'), '/')) == NonEmpty(Split(path, '/'))
    ensures Last(Split(TrimStart(path, '/'), '/')) == Last(Split(path, '/'))
    ensures DirParts(path) == NonEmpty(Initial(Split(path, '/')))
  {
    if path != "" && path[0] == '/' {
      TrimSplit(path[1..]);
      SplitHead("", '/', path[1..]);
      assert path == "" + ['/'] + path[1..];
      assert TrimStart(path, '/') == TrimStart(path[1..], '/');
      hide Split, TrimStart, NonEmpty, Initial, Last;
      SkipsFirst(Split(path[1..], '/'));
    }
  }

  lemma {:induction false} SplitLast(a: string, b: string)
    requires '/' !in b
    ensures Split(a + "/" + b, '/') == Split(a, '/') + [b]
    decreases |a|
  {
    if '/' in a {
      var i := IndexOf(a, '/');
      var rest := a[i + 1..];
      assert a == a[..i] + ['/'] + rest;
      assert a + "/" + b == a[..i] + ['/'] + (rest + "/" + b);
      SplitHead(a[..i], '/', rest + "/" + b);
      SplitHead(a[..i], '/', rest);
      SplitLast(rest, b);
    } else {
      SplitHead(a, '/', b);
      SplitWhole(a, '/');
      SplitWhole(b, '/');
    }
  }

  lemma {:induction false} ParentSplits(path: string)
    requires '/' in path
    ensures '/' !in FileName(path) && path == ParentPath(path) + "/" + FileName(path)
    ensures Split(path, '/') == Split(ParentPath(path), '/') + [FileName(path)]
  {
    var b := AfterLast(path);
    assert path == ParentPath(path) + "/" + b;
    SplitLast(ParentPath(path), b);
  }

  // What follows the last slash.
  lemma {:induction false} AfterLast(path: string) returns (b: string)
    requires '/' in path
    ensures '/' !in b && path == ParentPath(path) + "/" + b
  {
    var n := |path| - 1;
    if path[n] == '/' {
      b := "";
    } else {
      b := AfterLast(path[..n]);
      b := b + [path[n]];
    }
  }

  lemma {:induction false} NoSlashParent(path: string)
    requires '/' !in path
    ensures ParentPath(path) == ""
  {
    if path != "" {
      NoSlashParent(path[..|path| - 1]);
    }
  }

  // The parent the file is looked up in is the directory just ensured.
  lemma ParentParts(path: string)
    ensures ResolveParts(ParentPath(path)) == DirParts(path)
  {
    TrimSplit(path);
    TrimSplit(ParentPath(path));
    if '/' in path {
      ParentSplits(path);
    } else {
      NoSlashParent(path);
      SplitWhole(path, '/');
      assert Split(path, '/')[..0] == [];
      assert NonEmpty([""]) == [];
    }
  }

  lemma {:induction false} SplitJoin(parts: Parts)
    requires parts != [] && NamesOk(parts)
    ensures Split(Join(parts), '/') == parts
  {
    assert parts[0] in parts;
    if |parts| > 1 {
      SplitHead(parts[0], '/', Join(parts[1..]));
      SplitJoin(parts[1..]);
    } else {
      SplitWhole(parts[0], '/');
    }
  }

  lemma SplitAbsolute(parts: Parts)
    requires parts != [] && NamesOk(parts)
    ensures Split(Absolute(parts), '/') == [""] + parts
  {
    assert Absolute(parts) == "" + ['/'] + Join(parts);
    SplitJoin(parts);
    hide Split, Join;
    SplitHead("", '/', Join(parts));
  }

  // Taking an absolute path apart gives back its components.
  lemma AbsoluteParts(parts: Parts)
    requires parts != [] && NamesOk(parts)
    ensures ResolveParts(Absolute(parts)) == parts
    ensures DocParts(Absolute(parts)) == parts
  {
    hide Split, Join, NonEmpty, TrimStart, Absolute, NamesOk, NameOk, Initial, Last;
    SplitAbsolute(parts);
    InitialOk(parts);
    NonEmptyOk(parts);
    NonEmptyOk(Initial(parts));
    TrimSplit(Absolute(parts));
    SkipsFirst(parts);
  }

  lemma InitialOk(parts: Parts)
    requires parts != [] && NamesOk(parts)
    ensures NamesOk(Initial(parts)) && parts == Initial(parts) + [Last(parts)]
  {
  }

  // Different components, different absolute paths.
  lemma AbsoluteInjective(a: Parts, b: Parts)
    requires a != [] && b != [] && NamesOk(a) && NamesOk(b) && Absolute(a) == Absolute(b)
    ensures a == b
  {
    AbsoluteParts(a);
    AbsoluteParts(b);
  }
}
