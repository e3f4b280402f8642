// Which paths the push queue takes: all but those of files the operating system drops
// everywhere (`is_noise_path` of cache/db.rs), by the names of the path.
module NoisePaths {
  import opened Basics
  import opened Paths
  import opened PushQueue

  lemma {:induction false} BaseIs(a: string, b: string)
    requires '/' !in b && (a == "" || a[|a| - 1] == '/')
    ensures BaseName(a + b) == b
    decreases |b|
  {
    if b == "" {
      assert a + b == a;
    } else {
      var s, n := a + b, |b| - 1;
      assert s[..|s| - 1] == a + b[..n] && s[|s| - 1] == b[n] && b[n] in b;
      BaseIs(a, b[..n]);
    }
  }

  lemma {:induction false} FirstIs(a: string, b: string)
    requires '/' !in a && (b == "" || b[0] == '/')
    ensures FirstComponent(a + b) == a
  {
    if a == "" {
      assert a + b == b;
    } else {
      assert (a + b)[1..] == a[1..] + b;
      FirstIs(a[1..], b);
    }
  }

  // A joined path is its first name and what follows the slash, or what comes up to a slash
  // and its last name.
  function AfterFirst(parts: Parts): string
    requires parts != []
  {
    if |parts| == 1 then "" else "/" + Join(parts[1..])
  }

  function BeforeLast(parts: Parts): string
    requires parts != []
  {
    if |parts| == 1 then "" else parts[0] + "/" + BeforeLast(parts[1..])
  }

  lemma {:induction false} JoinEnds(parts: Parts)
    requires parts != []
    ensures Join(parts) == BeforeLast(parts) + Last(parts)
    ensures BeforeLast(parts) == "" || BeforeLast(parts)[|BeforeLast(parts)| - 1] == '/'
  {
    if |parts| > 1 {
      JoinEnds(parts[1..]);
      assert Last(parts[1..]) == Last(parts);
      var a, b := parts[0] + "/", BeforeLast(parts[1..]);
      assert a + (b + Last(parts)) == a + b + Last(parts);
      assert a[|a| - 1] == '/';
    }
  }

  lemma FirstAndLast(parts: Parts)
    requires parts != [] && NamesOk(parts)
    ensures FirstComponent(Join(parts)) == parts[0] && BaseName(Join(parts)) == Last(parts)
  {
    hide FirstComponent, BaseName, BeforeLast;
    assert NameOk(parts[0]) && NameOk(Last(parts));
    FirstIs(parts[0], AfterFirst(parts));
    assert Join(parts) == parts[0] + AfterFirst(parts);
    JoinEnds(parts);
    BaseIs(BeforeLast(parts), Last(parts));
  }

  lemma JoinOpens(parts: Parts)
    requires parts != [] && NamesOk(parts)
    ensures Join(parts) != "" && Join(parts)[0] != '/'
  {
    assert NameOk(parts[0]) && parts[0][0] in parts[0];
    hide NameOk;
  }

  // The names a path string begins and ends with, leading slash or not.
  lemma NamesOf(parts: Parts)
    requires parts != [] && NamesOk(parts)
    ensures TrimStart(Absolute(parts), '/') == Join(parts) && TrimStart(Join(parts), '/') == Join(parts)
      && Join(parts) != ""
    ensures FirstComponent(Join(parts)) == parts[0] && BaseName(Join(parts)) == Last(parts)
  {
    hide Join, FirstComponent, BaseName, NamesOk;
    FirstAndLast(parts);
    JoinOpens(parts);
    assert Absolute(parts)[1..] == Join(parts);
  }

  // The first and last names of what the operating system drops.
  predicate Dropped(first: string, last: string) {
    || ".Spotlight-V100" <= first || ".Trashes" <= first || ".fseventsd" <= first || ".TemporaryItems" <= first
    || "._" <= last
    || last == ".DS_Store" || last == ".localized" || last == ".apdisk" || last == ".VolumeIcon.icns"
    || last == ".metadata_never_index" || last == ".metadata_never_index_unless_rootfs"
    || last == ".com.apple.timemachine.donotpresent" || last == "Icon\r"
  }

  // A path is noise if and only if its first or its last name is one of them.
  lemma NoiseIff(parts: Parts)
    requires parts != [] && NamesOk(parts)
    ensures IsNoisePath(Absolute(parts)) <==> Dropped(parts[0], Last(parts))
    ensures IsNoisePath(Join(parts)) <==> Dropped(parts[0], Last(parts))
  {
    NamesOf(parts);
    hide Join, FirstComponent, BaseName, TrimStart, Absolute;
  }

  lemma DotlessStays(first: string, last: string)
    requires !("." <= first) && !("." <= last) && last != "Icon\r"
    ensures !Dropped(first, last)
  {
  }

  // So whatever does not begin with a dot is enqueued, but for one name; what is noise is not.
  lemma OrdinaryIsQueued(rows: Rows, parts: Parts, op: Op, now: int)
    requires parts != [] && NamesOk(parts)
    requires !("." <= parts[0]) && !("." <= Last(parts)) && Last(parts) != "Icon\r"
    ensures var p := Absolute(parts); var after := Upsert(rows, p, op, now);
      && p in after && (after[p].op == op || after[p].pending == Some(op)) && after[p].updatedAt == now
      && after - {p} == rows - {p}
  {
    hide IsNoisePath, Absolute, Dropped, NamesOk;
    NoiseIff(parts);
    DotlessStays(parts[0], Last(parts));
  }

  lemma NoiseIsDropped(rows: Rows, parts: Parts, op: Op, now: int)
    requires parts != [] && NamesOk(parts) && Dropped(parts[0], Last(parts))
    ensures Upsert(rows, Absolute(parts), op, now) == rows
  {
    NoiseIff(parts);
    hide IsNoisePath, Absolute, Dropped;
  }
}
