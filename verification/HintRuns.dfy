// Installing and uninstalling hints in any order (agent_hint.rs) against a list of blocks
// after the user's text.
module HintRuns {
  import opened Basics
  import opened AgentHint

  datatype HintOp = Install(tag: string) | Uninstall(tag: string)

  // The block of each tag, without its final line feed.
  type Library = map<string, string>

  // Safe markers: a block ends at its own end marker, and neither the user's text nor any
  // other block holds its begin marker.
  ghost predicate LibraryOk(user: string, lib: Library) {
    && UserOk(user)
    && (forall t :: t in lib ==> NoFeedIn(t) && BlockOk(Block(t, lib[t], 1)) && Find(user, BeginMarker(t)).None?)
    && (forall t, u :: t in lib && u in lib && t != u ==> Find(lib[u], BeginMarker(t)).None?)
  }

  function TextStep(text: string, op: HintOp, lib: Library): string
    requires op.tag in lib
  {
    match op
    case Install(t) => WriteBlock(text, t, lib[t] + "\n")
    case Uninstall(t) => RemoveBlock(text, t)
  }

  function TextRun(text: string, ops: seq<HintOp>, lib: Library): string
    requires forall op :: op in ops ==> op.tag in lib
  {
    if ops == [] then text
    else
      assert ops[|ops| - 1] in ops;
      TextStep(TextRun(text, ops[..|ops| - 1], lib), ops[|ops| - 1], lib)
  }

  // ---- The list of blocks -----------------------------------------------------------------------

  function Place(blocks: seq<Block>, t: string): (k: Option<nat>)
    ensures k.Some? ==> k.value < |blocks| && blocks[k.value].tag == t
    ensures k.None? ==> forall i :: 0 <= i < |blocks| ==> blocks[i].tag != t
  {
    if blocks == [] then None
    else if blocks[|blocks| - 1].tag == t then Some(|blocks| - 1)
    else Place(blocks[..|blocks| - 1], t)
  }

  function Dropped(blocks: seq<Block>, t: string): seq<Block> {
    match Place(blocks, t) case None => blocks case Some(k) => Without(blocks, k)
  }

  function BlockStep(blocks: seq<Block>, op: HintOp, lib: Library): seq<Block>
    requires op.tag in lib
  {
    match op
    case Install(t) => Dropped(blocks, t) + [Block(t, lib[t], 2)]
    case Uninstall(t) => Dropped(blocks, t)
  }

  function BlockRun(ops: seq<HintOp>, lib: Library): seq<Block>
    requires forall op :: op in ops ==> op.tag in lib
  {
    if ops == [] then []
    else
      assert ops[|ops| - 1] in ops;
      BlockStep(BlockRun(ops[..|ops| - 1], lib), ops[|ops| - 1], lib)
  }

  // The blocks are the library's, one per tag.
  ghost predicate Drawn(blocks: seq<Block>, lib: Library) {
    && (forall i :: 0 <= i < |blocks| ==>
      blocks[i].tag in lib && blocks[i].text == lib[blocks[i].tag] && blocks[i].gap >= 1)
    && (forall i, j :: 0 <= i < j < |blocks| ==> blocks[i].tag != blocks[j].tag)
  }

  lemma DrawnOk(user: string, blocks: seq<Block>, lib: Library)
    requires LibraryOk(user, lib) && Drawn(blocks, lib)
    ensures HintsOk(user, blocks)
  {
    hide Find, OccursAt, BeginMarker, EndMarker;
    forall i | 0 <= i < |blocks| ensures BlockOk(blocks[i]) {
      assert BlockOk(Block(blocks[i].tag, lib[blocks[i].tag], 1));
    }
  }

  lemma WithoutAt(blocks: seq<Block>, k: nat, i: nat)
    requires k < |blocks| && i < |blocks| - 1
    ensures |Without(blocks, k)| == |blocks| - 1
    ensures var x, y := Without(blocks, k)[i], blocks[if i < k then i else i + 1];
      x.tag == y.tag && x.text == y.text && (x.gap == y.gap || x.gap == 1)
  {
    var rest := blocks[k + 1..];
    if i >= k {
      MovedUpAt(rest, i - k);
      hide MovedUp;
      assert rest[i - k] == blocks[i + 1];
    }
  }

  lemma MovedUpAt(rest: seq<Block>, j: nat)
    requires j < |rest|
    ensures |MovedUp(rest)| == |rest| && MovedUp(rest)[j] == if j == 0 then rest[0].(gap := 1) else rest[j]
  {
  }

  lemma WithoutSize(blocks: seq<Block>, k: nat)
    requires k < |blocks|
    ensures |Without(blocks, k)| == |blocks| - 1
  {
  }

  lemma WithoutDrawn(blocks: seq<Block>, k: nat, lib: Library)
    requires Drawn(blocks, lib) && k < |blocks|
    ensures Drawn(Without(blocks, k), lib)
    ensures forall b :: b in Without(blocks, k) ==> b.tag != blocks[k].tag
    ensures |Without(blocks, k)| == |blocks| - 1
    ensures forall i :: 0 <= i < |blocks| - 1 ==> Without(blocks, k)[i].tag == blocks[if i < k then i else i + 1].tag
  {
    hide Without;
    var w := Without(blocks, k);
    WithoutSize(blocks, k);
    forall i | 0 <= i < |blocks| - 1
      ensures w[i].tag == blocks[if i < k then i else i + 1].tag
        && w[i].text == blocks[if i < k then i else i + 1].text && w[i].gap >= 1
    {
      WithoutAt(blocks, k, i);
    }
  }

  lemma DroppedDrawn(blocks: seq<Block>, t: string, lib: Library)
    requires Drawn(blocks, lib)
    ensures Drawn(Dropped(blocks, t), lib) && forall b :: b in Dropped(blocks, t) ==> b.tag != t
  {
    hide Without;
    if Place(blocks, t).Some? {
      WithoutDrawn(blocks, Place(blocks, t).value, lib);
    }
  }

  lemma StepDrawn(blocks: seq<Block>, op: HintOp, lib: Library)
    requires Drawn(blocks, lib) && op.tag in lib
    ensures Drawn(BlockStep(blocks, op, lib), lib)
  {
    hide Dropped;
    DroppedDrawn(blocks, op.tag, lib);
    if op.Install? {
      assert forall i :: 0 <= i < |Dropped(blocks, op.tag)| ==> Dropped(blocks, op.tag)[i] in Dropped(blocks, op.tag);
    }
  }

  // ---- The text is the list laid out ---------------------------------------------------------------

  // Before there is any block the user's line feeds at the end are still there.
  predicate Holds(text: string, user: string, blocks: seq<Block>) {
    if blocks == [] then TrimEnd(text, '\n') == user else text == FileText(user, blocks)
  }

  lemma {:induction false} TrimmedFeeds(text: string)
    ensures exists n: nat :: text == TrimEnd(text, '\n') + Feeds(n)
    ensures UserOk(TrimEnd(text, '\n'))
  {
    if text != "" && text[|text| - 1] == '\n' {
      TrimmedFeeds(text[..|text| - 1]);
      var n: nat :| text[..|text| - 1] == TrimEnd(text[..|text| - 1], '\n') + Feeds(n);
      assert text == TrimEnd(text, '\n') + Feeds(n + 1);
    } else {
      assert text == TrimEnd(text, '\n') + Feeds(0);
    }
  }

  lemma FreeWithFeeds(a: string, n: nat, pat: string)
    requires pat != "" && NoFeedIn(pat) && Find(a, pat).None?
    ensures Find(a + Feeds(n), pat).None?
  {
    if n == 0 {
      assert a + Feeds(0) == a;
    } else {
      assert Find("", pat).None?;
      NotAcross(a, n, "", pat);
      assert a + Feeds(n) + "" == a + Feeds(n);
    }
  }

  lemma FileTextTrims(user: string, blocks: seq<Block>)
    requires UserOk(Laid(user, blocks))
    ensures TrimEnd(FileText(user, blocks), '\n') == Laid(user, blocks)
  {
    hide Laid;
    if Laid(user, blocks) != "" {
      TrimEndOne(Laid(user, blocks), '\n');
    } else {
      assert TrimEnd("", '\n') == "";
    }
  }

  lemma StripAbsent(text: string, user: string, blocks: seq<Block>, t: string, lib: Library)
    requires LibraryOk(user, lib) && Drawn(blocks, lib) && Holds(text, user, blocks) && t in lib
      && Place(blocks, t).None?
    ensures StripBlock(text, t) == text && TrimEnd(text, '\n') == Laid(user, blocks)
  {
    hide Find, OccursAt, BeginMarker, EndMarker, TrimEnd, BlockOk, NoFeedIn, Feeds;
    DrawnOk(user, blocks, lib);
    MarkersHaveNoFeed(t);
    BeginNotEmpty(t);
    LaidFree(user, blocks, BeginMarker(t));
    if blocks == [] {
      TrimmedFeeds(text);
      var n: nat :| text == TrimEnd(text, '\n') + Feeds(n);
      FreeWithFeeds(user, n, BeginMarker(t));
    } else {
      LaidEnds(user, blocks);
      FileTextTrims(user, blocks);
      assert text == Laid(user, blocks) + Feeds(1) by { OneFeed(Laid(user, blocks)); }
      FreeWithFeeds(Laid(user, blocks), 1, BeginMarker(t));
    }
  }

  lemma OneFeed(a: string)
    ensures a + "\n" == a + Feeds(1)
  {
  }

  // Stripping a tag drops its block, whether or not there is one.
  lemma StripDrops(text: string, user: string, blocks: seq<Block>, t: string, lib: Library)
    requires LibraryOk(user, lib) && Drawn(blocks, lib) && Holds(text, user, blocks) && t in lib
    ensures TrimEnd(StripBlock(text, t), '\n') == Laid(user, Dropped(blocks, t))
  {
    hide Find, TrimEnd, BlockOk, NoFeedIn, Laid, FileText, StripBlock, Without;
    var k := Place(blocks, t);
    if k.None? {
      StripAbsent(text, user, blocks, t, lib);
    } else {
      DrawnOk(user, blocks, lib);
      StripRemoves(user, blocks, k.value);
      WithoutDrawn(blocks, k.value, lib);
      DrawnOk(user, Without(blocks, k.value), lib);
      LaidEnds(user, Without(blocks, k.value));
      FileTextTrims(user, Without(blocks, k.value));
    }
  }

  lemma StepHolds(text: string, user: string, blocks: seq<Block>, op: HintOp, lib: Library)
    requires LibraryOk(user, lib) && Drawn(blocks, lib) && Holds(text, user, blocks) && op.tag in lib
    ensures Holds(TextStep(text, op, lib), user, BlockStep(blocks, op, lib))
    ensures op.Install? ==> TextStep(text, op, lib) == FileText(user, BlockStep(blocks, op, lib))
  {
    var t := op.tag;
    var kept := Dropped(blocks, t);
    LibraryText(user, lib, t);
    hide Find, TrimEnd, BlockOk, NoFeedIn, Laid, StripBlock, Dropped, LibraryOk;
    StripDrops(text, user, blocks, t, lib);
    DroppedDrawn(blocks, t, lib);
    DrawnOk(user, kept, lib);
    LaidEnds(user, kept);
    if op.Install? {
      LaidStep(user, kept, Block(t, lib[t], 2));
      InstalledText(Laid(user, kept), lib[t]);
    } else {
      FileTextTrims(user, kept);
      EmptyLaid(user);
    }
  }

  lemma LibraryText(user: string, lib: Library, t: string)
    requires LibraryOk(user, lib) && t in lib
    ensures lib[t] != ""
  {
    assert BlockOk(Block(t, lib[t], 1));
  }

  lemma EmptyLaid(user: string)
    ensures Laid(user, []) == user
  {
  }

  lemma InstalledText(a: string, text: string)
    requires text != ""
    ensures (if a == "" then "" else a + "\n\n") + (text + "\n") == Lay(a, Block("", text, 2)) + "\n"
  {
    assert Feeds(2) == "\n\n";
    if a == "" {
      assert "" + (text + "\n") == text + "\n";
    } else {
      assert a + "\n\n" + (text + "\n") == a + "\n\n" + text + "\n";
    }
  }

  // Whatever is installed and uninstalled, in whatever order: the file is the user's text
  // and the blocks of the list, laid out.
  lemma {:induction false} TextIsBlocks(text: string, ops: seq<HintOp>, lib: Library)
    requires LibraryOk(TrimEnd(text, '\n'), lib) && forall op :: op in ops ==> op.tag in lib
    ensures Drawn(BlockRun(ops, lib), lib)
    ensures Holds(TextRun(text, ops, lib), TrimEnd(text, '\n'), BlockRun(ops, lib))
  {
    hide LibraryOk, Drawn, Holds, TrimEnd;
    if ops == [] {
      assert Drawn([], lib) by { NoBlocks(text, lib); }
      NoBlocks(text, lib);
    } else {
      var n := |ops| - 1;
      assert ops[n] in ops;
      TextIsBlocks(text, ops[..n], lib);
      StepHolds(TextRun(text, ops[..n], lib), TrimEnd(text, '\n'), BlockRun(ops[..n], lib), ops[n], lib);
      StepDrawn(BlockRun(ops[..n], lib), ops[n], lib);
    }
  }

  lemma NoBlocks(text: string, lib: Library)
    ensures Drawn([], lib) && Holds(text, TrimEnd(text, '\n'), [])
  {
  }

  // ---- What that means for the user -----------------------------------------------------------------

  // Tags installed and not uninstalled since.
  function Installed(ops: seq<HintOp>): set<string> {
    if ops == [] then {}
    else
      var before, op := Installed(ops[..|ops| - 1]), ops[|ops| - 1];
      if op.Install? then before + {op.tag} else before - {op.tag}
  }

  function Tags(blocks: seq<Block>): set<string> { set b | b in blocks :: b.tag }

  lemma TagsSnoc(blocks: seq<Block>, b: Block)
    ensures Tags(blocks + [b]) == Tags(blocks) + {b.tag}
  {
    forall x | x in Tags(blocks) + {b.tag} ensures x in Tags(blocks + [b]) {
      if x == b.tag {
        assert (blocks + [b])[|blocks|] == b;
      } else {
        var y :| y in blocks && y.tag == x;
        assert y in blocks + [b];
      }
    }
  }

  lemma StepTags(blocks: seq<Block>, op: HintOp, lib: Library)
    requires Drawn(blocks, lib) && op.tag in lib
    ensures Tags(BlockStep(blocks, op, lib)) == if op.Install? then Tags(blocks) + {op.tag} else Tags(blocks) - {op.tag}
  {
    hide Dropped, Tags;
    DroppedTags(blocks, op.tag, lib);
    TagsSnoc(Dropped(blocks, op.tag), Block(op.tag, lib[op.tag], 2));
  }

  lemma InTags(blocks: seq<Block>, i: nat)
    requires i < |blocks|
    ensures blocks[i].tag in Tags(blocks)
  {
    assert blocks[i] in blocks;
  }

  lemma TagPlace(blocks: seq<Block>, t: string) returns (i: nat)
    requires t in Tags(blocks)
    ensures i < |blocks| && blocks[i].tag == t
  {
    i :| 0 <= i < |blocks| && blocks[i].tag == t;
  }

  lemma WithoutTags(blocks: seq<Block>, w: seq<Block>, k: nat)
    requires k < |blocks| && |w| == |blocks| - 1
    requires forall i :: 0 <= i < |w| ==> w[i].tag == blocks[if i < k then i else i + 1].tag
    requires forall i :: 0 <= i < |blocks| && i != k ==> blocks[i].tag != blocks[k].tag
    ensures Tags(w) == Tags(blocks) - {blocks[k].tag}
  {
    hide Tags;
    forall x | x in Tags(blocks) - {blocks[k].tag} ensures x in Tags(w) {
      var i := TagPlace(blocks, x);
      InTags(w, if i < k then i else i - 1);
    }
    forall x | x in Tags(w) ensures x in Tags(blocks) - {blocks[k].tag} {
      var i := TagPlace(w, x);
      InTags(blocks, if i < k then i else i + 1);
    }
  }

  lemma DroppedTags(blocks: seq<Block>, t: string, lib: Library)
    requires Drawn(blocks, lib)
    ensures Tags(Dropped(blocks, t)) == Tags(blocks) - {t}
  {
    hide Without, Tags;
    if Place(blocks, t).Some? {
      var k := Place(blocks, t).value;
      WithoutDrawn(blocks, k, lib);
      WithoutTags(blocks, Without(blocks, k), k);
    } else if t in Tags(blocks) {
      var i := TagPlace(blocks, t);
    }
  }

  lemma {:induction false} RunTags(text: string, ops: seq<HintOp>, lib: Library)
    requires LibraryOk(TrimEnd(text, '\n'), lib) && forall op :: op in ops ==> op.tag in lib
    ensures Tags(BlockRun(ops, lib)) == Installed(ops)
  {
    hide LibraryOk, Drawn, Holds, TrimEnd, BlockStep;
    if ops != [] {
      var n := |ops| - 1;
      assert ops[n] in ops;
      RunTags(text, ops[..n], lib);
      TextIsBlocks(text, ops[..n], lib);
      StepTags(BlockRun(ops[..n], lib), ops[n], lib);
    }
  }

  // Once every tag is uninstalled again, in any order, the user's text is back, up to the
  // line feeds at its end.
  lemma UninstallUndoes(text: string, ops: seq<HintOp>, lib: Library)
    requires LibraryOk(TrimEnd(text, '\n'), lib) && (forall op :: op in ops ==> op.tag in lib) && Installed(ops) == {}
    ensures TrimEnd(TextRun(text, ops, lib), '\n') == TrimEnd(text, '\n')
  {
    hide LibraryOk, Drawn, TrimEnd, TextRun, BlockRun;
    TextIsBlocks(text, ops, lib);
    RunTags(text, ops, lib);
    if BlockRun(ops, lib) != [] {
      SomeTag(BlockRun(ops, lib));
    }
  }

  lemma SomeTag(blocks: seq<Block>)
    requires blocks != []
    ensures Tags(blocks) != {}
  {
    assert blocks[0].tag in Tags(blocks);
  }

  // Installing the tag installed last again, with the same block, changes nothing.
  lemma ReinstallIsNoOp(text: string, ops: seq<HintOp>, lib: Library)
    requires LibraryOk(TrimEnd(text, '\n'), lib) && forall op :: op in ops ==> op.tag in lib
    requires ops != [] && ops[|ops| - 1].Install?
    ensures var last := ops[|ops| - 1];
      last.tag in lib && TextStep(TextRun(text, ops, lib), last, lib) == TextRun(text, ops, lib)
  {
    var n := |ops| - 1;
    var last, before, user := ops[n], ops[..n], TrimEnd(text, '\n');
    assert last in ops;
    hide LibraryOk, Drawn, TrimEnd, TextStep, Dropped, Holds;
    TextIsBlocks(text, before, lib);
    TextIsBlocks(text, ops, lib);
    var blocks := BlockRun(ops, lib);
    StepHolds(TextRun(text, before, lib), user, BlockRun(before, lib), last, lib);
    StepHolds(TextRun(text, ops, lib), user, blocks, last, lib);
    DropLast(Dropped(BlockRun(before, lib), last.tag), Block(last.tag, lib[last.tag], 2));
  }

  lemma DropLast(kept: seq<Block>, b: Block)
    ensures Dropped(kept + [b], b.tag) == kept
  {
    assert Place(kept + [b], b.tag) == Some(|kept|);
    assert (kept + [b])[..|kept|] == kept && (kept + [b])[|kept| + 1..] == [];
  }

  // `after` is `before` without the block of `t`: the same texts in the same order.
  ghost predicate OthersKept(before: seq<Block>, after: seq<Block>, t: string) {
    match Place(before, t)
    case None => after == before
    case Some(k) =>
      && |after| == |before| - 1
      && forall i :: 0 <= i < |after| ==>
           var j := if i < k then i else i + 1; after[i].tag == before[j].tag && after[i].text == before[j].text
  }

  lemma DroppedKeeps(blocks: seq<Block>, t: string)
    ensures OthersKept(blocks, Dropped(blocks, t), t)
  {
    hide Without;
    if Place(blocks, t).Some? {
      var k := Place(blocks, t).value;
      WithoutSize(blocks, k);
      forall i | 0 <= i < |blocks| - 1
        ensures Without(blocks, k)[i].tag == blocks[if i < k then i else i + 1].tag
          && Without(blocks, k)[i].text == blocks[if i < k then i else i + 1].text
      {
        WithoutAt(blocks, k, i);
      }
    }
  }

  // Uninstalling one tag keeps the user's text and the text of every other block, in order.
  lemma UninstallKeepsOthers(text: string, ops: seq<HintOp>, lib: Library, t: string)
    requires LibraryOk(TrimEnd(text, '\n'), lib) && (forall op :: op in ops ==> op.tag in lib) && t in lib
    ensures var before, after := BlockRun(ops, lib), Dropped(BlockRun(ops, lib), t);
      && Holds(TextRun(text, ops, lib), TrimEnd(text, '\n'), before)
      && Holds(RemoveBlock(TextRun(text, ops, lib), t), TrimEnd(text, '\n'), after)
      && OthersKept(before, after, t)
  {
    hide LibraryOk, TrimEnd, TextRun, BlockRun, Dropped, Holds, Drawn, OthersKept;
    TextIsBlocks(text, ops, lib);
    StepHolds(TextRun(text, ops, lib), TrimEnd(text, '\n'), BlockRun(ops, lib), Uninstall(t), lib);
    DroppedKeeps(BlockRun(ops, lib), t);
  }

  // ---- Rendered blocks are safe -------------------------------------------------------------------

  // Tags and text that hold no marker by accident.
  predicate TagSafe(tag: string) { '\n' !in tag && '<' !in tag && '>' !in tag }

  ghost predicate ProseSafe(prose: string, tags: set<string>) {
    forall t :: t in tags ==> Find(prose, BeginMarker(t)).None? && Find(prose, EndMarker(t)).None?
  }

  lemma ShiftedOccurs(a: string, g: nat, c: string, pat: string, e: nat)
    requires OccursAt(c, pat, e)
    ensures OccursAt(a + Feeds(g) + c, pat, |a| + g + e)
  {
    var text := a + Feeds(g) + c;
    assert text[|a| + g + e..|a| + g + e + |pat|] == c[e..e + |pat|];
  }

  lemma FoundShift(a: string, g: nat, c: string, pat: string, e: nat)
    requires pat != "" && NoFeedIn(pat) && g >= 1 && Find(a, pat).None? && Find(c, pat) == Some(e)
    ensures Find(a + Feeds(g) + c, pat) == Some(|a| + g + e)
  {
    hide Find, NoFeedIn, OccursAt, Feeds;
    var text := a + Feeds(g) + c;
    ShiftedOccurs(a, g, c, pat, e);
    forall j: nat | j < |a| + g + e ensures !OccursAt(text, pat, j) {
      OccursSomewhere(a, g, c, pat, j);
    }
    FindIs(text, pat, |a| + g + e);
  }

  // Where the sanitized tag sits in a marker.
  lemma BeginChars(tag: string, i: nat)
    requires i < |BeginMarker(tag)|
    ensures |BeginMarker(tag)| == 18 + |Sanitize(tag)| + 14
    ensures BeginMarker(tag)[i] ==
      if i < 18 then BEGIN_PREFIX[i] else if i < 18 + |Sanitize(tag)| then Sanitize(tag)[i - 18]
        else BEGIN_SUFFIX[i - 18 - |Sanitize(tag)|]
  {
  }

  lemma EndChars(tag: string, i: nat)
    requires i < |EndMarker(tag)|
    ensures |EndMarker(tag)| == 18 + |Sanitize(tag)| + 12
    ensures EndMarker(tag)[i] ==
      if i < 18 then END_PREFIX[i] else if i < 18 + |Sanitize(tag)| then Sanitize(tag)[i - 18]
        else END_SUFFIX[i - 18 - |Sanitize(tag)|]
  {
  }

  lemma CharsMatch(text: string, pat: string, j: nat, k: nat)
    requires OccursAt(text, pat, j) && k < |pat|
    ensures text[j + k] == pat[k]
  {
    assert text[j..j + |pat|][k] == pat[k];
  }

  lemma MarkerLengths(tag: string)
    ensures |BeginMarker(tag)| == 32 + |Sanitize(tag)| && |EndMarker(tag)| == 30 + |Sanitize(tag)|
  {
  }

  lemma SanitizedFree(tag: string)
    requires TagSafe(tag)
    ensures forall i :: 0 <= i < |Sanitize(tag)| ==> Sanitize(tag)[i] != '<' && Sanitize(tag)[i] != '>'
  {
    SanitizeKeeps(tag, '<');
    SanitizeKeeps(tag, '>');
    hide Sanitize;
    forall i | 0 <= i < |Sanitize(tag)| ensures Sanitize(tag)[i] != '<' && Sanitize(tag)[i] != '>' {
      assert Sanitize(tag)[i] in Sanitize(tag);
    }
  }

  // An angle bracket opens a begin marker, and is nowhere else in it.
  lemma BeginOpens(tag: string, i: nat)
    requires TagSafe(tag) && i < |BeginMarker(tag)| && BeginMarker(tag)[i] == '<'
    ensures i == 0
  {
    hide BeginMarker, Sanitize, TagSafe;
    SanitizedFree(tag);
    BeginChars(tag, i);
  }

  lemma EndOpens(tag: string, i: nat)
    requires TagSafe(tag) && i + 1 < |EndMarker(tag)| && EndMarker(tag)[i] == '<' && EndMarker(tag)[i + 1] == '!'
    ensures i == 0
  {
    hide EndMarker, Sanitize, TagSafe;
    SanitizedFree(tag);
    EndChars(tag, i);
    EndChars(tag, i + 1);
  }

  lemma BeginsDiffer(t: string, u: string)
    requires TagSafe(t) && TagSafe(u) && Sanitize(t) != Sanitize(u)
    ensures Find(BeginMarker(u), BeginMarker(t)).None?
  {
    hide Find, OccursAt, BeginMarker, Sanitize, TagSafe;
    MarkerLengths(t);
    var text, pat := BeginMarker(u), BeginMarker(t);
    if Find(text, pat).Some? {
      var j := Find(text, pat).value;
      OccursFits(text, pat, j);
      CharsMatch(text, pat, j, 0);
      BeginChars(t, 0);
      BeginOpens(u, j);
      BeginsSame(t, u);
    }
  }

  lemma OccursFits(text: string, pat: string, j: nat)
    requires OccursAt(text, pat, j)
    ensures j + |pat| <= |text|
  {
  }

  // One begin marker starts with another only if the tags are the same.
  lemma BeginsSame(t: string, u: string)
    requires TagSafe(u) && OccursAt(BeginMarker(u), BeginMarker(t), 0)
    ensures Sanitize(t) == Sanitize(u)
  {
    hide BeginMarker, Sanitize, OccursAt, TagSafe;
    SanitizedFree(u);
    MarkerLengths(t);
    MarkerLengths(u);
    OccursFits(BeginMarker(u), BeginMarker(t), 0);
    var x, y := Sanitize(t), Sanitize(u);
    if |x| < |y| {
      ShorterDiffers(t, u);
    } else {
      forall i | 0 <= i < |x| ensures x[i] == y[i] {
        CharsMatch(BeginMarker(u), BeginMarker(t), 0, 18 + i);
        BeginChars(t, 18 + i);
        BeginChars(u, 18 + i);
      }
    }
  }

  // The bracket that ends the shorter marker meets a letter of the longer.
  lemma ShorterDiffers(t: string, u: string)
    requires TagSafe(u) && |Sanitize(t)| < |Sanitize(u)|
    ensures !OccursAt(BeginMarker(u), BeginMarker(t), 0)
  {
    hide BeginMarker, Sanitize, OccursAt, TagSafe;
    SanitizedFree(u);
    MarkerLengths(t);
    MarkerLengths(u);
    var p := 18 + |Sanitize(t)| + 7;
    BeginChars(t, p);
    BeginChars(u, p);
    if OccursAt(BeginMarker(u), BeginMarker(t), 0) {
      CharsMatch(BeginMarker(u), BeginMarker(t), 0, p);
    }
  }

  lemma BeginNotInEnd(t: string, u: string)
    requires TagSafe(u)
    ensures Find(EndMarker(u), BeginMarker(t)).None?
  {
    hide Find, OccursAt, BeginMarker, EndMarker, Sanitize, TagSafe;
    var text, pat := EndMarker(u), BeginMarker(t);
    MarkerLengths(t);
    MarkerLengths(u);
    if Find(text, pat).Some? {
      var j := Find(text, pat).value;
      OccursFits(text, pat, j);
      BeginChars(t, 0);
      BeginChars(t, 1);
      BeginChars(t, 5);
      CharsMatch(text, pat, j, 0);
      CharsMatch(text, pat, j, 1);
      CharsMatch(text, pat, j, 5);
      EndOpens(u, j);
      EndChars(u, 5);
    }
  }

  // The rendered block is one the theorems above speak of.
  lemma RenderedBlockOk(tag: string, prose: string)
    requires TagSafe(tag) && ProseSafe(prose, {tag})
    ensures BlockOk(Block(tag, BlockText(tag, prose), 1))
  {
    hide Find, OccursAt, BeginMarker, EndMarker, Sanitize, NoFeedIn, Feeds;
    var begin, end := BeginMarker(tag), EndMarker(tag);
    RenderedEdges(tag, prose);
    RenderedEnd(tag, prose);
    AfterBegin(begin, prose, end);
    FeedsLength(1);
  }

  lemma RenderedEdges(tag: string, prose: string)
    ensures var text := BlockText(tag, prose);
      OccursAt(text, BeginMarker(tag), 0) && text != "" && text[0] != '\n' && text[|text| - 1] != '\n'
  {
    var begin, end, text := BeginMarker(tag), EndMarker(tag), BlockText(tag, prose);
    MarkerLengths(tag);
    BeginChars(tag, 0);
    EndChars(tag, |end| - 1);
    hide BeginMarker, EndMarker, Sanitize;
    assert text[0..|begin|] == begin;
    assert text[0] == begin[0] && text[|text| - 1] == end[|end| - 1];
  }

  // The end marker is found at the end.
  lemma RenderedEnd(tag: string, prose: string)
    requires TagSafe(tag) && ProseSafe(prose, {tag})
    ensures Find("" + Feeds(1) + (prose + Feeds(1) + EndMarker(tag)), EndMarker(tag)) == Some(|prose| + 2)
  {
    hide Find, OccursAt, BeginMarker, EndMarker, Sanitize, NoFeedIn, Feeds;
    var end := EndMarker(tag);
    MarkersHaveNoFeed(tag);
    BeginNotEmpty(tag);
    WholeOccurs(end);
    FindIs(end, end, 0);
    NothingInNothing(end);
    FoundShift(prose, 1, end, end, 0);
    FoundShift("", 1, prose + Feeds(1) + end, end, |prose| + 1);
  }

  lemma WholeOccurs(s: string)
    ensures OccursAt(s, s, 0)
  {
    assert s[0..|s|] == s;
  }

  lemma NothingInNothing(pat: string)
    requires pat != ""
    ensures Find("", pat).None?
  {
  }

  lemma AfterBegin(begin: string, prose: string, end: string)
    ensures (begin + "\n" + (prose + "\n" + end))[|begin|..] == "" + Feeds(1) + (prose + Feeds(1) + end)
  {
    assert Feeds(1) == "\n";
    assert (begin + "\n" + (prose + "\n" + end))[|begin|..] == "\n" + (prose + "\n" + end);
  }

  // ---- The text between the markers --------------------------------------------------------------

  // All there is to know of a marker here: how it opens and how it ends.
  predicate MarkerLike(pat: string) {
    |pat| > 5 && pat[0] == '<' && pat[1] == '!' && pat[5] != 'm' && pat[|pat| - 1] == '>' && NoFeedIn(pat)
  }

  lemma MarkersAreLike(tag: string)
    requires TagSafe(tag)
    ensures MarkerLike(BeginMarker(tag)) && MarkerLike(EndMarker(tag))
  {
    hide BeginMarker, EndMarker, Sanitize, NoFeedIn;
    MarkersHaveNoFeed(tag);
    MarkerLengths(tag);
    BeginChars(tag, 0);
    BeginChars(tag, 1);
    BeginChars(tag, 5);
    BeginChars(tag, |BeginMarker(tag)| - 1);
    EndChars(tag, 0);
    EndChars(tag, 1);
    EndChars(tag, 5);
    EndChars(tag, |EndMarker(tag)| - 1);
  }

  lemma NoOpening(text: string, pat: string)
    requires MarkerLike(pat) && '<' !in text
    ensures Find(text, pat).None?
  {
    hide Find, OccursAt;
    if Find(text, pat).Some? {
      var j := Find(text, pat).value;
      OccursFits(text, pat, j);
      CharsMatch(text, pat, j, 0);
      NowhereIn(text, '<');
    }
  }

  // A line that opens like a marker and goes on differently.
  lemma OpensOtherwise(rest: string, pat: string)
    requires MarkerLike(pat) && '<' !in rest && |rest| > 5 && rest[4] == 'm'
    ensures Find("<" + rest, pat).None?
  {
    hide Find, OccursAt;
    var text := "<" + rest;
    if Find(text, pat).Some? {
      var j := Find(text, pat).value;
      OccursFits(text, pat, j);
      CharsMatch(text, pat, j, 0);
      CharsMatch(text, pat, j, 5);
      NowhereIn(rest, '<');
    }
  }

  // A path between text that cannot open a marker and text that cannot end one.
  lemma Enclosed(before: string, path: string, after: string, pat: string)
    requires MarkerLike(pat) && Find(path, pat).None? && '>' !in after
    requires forall i :: 0 <= i < |before| && before[i] == '<' ==> i + 1 < |before| && before[i + 1] != '!'
    ensures Find(before + path + after, pat).None?
  {
    hide Find, OccursAt;
    var text := before + path + after;
    if Find(text, pat).Some? {
      var j := Find(text, pat).value;
      OccursFits(text, pat, j);
      CharsMatch(text, pat, j, 0);
      CharsMatch(text, pat, j, 1);
      CharsMatch(text, pat, j, |pat| - 1);
      NowhereIn(after, '>');
      InsideOccurs(before, path, after, pat, j);
    }
  }

  lemma InsideOccurs(before: string, path: string, after: string, pat: string, j: nat)
    requires OccursAt(before + path + after, pat, j) && |before| <= j && j + |pat| <= |before| + |path|
    ensures OccursAt(path, pat, j - |before|)
  {
    var text := before + path + after;
    assert text[j..j + |pat|] == path[j - |before|..j - |before| + |pat|];
  }

  lemma ManagedQuiet()
    ensures '<' !in MANAGED
  {
  }

  lemma ManagedOpens()
    ensures |MANAGED| > 5 && MANAGED[4] == 'm'
  {
  }

  lemma MountQuiet()
    ensures '<' !in MOUNT_BEFORE && '>' !in MOUNT_AFTER
  {
  }

  lemma GrepQuiet()
    ensures '<' !in GREP && '<' !in QUERY
  {
  }

  lemma HowQuiet()
    ensures '<' !in HOW
  {
  }

  lemma InsteadQuiet()
    ensures '<' !in INSTEAD
  {
  }

  lemma ReturnsQuiet()
    ensures '<' !in RETURNS
  {
  }

  lemma ScopeQuiet()
    ensures '<' !in SCOPE
  {
  }

  lemma NowhereIn(s: string, c: char)
    requires c !in s
    ensures forall i :: 0 <= i < |s| ==> s[i] != c
  {
  }

  lemma QueryOpens(a: string, b: string)
    requires '<' !in a && '<' !in b
    ensures var before := a + "<n" + b;
      forall i :: 0 <= i < |before| && before[i] == '<' ==> i + 1 < |before| && before[i + 1] != '!'
  {
    NowhereIn(a, '<');
    NowhereIn(b, '<');
  }

  lemma EndingQuiet(pat: string)
    requires MarkerLike(pat)
    ensures Find(Ending(), pat).None?
  {
    hide Find, OccursAt, NoFeedIn, Feeds;
    InsteadQuiet();
    ReturnsQuiet();
    ScopeQuiet();
    NoOpening(INSTEAD, pat);
    NoOpening(RETURNS, pat);
    NoOpening(SCOPE, pat);
    NotAcross(RETURNS, 1, SCOPE, pat);
    NotAcross(INSTEAD, 1, RETURNS + Feeds(1) + SCOPE, pat);
  }

  // The text says nothing like a marker unless the path does.
  lemma ProseHasNoMarker(path: string, pat: string)
    requires MarkerLike(pat) && Find(path, pat).None?
    ensures Find(Prose(path), pat).None?
  {
    hide Find, OccursAt, NoFeedIn, Feeds, MountLine, GrepLine, Ending;
    ManagedQuiet();
    ManagedOpens();
    HowQuiet();
    OpensOtherwise(MANAGED, pat);
    assert Find(MountLine(path), pat).None? by { MountLineOk(path, pat); }
    assert Find(GrepLine(path), pat).None? by { GrepLineOk(path, pat); }
    NoOpening(HOW, pat);
    EndingQuiet(pat);
    NotAcross(GrepLine(path), 2, Ending(), pat);
    NotAcross(HOW, 2, GrepLine(path) + Feeds(2) + Ending(), pat);
    NotAcross(MountLine(path), 1, HOW + Feeds(2) + (GrepLine(path) + Feeds(2) + Ending()), pat);
    NotAcross("<" + MANAGED, 1,
      MountLine(path) + Feeds(1) + (HOW + Feeds(2) + (GrepLine(path) + Feeds(2) + Ending())), pat);
  }

  lemma MountLineOk(path: string, pat: string)
    requires MarkerLike(pat) && Find(path, pat).None?
    ensures Find(MountLine(path), pat).None?
  {
    hide Find, NoFeedIn;
    MountQuiet();
    NowhereIn(MOUNT_BEFORE, '<');
    Enclosed(MOUNT_BEFORE, path, MOUNT_AFTER, pat);
  }

  lemma GrepLineOk(path: string, pat: string)
    requires MarkerLike(pat) && Find(path, pat).None?
    ensures Find(GrepLine(path), pat).None?
  {
    hide Find, NoFeedIn;
    GrepQuiet();
    QueryOpens(GREP, QUERY);
    Enclosed(GREP + "<n" + QUERY, path, "/", pat);
  }

  // Blocks rendered for tags that stay distinct when sanitized, and for mount paths that
  // hold no marker, make a safe library.
  lemma RenderedLibraryOk(user: string, lib: Library, paths: map<string, string>)
    requires UserOk(user) && paths.Keys == lib.Keys
    requires forall t :: t in lib ==>
      TagSafe(t) && lib[t] == BlockText(t, Prose(paths[t])) && Find(user, BeginMarker(t)).None?
    requires forall t, u :: t in lib && u in lib ==>
      Find(paths[t], BeginMarker(u)).None? && Find(paths[t], EndMarker(u)).None?
    requires forall t, u :: t in lib && u in lib && t != u ==> Sanitize(t) != Sanitize(u)
    ensures LibraryOk(user, lib)
    ensures forall t :: t in lib ==> lib[t] + "\n" == RenderBlock(t, paths[t])
  {
    hide Find, OccursAt, BeginMarker, EndMarker, Sanitize, BlockText, BlockOk, Prose, MarkerLike;
    forall t, u | t in lib && u in lib
      ensures Find(Prose(paths[t]), BeginMarker(u)).None? && Find(Prose(paths[t]), EndMarker(u)).None?
    {
      MarkersAreLike(u);
      ProseHasNoMarker(paths[t], BeginMarker(u));
      ProseHasNoMarker(paths[t], EndMarker(u));
    }
    forall t | t in lib ensures BlockOk(Block(t, lib[t], 1)) {
      ProseForOne(Prose(paths[t]), lib.Keys, t);
      RenderedBlockOk(t, Prose(paths[t]));
    }
    forall t, u | t in lib && u in lib && t != u ensures Find(lib[u], BeginMarker(t)).None? {
      RenderedApart(t, u, Prose(paths[u]));
    }
  }

  lemma ProseForOne(prose: string, tags: set<string>, t: string)
    requires ProseSafe(prose, tags) && t in tags
    ensures ProseSafe(prose, {t})
  {
    hide Find;
  }

  lemma RenderedApart(t: string, u: string, prose: string)
    requires TagSafe(t) && TagSafe(u) && Sanitize(t) != Sanitize(u) && Find(prose, BeginMarker(t)).None?
    ensures Find(BlockText(u, prose), BeginMarker(t)).None?
  {
    var begin, end, pat := BeginMarker(u), EndMarker(u), BeginMarker(t);
    MarkersHaveNoFeed(t);
    BeginNotEmpty(t);
    hide Find, OccursAt, BeginMarker, EndMarker, Sanitize, NoFeedIn;
    BeginsDiffer(t, u);
    BeginNotInEnd(t, u);
    NotAcross(prose, 1, end, pat);
    NotAcross(begin, 1, prose + Feeds(1) + end, pat);
    OneFeed(prose);
    OneFeed(begin);
  }
}
