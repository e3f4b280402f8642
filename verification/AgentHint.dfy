// Delimited blocks in agents' instruction files (agent_hint.rs): one per mount, written,
// replaced and taken out again between text that belongs to the user.
module AgentHint {
  import opened Basics

  const BEGIN_PREFIX := "<!-- >>> unisonfs:"
  const BEGIN_SUFFIX := ":begin >>> -->"
  const END_PREFIX := "<!-- <<< unisonfs:"
  const END_SUFFIX := ":end <<< -->"

  // `replace("--", "__")`.
  function Sanitize(tag: string): string
    decreases |tag|
  {
    if |tag| >= 2 && tag[0] == '-' && tag[1] == '-' then "__" + Sanitize(tag[2..])
    else if tag == "" then ""
    else [tag[0]] + Sanitize(tag[1..])
  }

  function BeginMarker(tag: string): string { BEGIN_PREFIX + Sanitize(tag) + BEGIN_SUFFIX }

  function EndMarker(tag: string): string { END_PREFIX + Sanitize(tag) + END_SUFFIX }

  const MANAGED :=
    "!-- managed by `unisonfs mount`;" + " auto-removed on `unisonfs " + "unmount` -->"
  const MOUNT_BEFORE := "The directory `"
  const MOUNT_AFTER := "/` is a Unison brain mount" + " with semantic search."
  const HOW := "When searching inside this" + " directory, use:"
  const GREP := "    unisonfs grep \""
  const QUERY := "atural language query>\" "
  const INSTEAD := "instead of grep, rg, find, or" + " your built-in search tool. It" + " returns"
  const RETURNS := "semantically relevant excerpts" + " via a vector index. Files" + " outside"
  const SCOPE := "this directory behave normally" + " \U{2014} this rule is scoped to" + " that path only."

  function Feeds(n: nat): string { seq(n, i => '\n') }

  function MountLine(path: string): string { MOUNT_BEFORE + path + MOUNT_AFTER }

  function GrepLine(path: string): string { GREP + "<n" + QUERY + path + "/" }

  function Ending(): string { INSTEAD + Feeds(1) + (RETURNS + Feeds(1) + SCOPE) }

  // What the block says, between its two marker lines.
  function Prose(path: string): string {
    "<" + MANAGED + Feeds(1) + (MountLine(path) + Feeds(1) + (HOW + Feeds(2) + (GrepLine(path) + Feeds(2) + Ending())))
  }

  // The block without its final line feed.
  function BlockText(tag: string, prose: string): string {
    BeginMarker(tag) + "\n" + (prose + "\n" + EndMarker(tag))
  }

  function RenderBlock(tag: string, path: string): string { BlockText(tag, Prose(path)) + "\n" }

  // ---- Searching ------------------------------------------------------------------------------

  predicate OccursAt(text: string, pat: string, i: nat) {
    i + |pat| <= |text| && text[i..i + |pat|] == pat
  }

  function Find(text: string, pat: string): (i: Option<nat>)
    ensures i.Some? ==> OccursAt(text, pat, i.value) && forall j :: 0 <= j < i.value ==> !OccursAt(text, pat, j)
    ensures i.None? ==> forall j :: !OccursAt(text, pat, j)
  {
    if OccursAt(text, pat, 0) then Some(0)
    else if text == "" then None
    else
      assert forall j :: 0 < j ==> (OccursAt(text, pat, j) <==> OccursAt(text[1..], pat, j - 1))
        by { OccursLater(text, pat); }
      match Find(text[1..], pat)
      case None => None
      case Some(i) => Some(i + 1)
  }

  lemma OccursLater(text: string, pat: string)
    requires text != ""
    ensures forall j :: 0 < j ==> (OccursAt(text, pat, j) <==> OccursAt(text[1..], pat, j - 1))
  {
    forall j | 0 < j ensures OccursAt(text, pat, j) <==> OccursAt(text[1..], pat, j - 1) {
      if j + |pat| <= |text| {
        assert text[1..][j - 1..j - 1 + |pat|] == text[j..j + |pat|];
      }
    }
  }

  lemma FindIs(text: string, pat: string, i: nat)
    requires OccursAt(text, pat, i) && forall j :: 0 <= j < i ==> !OccursAt(text, pat, j)
    ensures Find(text, pat) == Some(i)
  {
  }

  // ---- Editing ----------------------------------------------------------------------------------

  // The text without the first block of the tag, without the line feeds around it, and
  // with one character kept after what came before: the line feed, if there was one.
  function StripBlock(text: string, tag: string): string {
    match Find(text, BeginMarker(tag))
    case None => text
    case Some(b) =>
      var afterBegin := b + |BeginMarker(tag)|;
      match Find(text[afterBegin..], EndMarker(tag))
      case None => text
      case Some(e) =>
        var head := TrimEnd(text[..b], '\n');
        var tail := TrimStart(text[afterBegin + e + |EndMarker(tag)|..], '\n');
        TrimEndLength(text[..b]);
        (if head == "" then "" else text[..|head| + 1]) + tail
  }

  lemma {:induction false} TrimEndLength(s: string)
    ensures |TrimEnd(s, '\n')| <= |s| && TrimEnd(s, '\n') == s[..|TrimEnd(s, '\n')|]
    ensures TrimEnd(s, '\n') != "" ==> TrimEnd(s, '\n')[|TrimEnd(s, '\n')| - 1] != '\n'
  {
    if s != "" && s[|s| - 1] == '\n' {
      TrimEndLength(s[..|s| - 1]);
    }
  }

  function WriteBlock(text: string, tag: string, block: string): string {
    var kept := TrimEnd(StripBlock(text, tag), '\n');
    (if kept == "" then "" else kept + "\n\n") + block
  }

  function TrimBlankLines(s: string): string {
    var t := TrimEnd(s, '\n');
    if t == "" then "" else t + "\n"
  }

  function RemoveBlock(text: string, tag: string): string { TrimBlankLines(StripBlock(text, tag)) }

  method SkipFeeds(text: string, from: nat) returns (i: nat)
    requires from <= |text|
    ensures from <= i <= |text| && text[i..] == TrimStart(text[from..], '\n')
  {
    i := from;
    if i < |text| && text[i] == '\n' {
      i := i + 1;
    }
    while i < |text| && text[i] == '\n'
      invariant from <= i <= |text|
      invariant TrimStart(text[i..], '\n') == TrimStart(text[from..], '\n')
    {
      assert text[i..][1..] == text[i + 1..];
      i := i + 1;
    }
  }

  method BackOverFeeds(text: string, to: nat) returns (i: nat)
    requires to <= |text|
    ensures i <= to && text[..i] == TrimEnd(text[..to], '\n')
  {
    i := to;
    while i > 0 && text[i - 1] == '\n'
      invariant i <= to
      invariant TrimEnd(text[..i], '\n') == TrimEnd(text[..to], '\n')
    {
      assert text[..i][..i - 1] == text[..i - 1];
      i := i - 1;
    }
  }

  method Strip(text: string, tag: string) returns (out: string)
    ensures out == StripBlock(text, tag)
  {
    hide Find, BeginMarker, EndMarker, TrimStart, TrimEnd;
    var begin, end := BeginMarker(tag), EndMarker(tag);
    var beginIdx := Find(text, begin);
    if beginIdx.None? {
      return text;
    }
    var afterBegin := beginIdx.value + |begin|;
    var endRel := Find(text[afterBegin..], end);
    if endRel.None? {
      return text;
    }
    var tailStart := SkipFeeds(text, afterBegin + endRel.value + |end|);
    var headEnd := BackOverFeeds(text, beginIdx.value);
    BeginNotEmpty(tag);
    if headEnd > 0 {
      headEnd := headEnd + 1;
    }
    out := text[..headEnd] + text[tailStart..];
  }

  lemma BeginNotEmpty(tag: string)
    ensures BeginMarker(tag) != "" && EndMarker(tag) != ""
  {
  }

  // Whether the file changes, and its text.
  method Write(original: string, tag: string, newBlock: string) returns (changed: bool, updated: string)
    ensures updated == WriteBlock(original, tag, newBlock)
    ensures changed <==> updated != original
  {
    var stripped := Strip(original, tag);
    updated := TrimEnd(stripped, '\n');
    if updated != "" {
      updated := updated + "\n\n";
    }
    updated := updated + newBlock;
    changed := updated != original;
  }

  method Remove(original: string, tag: string) returns (changed: bool, final: string)
    ensures final == RemoveBlock(original, tag)
    ensures changed <==> final != original
  {
    var stripped := Strip(original, tag);
    final := TrimBlankLines(stripped);
    changed := final != original;
  }

  // ---- Blocks laid out after the user's text ---------------------------------------------------

  // A block in a file, and how many line feeds come before it.
  datatype Block = Block(tag: string, text: string, gap: nat)

  function Lay(before: string, b: Block): string {
    if before == "" then b.text else before + Feeds(b.gap) + b.text
  }

  // The user's text and the blocks, in order.
  function Laid(user: string, blocks: seq<Block>): string {
    if blocks == [] then user else Lay(Laid(user, blocks[..|blocks| - 1]), blocks[|blocks| - 1])
  }

  function FileText(user: string, blocks: seq<Block>): string {
    var t := Laid(user, blocks);
    if t == "" then "" else t + "\n"
  }

  // What follows a block.
  function Rest(blocks: seq<Block>): string {
    if blocks == [] then "" else Feeds(blocks[0].gap) + blocks[0].text + Rest(blocks[1..])
  }

  predicate NoFeedIn(pat: string) { '\n' !in pat }

  // The block's own end marker is where the block ends, and it is found no earlier.
  predicate BlockOk(b: Block) {
    var n := |BeginMarker(b.tag)|;
    && b.gap >= 1
    && n + |EndMarker(b.tag)| <= |b.text| && OccursAt(b.text, BeginMarker(b.tag), 0)
    && Find(b.text[n..], EndMarker(b.tag)) == Some(|b.text| - n - |EndMarker(b.tag)|)
    && b.text[0] != '\n' && b.text[|b.text| - 1] != '\n'
  }

  // No text holds the begin marker of another's tag.
  predicate Apart(user: string, blocks: seq<Block>) {
    && (forall i :: 0 <= i < |blocks| ==> Find(user, BeginMarker(blocks[i].tag)).None?)
    && (forall i, j :: 0 <= i < |blocks| && 0 <= j < |blocks| && i != j ==>
      Find(blocks[j].text, BeginMarker(blocks[i].tag)).None?)
  }

  predicate UserOk(user: string) { user == "" || user[|user| - 1] != '\n' }

  ghost predicate HintsOk(user: string, blocks: seq<Block>) {
    && UserOk(user) && Apart(user, blocks)
    && forall i :: 0 <= i < |blocks| ==> BlockOk(blocks[i])
  }

  lemma MarkersHaveNoFeed(tag: string)
    requires NoFeedIn(tag)
    ensures NoFeedIn(BeginMarker(tag)) && NoFeedIn(EndMarker(tag))
  {
    SanitizeKeeps(tag, '\n');
  }

  lemma {:induction false} SanitizeKeeps(tag: string, c: char)
    requires c != '_'
    ensures c in Sanitize(tag) ==> c in tag
    decreases |tag|
  {
    if |tag| >= 2 && tag[0] == '-' && tag[1] == '-' {
      SanitizeKeeps(tag[2..], c);
    } else if tag != "" {
      SanitizeKeeps(tag[1..], c);
    }
  }

  // An occurrence lies on one side of the line feeds.
  lemma OccursSomewhere(a: string, g: nat, c: string, pat: string, j: nat)
    requires pat != "" && NoFeedIn(pat) && g >= 1
    ensures OccursAt(a + Feeds(g) + c, pat, j) ==>
      OccursAt(a, pat, j) || (j >= |a| + g && OccursAt(c, pat, j - |a| - g))
  {
    var text := a + Feeds(g) + c;
    if OccursAt(text, pat, j) {
      assert forall k :: 0 <= k < |pat| ==> pat[k] == text[j..j + |pat|][k] == text[j + k];
      if j + |pat| <= |a| {
        assert a[j..j + |pat|] == pat;
      } else if j >= |a| + g {
        assert c[j - |a| - g..j - |a| - g + |pat|] == pat;
      } else {
        FeedInside(text, pat, j, Max(j, |a|));
      }
    }
  }

  lemma FeedInside(text: string, pat: string, j: nat, k: nat)
    requires j <= k < j + |pat| && OccursAt(text, pat, j) && text[k] == '\n'
    ensures !NoFeedIn(pat)
  {
    assert text[j..j + |pat|][k - j] == '\n';
  }

  // Across a line feed nothing is found that is on neither side.
  lemma NotAcross(a: string, g: nat, c: string, pat: string)
    requires pat != "" && NoFeedIn(pat) && g >= 1
    requires Find(a, pat).None? && Find(c, pat).None?
    ensures Find(a + Feeds(g) + c, pat).None?
  {
    hide Find, OccursAt, NoFeedIn, Feeds;
    forall j: nat ensures !OccursAt(a + Feeds(g) + c, pat, j) {
      OccursSomewhere(a, g, c, pat, j);
    }
  }

  // What follows the line feeds is found where it starts.
  lemma FoundAfter(a: string, g: nat, c: string, pat: string)
    requires pat != "" && NoFeedIn(pat) && g >= 1
    requires Find(a, pat).None? && OccursAt(c, pat, 0)
    ensures Find(a + Feeds(g) + c, pat) == Some(|a| + g)
  {
    hide Find, OccursAt, NoFeedIn, Feeds;
    var text := a + Feeds(g) + c;
    StartOfTail(a, g, c, pat);
    forall j: nat | j < |a| + g ensures !OccursAt(text, pat, j) {
      OccursSomewhere(a, g, c, pat, j);
    }
    FindIs(text, pat, |a| + g);
  }

  lemma StartOfTail(a: string, g: nat, c: string, pat: string)
    requires OccursAt(c, pat, 0)
    ensures OccursAt(a + Feeds(g) + c, pat, |a| + g)
  {
    var text := a + Feeds(g) + c;
    assert text[|a| + g..|a| + g + |pat|] == c[0..|pat|];
  }

  // ---- The layout -----------------------------------------------------------------------------

  lemma LaidStep(user: string, pre: seq<Block>, b: Block)
    ensures Laid(user, pre + [b]) == Lay(Laid(user, pre), b)
  {
    assert (pre + [b])[..|pre|] == pre;
  }

  lemma Concats3(a: string, b: string, c: string, d: string)
    ensures a + b + c + d == a + (b + c + d)
  {
  }

  lemma {:induction false} LaidSplit(user: string, pre: seq<Block>, rest: seq<Block>)
    requires Laid(user, pre) != ""
    ensures Laid(user, pre + rest) == Laid(user, pre) + Rest(rest)
    decreases |rest|
  {
    if rest == [] {
      assert pre + rest == pre;
      assert Laid(user, pre) + "" == Laid(user, pre);
    } else {
      var first := rest[0];
      assert pre + rest == (pre + [first]) + rest[1..];
      assert Rest(rest) == Feeds(first.gap) + first.text + Rest(rest[1..]);
      hide Laid, Rest, Feeds;
      LaidStep(user, pre, first);
      LaidSplit(user, pre + [first], rest[1..]);
      Concats3(Laid(user, pre), Feeds(first.gap), first.text, Rest(rest[1..]));
    }
  }

  lemma {:induction false} LaidEnds(user: string, blocks: seq<Block>)
    requires UserOk(user) && forall i :: 0 <= i < |blocks| ==> BlockOk(blocks[i])
    ensures UserOk(Laid(user, blocks))
    ensures blocks != [] ==> Laid(user, blocks) != ""
  {
    hide BlockOk, Lay;
    if blocks != [] {
      LaidEnds(user, blocks[..|blocks| - 1]);
      LayEnds(Laid(user, blocks[..|blocks| - 1]), blocks[|blocks| - 1]);
    }
  }

  lemma LayEnds(t: string, b: Block)
    requires BlockOk(b)
    ensures Lay(t, b) != "" && UserOk(Lay(t, b))
  {
    hide Find, OccursAt, BeginMarker, EndMarker, Feeds;
    BeginNotEmpty(b.tag);
  }

  // Without a begin marker in the user's text and the blocks there is none in the layout.
  lemma {:induction false} LaidFree(user: string, blocks: seq<Block>, pat: string)
    requires pat != "" && NoFeedIn(pat) && Find(user, pat).None?
    requires forall i :: 0 <= i < |blocks| ==> blocks[i].gap >= 1 && Find(blocks[i].text, pat).None?
    ensures Find(Laid(user, blocks), pat).None?
  {
    hide Find;
    if blocks != [] {
      var n := |blocks| - 1;
      LaidFree(user, blocks[..n], pat);
      NotAcross(Laid(user, blocks[..n]), blocks[n].gap, blocks[n].text, pat);
    }
  }

  lemma {:induction false} TrimFeedsEnd(s: string, n: nat)
    requires UserOk(s)
    ensures TrimEnd(s + Feeds(n), '\n') == s
  {
    if n > 0 {
      assert (s + Feeds(n))[..|s| + n - 1] == s + Feeds(n - 1);
      TrimFeedsEnd(s, n - 1);
    } else {
      assert s + Feeds(0) == s;
    }
  }

  lemma {:induction false} TrimFeedsStart(n: nat, s: string)
    requires s == "" || s[0] != '\n'
    ensures TrimStart(Feeds(n) + s, '\n') == s
  {
    if n > 0 {
      assert (Feeds(n) + s)[1..] == Feeds(n - 1) + s;
      TrimFeedsStart(n - 1, s);
    } else {
      assert Feeds(0) + s == s;
    }
  }

  function MovedUp(rest: seq<Block>): seq<Block> {
    if rest == [] then [] else [rest[0].(gap := 1)] + rest[1..]
  }

  // The blocks without the one at `k`; the next one moves up to one line feed.
  function Without(blocks: seq<Block>, k: nat): seq<Block>
    requires k < |blocks|
  {
    blocks[..k] + MovedUp(blocks[k + 1..])
  }

  // ---- Taking one block out -----------------------------------------------------------------------

  function Head(a: string, gap: nat): string { if a == "" then "" else a + Feeds(gap) }

  lemma OccursPrefix(x: string, y: string, pat: string, j: nat)
    requires j + |pat| <= |x|
    ensures OccursAt(x + y, pat, j) <==> OccursAt(x, pat, j)
  {
    assert (x + y)[j..j + |pat|] == x[j..j + |pat|];
  }

  lemma FindPrefix(x: string, y: string, pat: string, e: nat)
    requires Find(x, pat) == Some(e) && e + |pat| == |x|
    ensures Find(x + y, pat) == Some(e)
  {
    hide OccursAt;
    OccursPrefix(x, y, pat, e);
    forall j: nat | j < e ensures !OccursAt(x + y, pat, j) {
      OccursPrefix(x, y, pat, j);
    }
    FindIs(x + y, pat, e);
  }

  // A block is found where it starts.
  lemma BeginFound(a: string, b: Block, r: string)
    requires BlockOk(b) && NoFeedIn(b.tag) && Find(a, BeginMarker(b.tag)).None?
    ensures Find(Head(a, b.gap) + (b.text + r), BeginMarker(b.tag)) == Some(|Head(a, b.gap)|)
  {
    hide Find, BeginMarker, BlockOk, NoFeedIn, OccursAt, Feeds;
    var begin := BeginMarker(b.tag);
    MarkersHaveNoFeed(b.tag);
    BeginNotEmpty(b.tag);
    BeginsThere(b, r);
    GapOk(b);
    if a == "" {
      assert "" + (b.text + r) == b.text + r;
      FindIs(b.text + r, begin, 0);
    } else {
      FoundAfter(a, b.gap, b.text + r, begin);
      FeedsLength(b.gap);
    }
  }

  lemma FeedsLength(n: nat)
    ensures |Feeds(n)| == n
  {
  }

  lemma BeginsThere(b: Block, r: string)
    requires BlockOk(b)
    ensures OccursAt(b.text + r, BeginMarker(b.tag), 0)
  {
    hide Find, BeginMarker, EndMarker;
    OccursPrefix(b.text, r, BeginMarker(b.tag), 0);
  }

  lemma GapOk(b: Block)
    requires BlockOk(b)
    ensures b.gap >= 1
  {
  }

  // And it ends where it ends.
  lemma EndFound(h: string, b: Block, r: string)
    requires BlockOk(b)
    ensures var text, n, m := h + (b.text + r), |BeginMarker(b.tag)|, |EndMarker(b.tag)|;
      && |h| + n <= |text| && n + m <= |b.text|
      && Find(text[|h| + n..], EndMarker(b.tag)) == Some(|b.text| - n - m)
      && text[..|h|] == h && text[|h| + |b.text|..] == r
  {
    var text, n := h + (b.text + r), |BeginMarker(b.tag)|;
    hide Find, BeginMarker, EndMarker, OccursAt;
    assert text[|h| + n..] == b.text[n..] + r;
    FindPrefix(b.text[n..], r, EndMarker(b.tag), |b.text| - n - |EndMarker(b.tag)|);
  }

  lemma HeadTrimmed(a: string, gap: nat, rest: string)
    requires UserOk(a) && gap >= 1
    ensures TrimEnd(Head(a, gap), '\n') == a
    ensures a != "" ==> |a| + 1 <= |Head(a, gap) + rest| && (Head(a, gap) + rest)[..|a| + 1] == a + "\n"
  {
    if a != "" {
      TrimFeedsEnd(a, gap);
      var h := a + Feeds(gap);
      assert h[..|a| + 1] == a + "\n";
      assert (h + rest)[..|a| + 1] == h[..|a| + 1];
    }
  }

  lemma StripPieces(a: string, b: Block, r: string)
    requires UserOk(a) && BlockOk(b) && NoFeedIn(b.tag) && Find(a, BeginMarker(b.tag)).None?
    ensures StripBlock(Head(a, b.gap) + (b.text + r), b.tag) == (if a == "" then "" else a + "\n") + TrimStart(r, '\n')
  {
    hide Find, BeginMarker, EndMarker, OccursAt, TrimStart, TrimEnd, BlockOk, NoFeedIn, Head, Feeds;
    BeginFound(a, b, r);
    EndFound(Head(a, b.gap), b, r);
    GapOk(b);
    HeadTrimmed(a, b.gap, b.text + r);
  }

  // The text before a block, ending in one line feed if it is there at all, and the text
  // after it: what taking a block out is meant to leave.
  function Tidy(before: string, after: string): string {
    var head := TrimEnd(before, '\n');
    (if head == "" then "" else head + "\n") + TrimStart(after, '\n')
  }

  // That is what is left if and only if the block starts a line, or nothing but line feeds
  // comes before it.
  lemma StripTidyIff(text: string, tag: string, b: nat, e: nat)
    requires Find(text, BeginMarker(tag)) == Some(b)
    requires Find(text[b + |BeginMarker(tag)|..], EndMarker(tag)) == Some(e)
    ensures b + |BeginMarker(tag)| + e + |EndMarker(tag)| <= |text|
    ensures StripBlock(text, tag) == Tidy(text[..b], text[b + |BeginMarker(tag)| + e + |EndMarker(tag)|..]) <==>
      TrimEnd(text[..b], '\n') == "" || text[b - 1] == '\n'
  {
    hide Find, BeginMarker, EndMarker, OccursAt, TrimStart, TrimEnd, Sanitize;
    Fits(text, BeginMarker(tag), b);
    Fits(text[b + |BeginMarker(tag)|..], EndMarker(tag), e);
    var head := TrimEnd(text[..b], '\n');
    TrimmedPart(text, b);
    BeginNotEmpty(tag);
    var tail := TrimStart(text[b + |BeginMarker(tag)| + e + |EndMarker(tag)|..], '\n');
    if head != "" {
      assert text[..|head| + 1] == head + [text[|head|]];
      SameTail(head, text[|head|], '\n', tail);
      if text[b - 1] != '\n' {
        BeginsWithBracket(text, tag, b);
        assert text[..b + 1][b] == '<';
      }
    }
  }

  // Trimming stops at the first character that is not a line feed, so either the next one
  // is a line feed or nothing was trimmed.
  lemma {:induction false} TrimmedPart(text: string, b: nat)
    requires b <= |text|
    ensures var head := TrimEnd(text[..b], '\n');
      && |head| <= b && head == text[..|head|]
      && (head != "" ==> b > 0 && if text[b - 1] == '\n' then |head| < b && text[|head|] == '\n' else |head| == b)
  {
    if b > 0 && text[b - 1] == '\n' {
      TrimmedPart(text, b - 1);
      assert text[..b][..b - 1] == text[..b - 1];
    }
  }

  lemma SameTail(head: string, x: char, y: char, tail: string)
    ensures head + [x] + tail == head + [y] + tail <==> x == y
  {
    assert (head + [x] + tail)[|head|] == x && (head + [y] + tail)[|head|] == y;
  }

  // A block that does not start a line leaves its first character behind.
  lemma StripMidLine(text: string, tag: string, b: nat, e: nat)
    requires Find(text, BeginMarker(tag)) == Some(b) && 0 < b && text[b - 1] != '\n'
    requires Find(text[b + |BeginMarker(tag)|..], EndMarker(tag)) == Some(e)
    ensures b + |BeginMarker(tag)| + e + |EndMarker(tag)| <= |text|
    ensures StripBlock(text, tag) == text[..b] + "<"
      + TrimStart(text[b + |BeginMarker(tag)| + e + |EndMarker(tag)|..], '\n')
  {
    hide Find, BeginMarker, EndMarker, OccursAt, TrimStart, TrimEnd, Sanitize;
    Fits(text, BeginMarker(tag), b);
    Fits(text[b + |BeginMarker(tag)|..], EndMarker(tag), e);
    NothingTrimmed(text, b);
    BeginsWithBracket(text, tag, b);
  }

  lemma Fits(text: string, pat: string, i: nat)
    requires OccursAt(text, pat, i)
    ensures i + |pat| <= |text|
  {
  }

  lemma NothingTrimmed(text: string, b: nat)
    requires 0 < b <= |text| && text[b - 1] != '\n'
    ensures TrimEnd(text[..b], '\n') == text[..b]
  {
  }

  lemma BeginsWithBracket(text: string, tag: string, b: nat)
    requires OccursAt(text, BeginMarker(tag), b)
    ensures b + 1 <= |text| && text[..b + 1] == text[..b] + "<"
  {
    hide Find, Sanitize;
    assert BeginMarker(tag)[0] == '<';
    var m := BeginMarker(tag);
    hide BeginMarker;
    assert text[b..b + |m|][0] == m[0];
  }

  lemma RestHead(rest: seq<Block>)
    requires rest != []
    ensures Rest(rest) + "\n" == Feeds(rest[0].gap) + (rest[0].text + (Rest(rest[1..]) + "\n"))
  {
    var f, t, r := Feeds(rest[0].gap), rest[0].text, Rest(rest[1..]);
    assert Rest(rest) == f + t + r;
    hide Rest;
    Concats(f, t, r, "\n");
  }

  // What is left after the block, without the line feeds before it.
  function Below(rest: seq<Block>): string {
    if rest == [] then "" else rest[0].text + (Rest(rest[1..]) + "\n")
  }

  lemma TrimRest(rest: seq<Block>)
    requires rest != [] ==> BlockOk(rest[0])
    ensures TrimStart(Rest(rest) + "\n", '\n') == Below(rest)
  {
    if rest == [] {
      assert Rest(rest) + "\n" == Feeds(1) + "";
      TrimFeedsStart(1, "");
    } else {
      RestHead(rest);
      assert rest[0].text != "" && rest[0].text[0] != '\n' by { hide Find; }
      hide BlockOk, Rest;
      TrimFeedsStart(rest[0].gap, rest[0].text + (Rest(rest[1..]) + "\n"));
    }
  }

  // The text around the block at `k`.
  lemma FileTextAround(user: string, blocks: seq<Block>, k: nat)
    requires k < |blocks| && blocks[k].text != ""
    ensures FileText(user, blocks) == Head(Laid(user, blocks[..k]), blocks[k].gap)
      + (blocks[k].text + (Rest(blocks[k + 1..]) + "\n"))
  {
    var pre, b, rest := blocks[..k], blocks[k], blocks[k + 1..];
    var a := Laid(user, pre);
    LaidStep(user, pre, b);
    assert blocks == (pre + [b]) + rest;
    LaidSplit(user, pre + [b], rest);
    hide Laid, Rest;
    Concats(Head(a, b.gap), b.text, Rest(rest), "\n");
    if a == "" { assert "" + b.text == b.text; }
  }

  lemma Concats(a: string, b: string, c: string, d: string)
    ensures a + b + c + d == a + (b + (c + d))
  {
  }

  // The text without it.
  lemma FileTextWithout(user: string, blocks: seq<Block>, k: nat)
    requires k < |blocks| && (k + 1 < |blocks| ==> blocks[k + 1].text != "")
    ensures var a := Laid(user, blocks[..k]);
      FileText(user, Without(blocks, k)) == (if a == "" then "" else a + "\n") + Below(blocks[k + 1..])
  {
    hide Laid, Rest;
    var pre, rest := blocks[..k], blocks[k + 1..];
    if rest == [] {
      assert Without(blocks, k) == pre;
    } else {
      var moved, all := rest[0].(gap := 1), Without(blocks, k);
      WithoutPieces(blocks, k);
      FileTextAround(user, all, k);
      assert Feeds(1) == "\n";
    }
  }

  lemma WithoutPieces(blocks: seq<Block>, k: nat)
    requires k + 1 < |blocks|
    ensures var all := Without(blocks, k);
      k < |all| && all[..k] == blocks[..k] && all[k] == blocks[k + 1].(gap := 1) && all[k + 1..] == blocks[k + 1..][1..]
  {
  }

  // Stripping a tag takes its block out of the layout and leaves every other one, in order.
  lemma StripRemoves(user: string, blocks: seq<Block>, k: nat)
    requires HintsOk(user, blocks) && k < |blocks| && NoFeedIn(blocks[k].tag)
    ensures StripBlock(FileText(user, blocks), blocks[k].tag) == FileText(user, Without(blocks, k))
  {
    var pre, b := blocks[..k], blocks[k];
    LaidEnds(user, pre);
    MarkersHaveNoFeed(b.tag);
    BeginNotEmpty(b.tag);
    assert b.text != "" by { assert BlockOk(b); }
    assert k + 1 < |blocks| ==> BlockOk(blocks[k + 1]) && blocks[k + 1].text != "";
    forall i | 0 <= i < |pre| ensures pre[i].gap >= 1 && Find(pre[i].text, BeginMarker(b.tag)).None? {
      assert BlockOk(blocks[i]);
    }
    hide Find, BeginMarker, EndMarker, OccursAt, BlockOk, NoFeedIn, Laid, Rest, StripBlock, FileText, Without, Below,
      TrimStart;
    LaidFree(user, pre, BeginMarker(b.tag));
    FileTextAround(user, blocks, k);
    FileTextWithout(user, blocks, k);
    TrimRest(blocks[k + 1..]);
    StripPieces(Laid(user, pre), b, Rest(blocks[k + 1..]) + "\n");
  }

  // ---- What is on the page after one edit -------------------------------------------------------

  // In a text without the tag's begin marker, written as its body and `n` line feeds.
  lemma EditsWithoutBlock(body: string, n: nat, tag: string, block: string)
    requires UserOk(body) && Find(body + Feeds(n), BeginMarker(tag)).None?
    ensures RemoveBlock(body + Feeds(n), tag) == if body == "" then "" else body + "\n"
    ensures WriteBlock(body + Feeds(n), tag, block) == if body == "" then block else body + "\n\n" + block
  {
    hide Find, BeginMarker, EndMarker, TrimEnd, UserOk;
    TrimFeedsEnd(body, n);
  }

  lemma BlockPlace(body: string, n: nat, begin: string, rest: string, m: nat)
    requires begin != "" && NoFeedIn(begin) && (body == "" || n >= 1) && Find(body, begin).None?
    ensures Find(body + Feeds(n) + (begin + rest) + Feeds(m), begin) == Some(|body| + n)
  {
    var text := body + Feeds(n) + (begin + rest) + Feeds(m);
    var tail := begin + rest + Feeds(m);
    assert text == body + Feeds(n) + tail;
    assert tail[..|begin|] == begin;
    if n >= 1 {
      FoundAfter(body, n, tail, begin);
    } else {
      assert text == tail;
      FindIs(text, begin, 0);
    }
  }

  lemma EndPlace(prose: string, end: string, m: nat)
    requires Find(prose + end, end) == Some(|prose|)
    ensures Find(prose + end + Feeds(m), end) == Some(|prose|)
  {
    FindPrefix(prose + end, Feeds(m), end, |prose|);
  }

  lemma CutPieces(body: string, n: nat, block: string, m: nat)
    ensures var text := body + Feeds(n) + block + Feeds(m);
      && text[..|body| + n] == body + Feeds(n)
      && text[|body| + n + |block|..] == Feeds(m)
      && (n >= 1 ==> text[..|body| + 1] == body + "\n")
  {
  }

  lemma AfterMarker(body: string, n: nat, begin: string, rest: string, m: nat)
    ensures (body + Feeds(n) + (begin + rest) + Feeds(m))[|body| + n + |begin|..] == rest + Feeds(m)
  {
  }

  lemma OnlyFeeds(m: nat)
    ensures TrimStart(Feeds(m), '\n') == ""
  {
    TrimFeedsStart(m, "");
    assert Feeds(m) + "" == Feeds(m);
  }

  // Only line feeds come after the block.
  lemma StripsToBody(text: string, tag: string, body: string, n: nat, b: nat, e: nat, m: nat)
    requires UserOk(body) && Find(text, BeginMarker(tag)) == Some(b)
    requires b + |BeginMarker(tag)| + e + |EndMarker(tag)| <= |text|
    requires Find(text[b + |BeginMarker(tag)|..], EndMarker(tag)) == Some(e)
    requires text[..b] == body + Feeds(n) && text[b + |BeginMarker(tag)| + e + |EndMarker(tag)|..] == Feeds(m)
    requires body != "" ==> |body| < |text| && text[..|body| + 1] == body + "\n"
    ensures StripBlock(text, tag) == if body == "" then "" else body + "\n"
  {
    hide BeginMarker, EndMarker, OccursAt, TrimEnd, TrimStart, UserOk, Feeds;
    TrimFeedsEnd(body, n);
    OnlyFeeds(m);
  }

  lemma BlockStripped(body: string, n: nat, tag: string, prose: string, m: nat)
    requires UserOk(body) && NoFeedIn(tag) && (body == "" || n >= 1)
    requires Find(body, BeginMarker(tag)).None? && Find(prose + EndMarker(tag), EndMarker(tag)) == Some(|prose|)
    ensures StripBlock(body + Feeds(n) + (BeginMarker(tag) + (prose + EndMarker(tag))) + Feeds(m), tag)
      == if body == "" then "" else body + "\n"
  {
    hide Find, BeginMarker, EndMarker, TrimEnd, TrimStart, UserOk, NoFeedIn, Feeds, StripBlock, OccursAt;
    var begin, end := BeginMarker(tag), EndMarker(tag);
    assert NoFeedIn(begin) by { MarkersHaveNoFeed(tag); }
    assert begin != "" by { BeginNotEmpty(tag); }
    BlockPlace(body, n, begin, prose + end, m);
    EndPlace(prose, end, m);
    AfterMarker(body, n, begin, prose + end, m);
    CutPieces(body, n, begin + (prose + end), m);
    FeedsLength(n);
    FeedsLength(m);
    StripsToBody(body + Feeds(n) + (begin + (prose + end)) + Feeds(m), tag, body, n, |body| + n, |prose|, m);
  }

  lemma EditsOfStripped(text: string, tag: string, body: string, block: string)
    requires UserOk(body) && StripBlock(text, tag) == if body == "" then "" else body + "\n"
    ensures RemoveBlock(text, tag) == if body == "" then "" else body + "\n"
    ensures WriteBlock(text, tag, block) == if body == "" then block else body + "\n\n" + block
  {
    hide StripBlock, TrimEnd, UserOk;
    if body != "" {
      TrimFeedsEnd(body, 1);
      assert body + Feeds(1) == body + "\n";
      assert body + "\n\n" + block == (body + "\n\n") + block;
    } else {
      TrimFeedsEnd(body, 0);
      assert body + Feeds(0) == body;
    }
  }

  // In a text that is a body, `n` line feeds, the tag's block from its begin marker to its end
  // marker, and `m` line feeds, the new block takes the place of the old one.
  lemma EditsWithBlock(body: string, n: nat, tag: string, prose: string, m: nat, block: string)
    requires UserOk(body) && NoFeedIn(tag) && (body == "" || n >= 1)
    requires Find(body, BeginMarker(tag)).None? && Find(prose + EndMarker(tag), EndMarker(tag)) == Some(|prose|)
    ensures var text := body + Feeds(n) + (BeginMarker(tag) + (prose + EndMarker(tag))) + Feeds(m);
      && RemoveBlock(text, tag) == (if body == "" then "" else body + "\n")
      && WriteBlock(text, tag, block) == if body == "" then block else body + "\n\n" + block
  {
    hide Find, BeginMarker, EndMarker, UserOk, NoFeedIn, Feeds, StripBlock, RemoveBlock, WriteBlock;
    BlockStripped(body, n, tag, prose, m);
    EditsOfStripped(body + Feeds(n) + (BeginMarker(tag) + (prose + EndMarker(tag))) + Feeds(m), tag, body, block);
  }

  // ---- What a block says ---------------------------------------------------------------------------

  // The dashes just before a place.
  function DashesBefore(tag: string, i: nat): nat
    requires i <= |tag|
  {
    if i > 0 && tag[i - 1] == '-' then DashesBefore(tag, i - 1) + 1 else 0
  }

  lemma {:induction false} DashesShift(a: string, tag: string, i: nat)
    requires i <= |tag| && a != ""
    ensures DashesBefore(a + tag, |a| + i)
      == if DashesBefore(tag, i) == i then i + DashesBefore(a, |a|) else DashesBefore(tag, i)
    ensures DashesBefore(tag, i) <= i
  {
    if i > 0 {
      DashesShift(a, tag, i - 1);
    } else {
      DashesPrefix(a, tag, |a|);
    }
  }

  lemma {:induction false} DashesPrefix(a: string, b: string, i: nat)
    requires i <= |a|
    ensures DashesBefore(a + b, i) == DashesBefore(a, i)
  {
    if i > 0 { DashesPrefix(a, b, i - 1); }
  }

  lemma {:induction false} SanitizeSize(tag: string)
    ensures |Sanitize(tag)| == |tag|
    decreases |tag|
  {
    if |tag| >= 2 && tag[0] == '-' && tag[1] == '-' {
      SanitizeSize(tag[2..]);
    } else if tag != "" {
      SanitizeSize(tag[1..]);
    }
  }

  lemma {:induction false} AllDashes(tag: string, i: nat)
    requires 0 < i <= |tag| && DashesBefore(tag, i) == i
    ensures tag[0] == '-'
  {
    if i > 1 { AllDashes(tag, i - 1); }
  }

  lemma DashesOfTwo()
    ensures DashesBefore("--", 2) == 2
  {
    assert DashesBefore("--", 1) == 1;
  }

  // A dash is replaced by an underscore if it is one of a pair, pairs being told off from the
  // left in each row of dashes; nothing else changes.
  lemma {:induction false} SanitizeIs(tag: string, i: nat)
    requires i < |tag|
    ensures |Sanitize(tag)| == |tag|
    ensures Sanitize(tag)[i] ==
      if tag[i] == '-' && (DashesBefore(tag, i) % 2 == 1 || (i + 1 < |tag| && tag[i + 1] == '-')) then '_' else tag[i]
    decreases |tag|
  {
    SanitizeSize(tag);
    var k := if |tag| >= 2 && tag[0] == '-' && tag[1] == '-' then 2 else 1;
    if i >= k {
      var a, rest, j := tag[..k], tag[k..], i - k;
      assert tag == a + rest;
      SanitizeIs(rest, j);
      DashesShift(a, rest, j);
      if k == 2 {
        assert a == "--";
        DashesOfTwo();
      } else {
        assert a == [tag[0]];
        if j > 0 && DashesBefore(rest, j) == j { AllDashes(rest, j); }
      }
    }
  }

  lemma FeedsAre()
    ensures Feeds(1) == "\n" && Feeds(2) == "\n\n"
  {
  }

  lemma Flat(a: string, b: string, c: string, d: string, e: string, f: string, g: string)
    ensures a + "\n" + (b + "\n" + (c + "\n\n" + (d + "\n\n" + (e + "\n" + (f + "\n" + g)))))
      == a + "\n" + b + "\n" + c + "\n\n" + d + "\n\n" + e + "\n" + f + "\n" + g
  {
    var fg := f + "\n" + g;
    var efg := e + "\n" + fg;
    var defg := d + "\n\n" + efg;
    var cdefg := c + "\n\n" + defg;
    assert efg == e + "\n" + f + "\n" + g;
    assert defg == d + "\n\n" + e + "\n" + f + "\n" + g;
    assert cdefg == c + "\n\n" + d + "\n\n" + e + "\n" + f + "\n" + g;
  }

  // The prose names the mounted path twice, in its second and its fifth line.
  lemma ProseIs(path: string)
    ensures Prose(path) == "<" + MANAGED + "\n" + ("The directory `" + path + MOUNT_AFTER) + "\n" + HOW + "\n\n"
      + (GREP + "<n" + QUERY + path + "/") + "\n\n" + INSTEAD + "\n" + RETURNS + "\n" + SCOPE
  {
    FeedsAre();
    Flat("<" + MANAGED, "The directory `" + path + MOUNT_AFTER, HOW, GREP + "<n" + QUERY + path + "/", INSTEAD,
      RETURNS, SCOPE);
  }
}
