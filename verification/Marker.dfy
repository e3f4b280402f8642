// The `.unisonfs` marker file (crates/unisonfs/src/cmd/marker.rs): printing one, reading
// one, and which contents survive the round trip.
module Marker {
  import opened Basics

  datatype UnisonMarker = UnisonMarker(tag: Option<string>, path: Option<string>, description: Option<string>)

  const BLANK := UnisonMarker(None, None, None)

  // ---- Text ---------------------------------------------------------------------------------

  // `char::is_whitespace`.
  predicate IsSpace(c: char) {
    var n := c as int;
    || 9 <= n <= 13 || n == 0x20 || n == 0x85 || n == 0xA0 || n == 0x1680 || 0x2000 <= n <= 0x200A
    || n == 0x2028 || n == 0x2029 || n == 0x202F || n == 0x205F || n == 0x3000
  }

  function TrimSpaceStart(s: string): string {
    if s != "" && IsSpace(s[0]) then TrimSpaceStart(s[1..]) else s
  }

  function TrimSpaceEnd(s: string): string {
    if s != "" && IsSpace(s[|s| - 1]) then TrimSpaceEnd(s[..|s| - 1]) else s
  }

  function TrimSpace(s: string): string { TrimSpaceEnd(TrimSpaceStart(s)) }

  function TrimQuotes(s: string): string { TrimEnd(TrimStart(s, '"'), '"') }

  // `replace('"', "\\\"")`.
  function Escape(s: string): string {
    if s == "" then "" else (if s[0] == '"' then "\\\"" else [s[0]]) + Escape(s[1..])
  }

  // `replace("\\\"", "\"")`, from the left.
  function Unescape(s: string): string
    decreases |s|
  {
    if s == "" then ""
    else if |s| >= 2 && s[0] == '\\' && s[1] == '"' then "\"" + Unescape(s[2..])
    else [s[0]] + Unescape(s[1..])
  }

  function Chomp(s: string): string {
    if s != "" && s[|s| - 1] == '\r' then s[..|s| - 1] else s
  }

  function Chomped(pieces: seq<string>): seq<string> {
    if pieces == [] then [] else [Chomp(pieces[0])] + Chomped(pieces[1..])
  }

  function LinesFrom(pieces: seq<string>): seq<string>
    requires pieces != []
  {
    var front, last := Chomped(pieces[..|pieces| - 1]), pieces[|pieces| - 1];
    if last == "" then front else front + [last]
  }

  // `str::lines`: the pieces between line feeds, without a carriage return before the line
  // feed, and without the empty piece after the last line feed.
  function Lines(text: string): seq<string> { LinesFrom(Split(text, '\n')) }

  // ---- Printing -------------------------------------------------------------------------------

  function LineFor(key: string, value: string): string { key + " = \"" + Escape(value) + "\"" }

  function FieldText(key: string, value: Option<string>): string {
    match value case None => "" case Some(v) => LineFor(key, v) + "\n"
  }

  function Formatted(m: UnisonMarker): string {
    FieldText("tag", m.tag) + FieldText("path", m.path) + FieldText("description", m.description)
  }

  method FormatMarker(m: UnisonMarker) returns (out: string)
    ensures out == Formatted(m)
  {
    hide LineFor;
    out := "";
    if m.tag.Some? {
      out := out + (LineFor("tag", m.tag.value) + "\n");
    }
    assert out == FieldText("tag", m.tag);
    if m.path.Some? {
      out := out + (LineFor("path", m.path.value) + "\n");
    }
    assert out == FieldText("tag", m.tag) + FieldText("path", m.path);
    if m.description.Some? {
      out := out + (LineFor("description", m.description.value) + "\n");
    }
  }

  // ---- Reading ---------------------------------------------------------------------------------

  function SetField(m: UnisonMarker, key: string, value: string): UnisonMarker {
    if key == "tag" then m.(tag := Some(value))
    else if key == "path" then m.(path := Some(value))
    else if key == "description" then m.(description := Some(value))
    else m
  }

  // What one line does: blank lines, comments, lines without `=` and unknown keys do nothing.
  function ReadLine(m: UnisonMarker, raw: string): UnisonMarker {
    var line := TrimSpace(raw);
    if line == "" || line[0] == '#' || '=' !in line then m
    else
      var i := IndexOf(line, '=');
      SetField(m, TrimSpace(line[..i]), Unescape(TrimQuotes(TrimSpace(line[i + 1..]))))
  }

  function ReadLines(m: UnisonMarker, lines: seq<string>): UnisonMarker
    decreases |lines|
  {
    if lines == [] then m else ReadLines(ReadLine(m, lines[0]), lines[1..])
  }

  function Parsed(text: string): UnisonMarker { ReadLines(BLANK, Lines(text)) }

  method ParseMarkerText(text: string) returns (m: UnisonMarker)
    ensures m == Parsed(text)
  {
    m := BLANK;
    var lines := Lines(text);
    var i := 0;
    while i < |lines|
      invariant 0 <= i <= |lines|
      invariant ReadLines(BLANK, lines) == ReadLines(m, lines[i..])
    {
      ghost var before := m;
      var line := TrimSpace(lines[i]);
      if line != "" && line[0] != '#' && '=' in line {
        var eq := IndexOf(line, '=');
        var key, val := TrimSpace(line[..eq]), Unescape(TrimQuotes(TrimSpace(line[eq + 1..])));
        match key {
          case "tag" => m := m.(tag := Some(val));
          case "path" => m := m.(path := Some(val));
          case "description" => m := m.(description := Some(val));
          case _ =>
        }
      }
      assert m == ReadLine(before, lines[i]);
      assert lines[i..][1..] == lines[i + 1..];
      i := i + 1;
    }
  }

  // ---- Escaping ---------------------------------------------------------------------------------

  lemma {:induction false} UnescapeEscape(s: string)
    ensures Unescape(Escape(s)) == s
    ensures s != "" ==> Escape(s) != "" && Escape(s)[0] != '"'
  {
    if s != "" {
      UnescapeEscape(s[1..]);
      var rest := Escape(s[1..]);
      if s[0] == '"' {
        assert Escape(s)[2..] == rest;
      } else {
        assert Escape(s)[1..] == rest;
        assert !(s[0] == '\\' && rest != "" && rest[0] == '"') by { if s[1..] != "" { UnescapeEscape(s[1..]); } }
      }
    }
  }

  lemma {:induction false} EscapeKeeps(s: string, c: char)
    requires c != '"' && c != '\\'
    ensures c in Escape(s) <==> c in s
  {
    if s != "" {
      EscapeKeeps(s[1..], c);
    }
  }

  lemma {:induction false} EscapeEnd(s: string)
    ensures s == "" <==> Escape(s) == ""
    ensures s != "" ==> Escape(s)[|Escape(s)| - 1] == s[|s| - 1]
    ensures s != "" && s[|s| - 1] == '"' ==> |Escape(s)| >= 2 && Escape(s)[|Escape(s)| - 2] == '\\'
  {
    if s != "" {
      EscapeEnd(s[1..]);
    }
  }

  predicate EndsInQuote(s: string) { s != "" && s[|s| - 1] == '"' }

  // Trimming the quotes takes the enclosing ones off, unless the value ends in one.
  lemma TrimQuotesClean(v: string)
    requires !EndsInQuote(v)
    ensures TrimQuotes("\"" + Escape(v) + "\"") == Escape(v)
  {
    UnescapeEscape(v);
    EscapeEnd(v);
    var e := Escape(v);
    assert ("\"" + e + "\"")[1..] == e + "\"";
    if e != "" {
      assert TrimStart(e + "\"", '"') == e + "\"";
      TrimEndOne(e, '"');
    } else {
      assert TrimStart("\"", '"') == "";
    }
  }

  // What reading a printed value gives.
  function Echo(v: string): string { Unescape(TrimQuotes("\"" + Escape(v) + "\"")) }

  lemma EchoClean(v: string)
    requires !EndsInQuote(v)
    ensures Echo(v) == v
  {
    TrimQuotesClean(v);
    UnescapeEscape(v);
  }

  lemma TrimQuotesTwice(e: string)
    requires |e| >= 2 && e[0] != '"' && e[|e| - 1] == '"' && e[|e| - 2] != '"'
    ensures TrimQuotes("\"" + e + "\"") == e[..|e| - 1]
  {
    var n := |e|;
    assert ("\"" + e + "\"")[1..] == e + "\"";
    assert TrimStart(e + "\"", '"') == e + "\"";
    assert (e + "\"")[..n] == e;
    assert TrimEnd(e + "\"", '"') == TrimEnd(e, '"') == TrimEnd(e[..n - 1], '"');
    assert TrimEnd(e[..n - 1], '"') == e[..n - 1];
  }

  // A value that ends in a quote comes back ending in a backslash.
  lemma EchoDirty(v: string)
    requires EndsInQuote(v)
    ensures Echo(v) != v
  {
    UnescapeEscape(v);
    EscapeEnd(v);
    var e := Escape(v);
    hide Escape, Unescape, TrimQuotes;
    TrimQuotesTwice(e);
    UnescapeEnd(e[..|e| - 1]);
    assert v[|v| - 1] == '"';
  }

  lemma {:induction false} UnescapeEnd(s: string)
    requires s != "" && s[|s| - 1] != '"'
    ensures Unescape(s) != "" && Unescape(s)[|Unescape(s)| - 1] == s[|s| - 1]
    decreases |s|
  {
    if |s| >= 2 && s[0] == '\\' && s[1] == '"' {
      UnescapeEnd(s[2..]);
    } else if |s| >= 2 {
      UnescapeEnd(s[1..]);
    }
  }

  // ---- One line --------------------------------------------------------------------------------

  predicate KeyOk(key: string) {
    key != "" && key[0] != '#' && forall c :: c in key ==> c != '=' && c != '\n' && !IsSpace(c)
  }

  lemma TrimEnclosed(s: string)
    requires s != "" && !IsSpace(s[0]) && !IsSpace(s[|s| - 1])
    ensures TrimSpace(s) == s
  {
  }

  lemma LineRead(m: UnisonMarker, key: string, v: string)
    requires KeyOk(key)
    ensures ReadLine(m, Chomp(LineFor(key, v))) == SetField(m, key, Echo(v))
  {
    var quoted := "\"" + Escape(v) + "\"";
    var line := LineFor(key, v);
    assert line == (key + " ") + ['='] + (" " + quoted);
    assert key[0] in key && key[|key| - 1] in key;
    hide Escape, Unescape, TrimQuotes;
    assert Chomp(line) == line;
    TrimEnclosed(line);
    assert '=' !in key + " ";
    IndexOfHead(key + " ", '=', " " + quoted);
    var i := |key + " "|;
    assert line[..i] == key + " " && line[i + 1..] == " " + quoted;
    assert TrimSpace(key + " ") == key by { TrimKey(key); }
    assert TrimSpace(" " + quoted) == quoted by { assert (" " + quoted)[1..] == quoted; TrimEnclosed(quoted); }
  }

  lemma TrimKey(key: string)
    requires KeyOk(key)
    ensures TrimSpace(key + " ") == key
  {
    assert key[0] in key && key[|key| - 1] in key;
    var padded := key + " ";
    assert padded[0] == key[0] && padded[|padded| - 1] == ' ' && padded[..|padded| - 1] == key;
    assert TrimSpaceStart(padded) == padded;
    assert TrimSpaceEnd(key) == key;
  }

  // ---- Round trip --------------------------------------------------------------------------------

  predicate NoFeed(value: Option<string>) { value.Some? ==> '\n' !in value.value }

  predicate NoFeeds(m: UnisonMarker) { NoFeed(m.tag) && NoFeed(m.path) && NoFeed(m.description) }

  predicate Clean(value: Option<string>) {
    value.Some? ==> '\n' !in value.value && !EndsInQuote(value.value)
  }

  function EchoField(value: Option<string>): Option<string> {
    match value case None => None case Some(v) => Some(Echo(v))
  }

  lemma KeysOk()
    ensures KeyOk("tag") && KeyOk("path") && KeyOk("description")
  {
  }

  // The lines of a printed marker.
  function FieldLine(key: string, value: Option<string>): seq<string> {
    match value case None => [] case Some(v) => [LineFor(key, v)]
  }

  lemma FieldLines(key: string, value: Option<string>, rest: string)
    requires KeyOk(key) && NoFeed(value)
    ensures Split(FieldText(key, value) + rest, '\n') == FieldLine(key, value) + Split(rest, '\n')
  {
    if value.Some? {
      var line := LineFor(key, value.value);
      EscapeKeeps(value.value, '\n');
      hide Split, Escape;
      assert '\n' !in line;
      assert FieldText(key, value) + rest == line + ['\n'] + rest;
      SplitHead(line, '\n', rest);
    } else {
      assert FieldText(key, value) + rest == rest;
    }
  }

  lemma FieldRead(m: UnisonMarker, key: string, v: string, rest: seq<string>)
    requires KeyOk(key)
    ensures ReadLines(m, Chomped([LineFor(key, v)] + rest)) == ReadLines(SetField(m, key, Echo(v)), Chomped(rest))
  {
    var lines := [LineFor(key, v)] + rest;
    assert lines[1..] == rest;
    hide ReadLine, LineFor, Chomp;
    assert Chomped(lines) == [Chomp(LineFor(key, v))] + Chomped(rest);
    LineRead(m, key, v);
  }

  lemma LinesOf(text: string, pieces: seq<string>)
    requires Split(text, '\n') == pieces + [""]
    ensures Lines(text) == Chomped(pieces)
  {
    hide Split, Chomped;
    assert (pieces + [""])[..|pieces|] == pieces;
  }

  lemma FormattedPieces(m: UnisonMarker)
    requires NoFeeds(m)
    ensures Split(Formatted(m), '\n') == FieldLine("tag", m.tag)
      + (FieldLine("path", m.path) + (FieldLine("description", m.description) + [""]))
  {
    hide KeyOk, NoFeed, FieldText, FieldLine, Split;
    KeysOk();
    var a, b, c := FieldText("tag", m.tag), FieldText("path", m.path), FieldText("description", m.description);
    Assoc(a, b, c);
    FieldLines("tag", m.tag, b + c);
    FieldLines("path", m.path, c);
    FieldLines("description", m.description, "");
    assert c + "" == c;
    SplitWhole("", '\n');
  }

  lemma Assoc(a: string, b: string, c: string)
    ensures a + b + c == a + (b + c)
  {
  }

  lemma FormattedLines(m: UnisonMarker)
    requires NoFeeds(m)
    ensures Lines(Formatted(m)) == Chomped(FieldLine("tag", m.tag)
      + (FieldLine("path", m.path) + FieldLine("description", m.description)))
  {
    hide KeyOk, NoFeeds, FieldLine, Split, Formatted, Lines, Chomped;
    var x, y, z := FieldLine("tag", m.tag), FieldLine("path", m.path), FieldLine("description", m.description);
    FormattedPieces(m);
    assert x + (y + (z + [""])) == x + (y + z) + [""];
    LinesOf(Formatted(m), x + (y + z));
  }

  lemma FieldsRead(m: UnisonMarker, key: string, value: Option<string>, rest: seq<string>)
    requires KeyOk(key)
    ensures ReadLines(m, Chomped(FieldLine(key, value) + rest)) ==
      ReadLines(match value case None => m case Some(v) => SetField(m, key, Echo(v)), Chomped(rest))
  {
    if value.Some? {
      FieldRead(m, key, value.value, rest);
    } else {
      assert FieldLine(key, value) + rest == rest;
    }
  }

  lemma NothingLeft(m: UnisonMarker)
    ensures ReadLines(m, Chomped([])) == m
  {
  }

  // Without line feeds every field comes back as its echo.
  lemma ParsedEchoes(m: UnisonMarker)
    requires NoFeeds(m)
    ensures Parsed(Formatted(m)) == UnisonMarker(EchoField(m.tag), EchoField(m.path), EchoField(m.description))
  {
    hide KeyOk, NoFeeds, FieldLine, Formatted, Lines, ReadLines, Chomped, Echo;
    KeysOk();
    FormattedLines(m);
    var y, z := FieldLine("path", m.path), FieldLine("description", m.description);
    assert z + [] == z;
    var m1 := BLANK.(tag := EchoField(m.tag));
    FieldsRead(BLANK, "tag", m.tag, y + z);
    FieldsRead(m1, "path", m.path, z);
    FieldsRead(m1.(path := EchoField(m.path)), "description", m.description, []);
    NothingLeft(m1.(path := EchoField(m.path), description := EchoField(m.description)));
  }

  // ---- Values read have no line feed ---------------------------------------------------------------

  lemma {:induction false} TrimSpaceKeeps(s: string)
    ensures forall c :: c in TrimSpaceStart(s) ==> c in s
    ensures forall c :: c in TrimSpaceEnd(s) ==> c in s
    decreases |s|
  {
    if s != "" {
      TrimSpaceKeeps(s[1..]);
      TrimSpaceKeeps(s[..|s| - 1]);
    }
  }

  lemma {:induction false} TrimKeeps(s: string, q: char)
    ensures forall c :: c in TrimStart(s, q) ==> c in s
    ensures forall c :: c in TrimEnd(s, q) ==> c in s
    decreases |s|
  {
    if s != "" {
      TrimKeeps(s[1..], q);
      TrimKeeps(s[..|s| - 1], q);
    }
  }

  lemma {:induction false} UnescapeKeeps(s: string)
    ensures '\n' in Unescape(s) ==> '\n' in s
    decreases |s|
  {
    if s != "" {
      UnescapeKeeps(s[1..]);
      if |s| >= 2 { UnescapeKeeps(s[2..]); }
    }
  }

  lemma ReadLineNoFeed(m: UnisonMarker, raw: string)
    requires '\n' !in raw && NoFeeds(m)
    ensures NoFeeds(ReadLine(m, raw))
  {
    hide TrimSpaceStart, TrimSpaceEnd, TrimStart, TrimEnd, Unescape;
    TrimSpaceKeeps(raw);
    TrimSpaceKeeps(TrimSpaceStart(raw));
    var line := TrimSpace(raw);
    assert '\n' !in line;
    if '=' in line {
      var rest := line[IndexOf(line, '=') + 1..];
      assert '\n' !in rest;
      TrimSpaceKeeps(rest);
      TrimSpaceKeeps(TrimSpaceStart(rest));
      TrimKeeps(TrimSpace(rest), '"');
      TrimKeeps(TrimStart(TrimSpace(rest), '"'), '"');
      UnescapeKeeps(TrimQuotes(TrimSpace(rest)));
    }
  }

  lemma {:induction false} ReadLinesNoFeed(m: UnisonMarker, lines: seq<string>)
    requires NoFeeds(m) && forall line :: line in lines ==> '\n' !in line
    ensures NoFeeds(ReadLines(m, lines))
    decreases |lines|
  {
    hide NoFeeds, ReadLine;
    if lines != [] {
      assert lines[0] in lines;
      ReadLineNoFeed(m, lines[0]);
      ReadLinesNoFeed(ReadLine(m, lines[0]), lines[1..]);
    }
  }

  lemma {:induction false} ChompedNoFeed(pieces: seq<string>)
    requires forall k :: 0 <= k < |pieces| ==> '\n' !in pieces[k]
    ensures forall line :: line in Chomped(pieces) ==> '\n' !in line
  {
    if pieces != [] {
      ChompedNoFeed(pieces[1..]);
      assert '\n' !in pieces[0];
    }
  }

  lemma ParsedNoFeed(text: string)
    ensures NoFeeds(Parsed(text))
  {
    hide Split, Chomped, ReadLines;
    var pieces := Split(text, '\n');
    ChompedNoFeed(pieces[..|pieces| - 1]);
    ReadLinesNoFeed(BLANK, Lines(text));
  }

  lemma EchoFieldIff(value: Option<string>)
    requires NoFeed(value)
    ensures EchoField(value) == value <==> Clean(value)
  {
    hide Echo;
    if value.Some? {
      if EndsInQuote(value.value) { EchoDirty(value.value); } else { EchoClean(value.value); }
    }
  }

  // A printed marker reads back as it was if and only if no value contains a line feed or
  // ends in a double quote.
  lemma ParseFormatIff(m: UnisonMarker)
    ensures Parsed(Formatted(m)) == m <==> Clean(m.tag) && Clean(m.path) && Clean(m.description)
  {
    hide Parsed, Formatted, EchoField;
    ParsedNoFeed(Formatted(m));
    if NoFeeds(m) {
      ParsedEchoes(m);
      EchoFieldIff(m.tag);
      EchoFieldIff(m.path);
      EchoFieldIff(m.description);
    }
  }

  // ---- What a hand-written line does -----------------------------------------------------------

  // The characters with the White_Space property.
  lemma SpacesAre(c: char)
    ensures IsSpace(c) <==> c as int in {0x9, 0xA, 0xB, 0xC, 0xD, 0x20, 0x85, 0xA0, 0x1680, 0x2000, 0x2001, 0x2002,
      0x2003, 0x2004, 0x2005, 0x2006, 0x2007, 0x2008, 0x2009, 0x200A, 0x2028, 0x2029, 0x202F, 0x205F, 0x3000}
  {
  }

  predicate Spaces(s: string) { forall c :: c in s ==> IsSpace(c) }

  // Nothing to trim.
  predicate Trimmed(s: string) { s == "" || (!IsSpace(s[0]) && !IsSpace(s[|s| - 1])) }

  lemma {:induction false} SpacesGone(s: string)
    requires Spaces(s)
    ensures TrimSpace(s) == ""
  {
    if s != "" {
      assert s[0] in s;
      assert Spaces(s[1..]) by { forall c | c in s[1..] ensures IsSpace(c) { assert c in s; } }
      SpacesGone(s[1..]);
    }
  }

  lemma {:induction false} TrimBefore(a: string, s: string)
    requires Spaces(a)
    ensures TrimSpaceStart(a + s) == TrimSpaceStart(s)
  {
    if a == "" {
      assert a + s == s;
    } else {
      assert a[0] in a && (a + s)[1..] == a[1..] + s;
      TrimBefore(a[1..], s);
    }
  }

  lemma {:induction false} TrimAfter(s: string, b: string)
    requires Spaces(b)
    ensures TrimSpaceEnd(s + b) == TrimSpaceEnd(s)
  {
    if b == "" {
      assert s + b == s;
    } else {
      assert b[|b| - 1] in b && (s + b)[..|s + b| - 1] == s + b[..|b| - 1];
      TrimAfter(s, b[..|b| - 1]);
    }
  }

  lemma TrimPadded(a: string, s: string, b: string)
    requires Spaces(a) && Spaces(b) && Trimmed(s)
    ensures TrimSpace(a + s + b) == s
  {
    if s == "" {
      assert a + s + b == a + b;
      SpacesGone(a + b);
    } else {
      assert a + s + b == a + (s + b);
      TrimBefore(a, s + b);
      TrimAfter(s, b);
      TrimEnclosed(s);
    }
  }

  lemma {:induction false} UnescapePlain(s: string)
    requires '"' !in s
    ensures Unescape(s) == s
    decreases |s|
  {
    if s != "" {
      UnescapePlain(s[1..]);
    }
  }

  lemma TrimQuotesPlain(v: string)
    requires '"' !in v
    ensures TrimQuotes(v) == v && TrimQuotes("\"" + v + "\"") == v
  {
    var quoted := "\"" + v + "\"";
    assert quoted[1..] == v + ['"'];
    if v == "" {
      assert TrimStart("\"", '"') == "";
    } else {
      assert v[0] in v && v[|v| - 1] in v;
      assert TrimStart(v + ['"'], '"') == v + ['"'];
      TrimEndOne(v, '"');
    }
  }

  // The line after its spaces are trimmed.
  lemma LineSplit(m: UnisonMarker, raw: string, left: string, right: string)
    requires TrimSpace(raw) == left + ['='] + right && '=' !in left && left != "" && left[0] != '#'
    ensures ReadLine(m, raw) == SetField(m, TrimSpace(left), Unescape(TrimQuotes(TrimSpace(right))))
  {
    hide TrimSpace, Unescape, TrimQuotes, SetField;
    IndexOfHead(left, '=', right);
    var line := left + ['='] + right;
    assert line[..|left|] == left && line[|left| + 1..] == right;
  }

  lemma LineTrims(a: string, key: string, b: string, c: string, w: string, d: string)
    requires Spaces(a) && Spaces(b) && Spaces(c) && Spaces(d) && KeyOk(key) && Trimmed(w)
    ensures TrimSpace(a + (key + b + ['='] + (c + w)) + d) == key + b + ['='] + (if w == "" then "" else c + w)
    ensures '=' !in key + b && (key + b)[0] != '#'
  {
    assert key[0] in key;
    assert !IsSpace('=');
    var core := key + b + ['='] + (if w == "" then "" else c + w);
    assert Trimmed(core);
    if w == "" {
      assert a + (key + b + ['='] + (c + w)) + d == a + core + (c + d);
      TrimPadded(a, core, c + d);
    } else {
      TrimPadded(a, core, d);
    }
  }

  // A line of a key, an equals sign and a value without quotes in it, with any spaces around
  // these three and with or without quotes around the value.
  lemma LineSets(m: UnisonMarker, a: string, key: string, b: string, c: string, v: string, d: string, quoted: bool)
    requires Spaces(a) && Spaces(b) && Spaces(c) && Spaces(d) && KeyOk(key)
    requires '"' !in v && (quoted || Trimmed(v))
    ensures var w := if quoted then "\"" + v + "\"" else v;
      ReadLine(m, a + (key + b + ['='] + (c + w)) + d) ==
        if key == "tag" then UnisonMarker(Some(v), m.path, m.description)
        else if key == "path" then UnisonMarker(m.tag, Some(v), m.description)
        else if key == "description" then UnisonMarker(m.tag, m.path, Some(v))
        else m
  {
    var w := if quoted then "\"" + v + "\"" else v;
    var right := if w == "" then "" else c + w;
    assert Trimmed(w);
    LineTrims(a, key, b, c, w, d);
    TrimQuotesPlain(v);
    UnescapePlain(v);
    assert TrimSpace(key + b) == key by {
      assert key[0] in key && key[|key| - 1] in key;
      assert "" + key + b == key + b;
      TrimPadded("", key, b);
    }
    assert TrimSpace(right) == w by {
      assert c + w + "" == c + w;
      if w != "" { TrimPadded(c, w, ""); }
    }
    hide TrimSpace, Unescape, TrimQuotes, Spaces, Trimmed, KeyOk;
    LineSplit(m, a + (key + b + ['='] + (c + w)) + d, key + b, right);
  }

  lemma {:induction false} HashStays(s: string)
    requires s != "" && s[0] == '#'
    ensures TrimSpaceEnd(s) != "" && TrimSpaceEnd(s)[0] == '#'
  {
    if IsSpace(s[|s| - 1]) {
      HashStays(s[..|s| - 1]);
    }
  }

  // Blank lines, comments and lines without an equals sign do nothing.
  lemma LineIgnored(m: UnisonMarker, raw: string, a: string, rest: string)
    requires Spaces(raw) || '=' !in raw || (Spaces(a) && raw == a + ("#" + rest))
    ensures ReadLine(m, raw) == m
  {
    if Spaces(raw) {
      SpacesGone(raw);
    } else if '=' !in raw {
      TrimSpaceKeeps(raw);
      TrimSpaceKeeps(TrimSpaceStart(raw));
    } else {
      TrimBefore(a, "#" + rest);
      HashStays("#" + rest);
    }
  }

  // Lines are read in order, so the last line of a key decides.
  lemma {:induction false} ReadLinesSnoc(m: UnisonMarker, lines: seq<string>, line: string)
    ensures ReadLines(m, lines + [line]) == ReadLine(ReadLines(m, lines), line)
    decreases |lines|
  {
    hide ReadLine;
    if lines == [] {
      assert lines + [line] == [line] && [line][1..] == [];
    } else {
      assert (lines + [line])[1..] == lines[1..] + [line];
      ReadLinesSnoc(ReadLine(m, lines[0]), lines[1..], line);
    }
  }

  lemma OnePiece(piece: string, pieces: seq<string>)
    requires pieces != []
    ensures LinesFrom([piece] + pieces) == [Chomp(piece)] + LinesFrom(pieces)
  {
    hide Chomp;
    var all := [piece] + pieces;
    assert all[..|all| - 1] == [piece] + pieces[..|pieces| - 1];
    assert ([piece] + pieces[..|pieces| - 1])[1..] == pieces[..|pieces| - 1];
  }

  lemma OneLine(piece: string, rest: string)
    requires '\n' !in piece
    ensures Lines(piece + "\n" + rest) == [Chomp(piece)] + Lines(rest)
  {
    hide Split, Chomp, LinesFrom;
    assert piece + "\n" + rest == piece + ['\n'] + rest;
    SplitHead(piece, '\n', rest);
    OnePiece(piece, Split(rest, '\n'));
  }

  lemma ChompIs(line: string)
    requires line == "" || line[|line| - 1] != '\r'
    ensures Chomp(line) == line && Chomp(line + "\r") == line
  {
    assert (line + "\r")[..|line|] == line;
  }

  lemma LastLine(line: string)
    requires '\n' !in line
    ensures Lines(line) == if line == "" then [] else [line]
  {
    SplitWhole(line, '\n');
  }

  // Lines end in a line feed, with or without a carriage return before it; the last may have none.
  lemma LinesAre(line: string, rest: string)
    requires '\n' !in line && (line == "" || line[|line| - 1] != '\r')
    ensures Lines(line) == if line == "" then [] else [line]
    ensures Lines(line + "\n" + rest) == [line] + Lines(rest) && Lines(line + "\r\n" + rest) == [line] + Lines(rest)
  {
    LastLine(line);
    hide Split, Chomp, Lines;
    ChompIs(line);
    OneLine(line, rest);
    assert line + "\r\n" + rest == (line + "\r") + "\n" + rest;
    assert '\n' !in line + "\r";
    OneLine(line + "\r", rest);
  }
}
