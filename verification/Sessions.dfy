/** The sessions.md file: printing the session rows and parsing them back. */
module Sessions {
  import opened Outcomes
  import opened Text
  import opened WordText

  datatype Row = Row(id: string, theme: string, decisions: string, keyChanges: string, nextSession: string, inFlight: string)

  const HEAD := "## Session "

  function Marker(name: string): string { "**" + name + "**:" }

  function Labelled(name: string, v: string): string { Marker(name) + " " + v }

  // ---------- Printing ----------

  predicate IsLineBreak(c: char) {
    '\n' <= c <= '\r' || '\U{1c}' <= c <= '\U{1e}' || c == '\U{85}' || c == '\U{2028}' || c == '\U{2029}'
  }

  lemma LineBreakTable(c: char)
    ensures IsLineBreak(c) <==> c in "\n\U{b}\U{c}\r\U{1c}\U{1d}\U{1e}\U{85}\U{2028}\U{2029}"
  {}

  /** The length of the first line, without its break. */
  function LineLength(s: string): (n: nat)
    ensures n <= |s| && (n < |s| ==> IsLineBreak(s[n]))
    ensures forall i :: 0 <= i < n ==> !IsLineBreak(s[i])
  {
    if s == "" || IsLineBreak(s[0]) then 0 else 1 + LineLength(s[1..])
  }

  /** str.splitlines(), where a carriage return and a newline count as one break. */
  function SplitLines(s: string): seq<string>
    decreases |s|
  {
    if s == "" then []
    else
      var n := LineLength(s);
      if n == |s| then [s]
      else [s[..n]] + SplitLines(if n + 1 < |s| && s[n] == '\r' && s[n + 1] == '\n' then s[n + 2..] else s[n + 1..])
  }

  function AsBullet(line: string): string {
    if "- " <= line then line else "- " + line
  }

  function AsBullets(lines: seq<string>): seq<string> {
    seq(|lines|, i requires 0 <= i < |lines| => AsBullet(lines[i]))
  }

  function KeyLines(keyChanges: string): seq<string> {
    if Strip(keyChanges) == "" then [] else [Marker("Key changes")] + AsBullets(SplitLines(Strip(keyChanges)))
  }

  function IfPresent(name: string, v: string): seq<string> {
    if v == "" then [] else [Labelled(name, v)]
  }

  function RowLines(r: Row): seq<string> {
    [HEAD + r.id, Labelled("Theme", r.theme)] + IfPresent("Decisions", r.decisions) + KeyLines(r.keyChanges)
    + IfPresent("Next session", r.nextSession) + [Labelled("In-flight", r.inFlight)] + [""]
  }

  function AllLines(rows: seq<Row>): seq<string> {
    if rows == [] then [] else AllLines(rows[..|rows| - 1]) + RowLines(rows[|rows| - 1])
  }

  function Render(rows: seq<Row>): string {
    Join(AllLines(rows), "\n")
  }

  /** The program's printer. */
  method RenderRows(rows: seq<Row>) returns (text: string)
    ensures text == Render(rows)
  {
    hide RowLines, Join;
    var lines: seq<string> := [];
    for i := 0 to |rows|
      invariant lines == AllLines(rows[..i])
    {
      assert rows[..i + 1][..i] == rows[..i];
      lines := AppendRow(lines, rows[i]);
    }
    assert rows[..|rows|] == rows;
    text := Join(lines, "\n");
  }

  /** The loop over the key changes. */
  method AppendBullets(before: seq<string>, bullets: seq<string>) returns (lines: seq<string>)
    ensures lines == before + AsBullets(bullets)
  {
    hide AsBullet;
    lines := before;
    for j := 0 to |bullets|
      invariant lines == before + AsBullets(bullets[..j])
    {
      assert AsBullets(bullets[..j + 1]) == AsBullets(bullets[..j]) + [AsBullet(bullets[j])];
      lines := lines + [AsBullet(bullets[j])];
    }
    assert bullets[..|bullets|] == bullets;
  }

  /** The body of the printing loop. */
  method AppendRow(before: seq<string>, r: Row) returns (lines: seq<string>)
    ensures lines == before + RowLines(r)
  {
    hide Labelled, Marker, Strip, SplitLines, AsBullets;
    lines := before + [HEAD + r.id] + [Labelled("Theme", r.theme)];
    if r.decisions != "" { lines := lines + [Labelled("Decisions", r.decisions)]; }
    var kc := Strip(r.keyChanges);
    if kc != "" { lines := AppendBullets(lines + [Marker("Key changes")], SplitLines(kc)); }
    if r.nextSession != "" { lines := lines + [Labelled("Next session", r.nextSession)]; }
    lines := lines + [Labelled("In-flight", r.inFlight)] + [""];
  }

  // ---------- Parsing ----------

  /** The position of the first newline, or the end. */
  function NewlineAt(s: string): (n: nat)
    ensures n <= |s| && (n < |s| ==> s[n] == '\n')
    ensures forall i :: 0 <= i < n ==> s[i] != '\n'
  {
    if s == "" || s[0] == '\n' then 0 else 1 + NewlineAt(s[1..])
  }

  /** The first later line that starts a session, or the end. */
  function NextHeader(s: string): (n: nat)
    ensures n <= |s| && (s != "" ==> n > 0)
  {
    var n := NewlineAt(s);
    if n == |s| then |s|
    else if HEAD <= s[n + 1..] then n + 1
    else n + 1 + NextHeader(s[n + 1..])
  }

  /** The text cut in front of every session header. */
  function Blocks(s: string): seq<string>
    decreases |s|
  {
    if s == "" then [] else [s[..NextHeader(s)]] + Blocks(s[NextHeader(s)..])
  }

  /** The text behind the first occurrence of the marker. */
  function After(s: string, marker: string): (r: Option<string>)
    ensures r.Some? ==> |r.value| + |marker| <= |s|
  {
    if marker <= s then Some(s[|marker|..]) else if s == "" then None else After(s[1..], marker)
  }

  /** The shortest non-empty prefix that is followed by a line starting with two stars, or by the end. */
  function ValueEnd(s: string): (n: nat)
    requires s != ""
    ensures 1 <= n <= |s|
  {
    if |s| == 1 || "\n**" <= s[1..] then 1 else 1 + ValueEnd(s[1..])
  }

  function Value(rest: Option<string>): string {
    if rest == None then ""
    else
      var t := LStrip(rest.value);
      if t == "" then "" else Strip(t[..ValueEnd(t)])
  }

  function Field(block: string, name: string): string {
    Value(After(block, Marker(name)))
  }

  /** The longest run of bullet lines at the front. */
  function Bullets(s: string): (r: string)
    ensures |r| <= |s|
    decreases |s|
  {
    if "- " <= s && |s| > 2 && s[2] != '\n' then
      var n := NewlineAt(s);
      if n == |s| then s else s[..n + 1] + Bullets(s[n + 1..])
    else ""
  }

  /** Drops everything up to the last newline of the leading whitespace; None without one. */
  function AfterLastBreak(s: string): Option<string> {
    if s == "" || !IsSpace(s[0]) then None
    else
      var later := AfterLastBreak(s[1..]);
      if later.Some? then later else if s[0] == '\n' then Some(s[1..]) else None
  }

  function KeyChanges(block: string): string
    decreases |block|
  {
    var rest := After(block, Marker("Key changes"));
    if rest == None then ""
    else
      var list := AfterLastBreak(rest.value);
      if list.Some? then Strip(Bullets(list.value)) else KeyChanges(rest.value)
  }

  function OrNone(v: string): string { if v == "" then "NONE" else v }

  function ParseBlock(raw: string): Option<Row> {
    var block := Strip(raw);
    if !(HEAD <= block) then None
    else
      var n := WordEnd(block[|HEAD|..]);
      if n == 0 then None
      else Some(Row(block[|HEAD|..][..n], Field(block, "Theme"), Field(block, "Decisions"), KeyChanges(block),
                    Field(block, "Next session"), OrNone(Field(block, "In-flight"))))
  }

  function ParseBlocks(blocks: seq<string>): seq<Row> {
    if blocks == [] then []
    else
      var row := ParseBlock(blocks[|blocks| - 1]);
      ParseBlocks(blocks[..|blocks| - 1]) + if row.Some? then [row.value] else []
  }

  function Parse(text: string): seq<Row> {
    ParseBlocks(Blocks(text))
  }

  /** The program's parser, which reads the file in text mode. */
  method ParseSessions(file: string) returns (sessions: seq<Row>)
    ensures sessions == Parse(ReadText(file))
  {
    hide ParseBlock, Blocks;
    var blocks := Blocks(ReadText(file));
    sessions := [];
    for i := 0 to |blocks|
      invariant sessions == ParseBlocks(blocks[..i])
    {
      assert blocks[..i + 1][..i] == blocks[..i];
      var row := ParseBlock(blocks[i]);
      if row.Some? { sessions := sessions + [row.value]; }
    }
    assert blocks[..|blocks|] == blocks;
  }

  // ---------- Lines of a block ----------

  /** The lines behind a line, as they continue the text. */
  function Tail(lines: seq<string>): string {
    if lines == [] then "" else "\n" + Join(lines, "\n")
  }

  lemma JoinHead(line: string, rest: seq<string>)
    ensures Join([line] + rest, "\n") == line + Tail(rest)
  {
    assert ([line] + rest)[1..] == rest;
  }

  predicate NoNewline(s: string) {
    forall i :: 0 <= i < |s| ==> s[i] != '\n'
  }

  /** Two stars never stand next to each other. */
  predicate NoStars(s: string) {
    forall i :: 0 <= i < |s| - 1 ==> !(s[i] == '*' && s[i + 1] == '*')
  }

  /** No two stars are followed by the character c. */
  predicate NoOpening(s: string, c: char) {
    forall i :: 0 <= i < |s| - 2 ==> !(s[i] == '*' && s[i + 1] == '*' && s[i + 2] == c)
  }

  predicate IsMarker(m: string) {
    |m| >= 3 && m[0] == '*' && m[1] == '*' && m[2] != '*' && m[2] != '\n'
  }

  lemma PrefixChars(m: string, s: string)
    requires m <= s && |m| >= 3
    ensures m[0] == s[0] && m[1] == s[1] && m[2] == s[2]
  {}

  /** The search for a marker passes over text in which it cannot start. */
  lemma {:induction false} AfterSkips(a: string, b: string, m: string)
    requires IsMarker(m) && NoOpening(a, m[2]) && NoNewline(a)
    ensures After(a + "\n" + b, m) == After(b, m)
  {
    var s := a + "\n" + b;
    if m <= s { PrefixChars(m, s); }
    if a == "" {
      assert s[1..] == b;
    } else {
      AfterSkips(a[1..], b, m);
      assert s[1..] == a[1..] + "\n" + b;
    }
  }

  lemma {:induction false} AfterMisses(a: string, m: string)
    requires IsMarker(m) && NoOpening(a, m[2])
    ensures After(a, m) == None
  {
    if m <= a { PrefixChars(m, a); }
    if a != "" { AfterMisses(a[1..], m); }
  }

  predicate Quiet(lines: seq<string>, c: char) {
    forall l :: l in lines ==> NoOpening(l, c) && NoNewline(l)
  }

  lemma {:induction false} AfterSkipsLines(lines: seq<string>, rest: seq<string>, m: string)
    requires IsMarker(m) && Quiet(lines, m[2]) && rest != []
    ensures After(Join(lines + rest, "\n"), m) == After(Join(rest, "\n"), m)
  {
    if lines == [] {
      assert lines + rest == rest;
    } else {
      var l := lines[0];
      assert lines + rest == [l] + (lines[1..] + rest);
      JoinHead(l, lines[1..] + rest);
      AfterSkips(l, Join(lines[1..] + rest, "\n"), m);
      AfterSkipsLines(lines[1..], rest, m);
    }
  }

  lemma AfterHere(line: string, tail: string, m: string)
    requires m <= line
    ensures After(line + tail, m) == Some(line[|m|..] + tail)
  {
    assert (line + tail)[|m|..] == line[|m|..] + tail;
  }

  /** The first line that starts with the marker is found behind quiet lines. */
  lemma AfterFindsLine(lines: seq<string>, line: string, rest: seq<string>, m: string)
    requires IsMarker(m) && Quiet(lines, m[2]) && m <= line
    ensures After(Join(lines + [line] + rest, "\n"), m) == Some(line[|m|..] + Tail(rest))
  {
    assert lines + [line] + rest == lines + ([line] + rest);
    AfterSkipsLines(lines, [line] + rest, m);
    JoinHead(line, rest);
    AfterHere(line, Tail(rest), m);
  }

  lemma AfterFindsNothing(lines: seq<string>, last: string, m: string)
    requires IsMarker(m) && Quiet(lines, m[2]) && NoOpening(last, m[2])
    ensures After(Join(lines + [last], "\n"), m) == None
  {
    AfterSkipsLines(lines, [last], m);
    AfterMisses(last, m);
  }

  // ---------- Values ----------

  predicate Trimmed(v: string) {
    v != "" ==> !IsSpace(v[0]) && !IsSpace(v[|v| - 1])
  }

  lemma StripTrimmed(v: string)
    requires Trimmed(v)
    ensures Strip(v) == v && LStrip(v) == v && RStrip(v) == v
  {}

  lemma {:induction false} LStripSpaces(w: string, v: string)
    requires Blank(w) && v != "" && !IsSpace(v[0])
    ensures LStrip(w + v) == v
  {
    if w == "" {
      assert w + v == v;
    } else {
      assert w[0] in w && (w + v)[1..] == w[1..] + v;
      LStripSpaces(w[1..], v);
    }
  }

  lemma {:induction false} RStripSpaces(v: string, w: string)
    requires Blank(w) && v != "" && !IsSpace(v[|v| - 1])
    ensures RStrip(v + w) == v
  {
    if w == "" {
      assert v + w == v;
    } else {
      var n := |w| - 1;
      assert w[n] in w && (v + w)[..|v + w| - 1] == v + w[..n];
      RStripSpaces(v, w[..n]);
    }
  }

  /** The lines that may follow a value: none, or a labelled line first. */
  predicate MayFollow(rest: seq<string>) {
    rest == [] || "**" <= rest[0]
  }

  lemma {:induction false} ValueEndsAt(v: string, rest: seq<string>)
    requires v != "" && NoNewline(v) && MayFollow(rest)
    ensures ValueEnd(v + Tail(rest)) == |v|
  {
    var s := v + Tail(rest);
    assert s[1..] == v[1..] + Tail(rest);
    if |v| == 1 {
      if rest != [] {
        JoinHead(rest[0], rest[1..]);
        assert rest == [rest[0]] + rest[1..];
        assert "\n**" <= Tail(rest);
      }
    } else {
      assert s[1] == v[1];
      ValueEndsAt(v[1..], rest);
    }
  }

  lemma SpaceIsBlank()
    ensures Blank("") && Blank(" ") && Blank("\n") && Blank(" \n")
  {}

  lemma BlankAppend(a: string, b: string)
    requires Blank(a) && Blank(b)
    ensures Blank(a + b)
  {}

  lemma ValueFound(v: string, rest: seq<string>)
    requires v != "" && Trimmed(v) && NoNewline(v) && MayFollow(rest)
    ensures Value(Some(" " + v + Tail(rest))) == v
  {
    hide IsSpace, Tail;
    var t := v + Tail(rest);
    assert " " + v + Tail(rest) == " " + t;
    SpaceIsBlank();
    LStripSpaces(" ", t);
    ValueEndsAt(v, rest);
    assert t[..|v|] == v;
    StripTrimmed(v);
  }

  // ---------- Rows that survive the round trip ----------

  predicate IsName(name: string) {
    name != "" && forall i :: 0 <= i < |name| ==> name[i] != '*' && name[i] != '\n' && name[i] != ':'
  }

  /** A trimmed single line without double stars. */
  predicate PlainText(v: string) {
    Trimmed(v) && NoStars(v) && NoNewline(v)
  }

  lemma LabelledOpensOnce(name: string, v: string, c: char)
    requires IsName(name) && NoStars(v) && c != name[0] && c != ':'
    ensures NoOpening(Labelled(name, v), c) && NoOpening(Marker(name), c)
  {
    var l, n := Labelled(name, v), |name|;
    assert l[0] == l[1] == '*' && l[2..n + 2] == name && l[n + 2] == l[n + 3] == '*' && l[n + 4] == ':' && l[n + 5] == ' ';
    assert l[n + 6..] == v;
    forall i | 0 <= i < |l| - 2 ensures !(l[i] == '*' && l[i + 1] == '*' && l[i + 2] == c) {
      if 2 <= i < n + 2 { assert l[i] == name[i - 2]; }
      if i == 1 { assert l[2] == name[0]; }
      if i >= n + 6 { assert l[i] == v[i - n - 6] && l[i + 1] == v[i - n - 6 + 1]; }
      if i == 0 { assert l[2] == name[0]; }
    }
    var m := Marker(name);
    assert l == m + " " + v;
    forall i | 0 <= i < |m| - 2 ensures !(m[i] == '*' && m[i + 1] == '*' && m[i + 2] == c) {
      assert m[i] == l[i] && m[i + 1] == l[i + 1] && m[i + 2] == l[i + 2];
    }
  }

  lemma StarlessIsQuiet(s: string, c: char)
    requires NoStars(s)
    ensures NoOpening(s, c)
  {}

  /** Bullet lines with some text each, cut only at plain newlines, or nothing. */
  predicate PlainBullets(keyChanges: string) {
    && Trimmed(keyChanges)
    && keyChanges == Join(SplitLines(keyChanges), "\n")
    && forall b :: b in SplitLines(keyChanges) ==> IsBullet(b)
  }

  predicate IsBullet(b: string) {
    "- " <= b && |b| > 2 && NoStars(b) && NoNewline(b)
  }

  predicate PlainRow(r: Row) {
    && r.id != "" && NoStars(r.id) && (forall i :: 0 <= i < |r.id| ==> !IsSpace(r.id[i]))
    && r.theme != "" && PlainText(r.theme)
    && PlainText(r.decisions) && PlainText(r.nextSession) && PlainText(r.inFlight)
    && PlainBullets(r.keyChanges)
  }

  // ---------- One block ----------

  /** The last line of a trimmed block. */
  function LastLine(r: Row): string {
    if r.inFlight == "" then Marker("In-flight") else Labelled("In-flight", r.inFlight)
  }

  function Decisions(r: Row): seq<string> { IfPresent("Decisions", r.decisions) }
  function Next(r: Row): seq<string> { IfPresent("Next session", r.nextSession) }

  /** The lines of a trimmed block. */
  function BlockLines(r: Row): seq<string> {
    [HEAD + r.id, Labelled("Theme", r.theme)] + Decisions(r) + KeyLines(r.keyChanges) + Next(r) + [LastLine(r)]
  }

  lemma HeaderQuiet(r: Row, c: char)
    requires PlainRow(r)
    ensures NoOpening(HEAD + r.id, c) && NoNewline(HEAD + r.id)
  {
    var h := HEAD + r.id;
    forall i | 0 <= i < |h| - 1 ensures !(h[i] == '*' && h[i + 1] == '*') {
      if i >= |HEAD| { assert h[i] == r.id[i - |HEAD|] && h[i + 1] == r.id[i + 1 - |HEAD|]; }
    }
    forall i | 0 <= i < |h| ensures h[i] != '\n' {
      if i >= |HEAD| { assert h[i] == r.id[i - |HEAD|]; }
    }
  }

  lemma LabelledNoNewline(name: string, v: string)
    requires IsName(name) && NoNewline(v)
    ensures NoNewline(Labelled(name, v)) && NoNewline(Marker(name))
  {}

  lemma PresentQuiet(name: string, v: string, c: char)
    requires IsName(name) && PlainText(v) && c != name[0] && c != ':'
    ensures Quiet(IfPresent(name, v), c) && Quiet([Labelled(name, v)], c) && Quiet([Marker(name)], c)
  {
    LabelledOpensOnce(name, v, c);
    LabelledNoNewline(name, v);
  }

  lemma KeyLinesAre(r: Row)
    requires PlainRow(r)
    ensures KeyLines(r.keyChanges) == if r.keyChanges == "" then [] else [Marker("Key changes")] + SplitLines(r.keyChanges)
  {
    StripTrimmed(r.keyChanges);
    var lines := SplitLines(r.keyChanges);
    forall i | 0 <= i < |lines| ensures AsBullet(lines[i]) == lines[i] {
      assert lines[i] in lines;
    }
    assert AsBullets(lines) == lines;
  }

  lemma BulletsQuiet(r: Row, c: char)
    requires PlainRow(r)
    ensures Quiet(SplitLines(r.keyChanges), c)
  {
    forall l | l in SplitLines(r.keyChanges) ensures NoOpening(l, c) && NoNewline(l) {
      assert IsBullet(l);
      StarlessIsQuiet(l, c);
    }
  }

  lemma KeyMarkerQuiet(c: char)
    requires c != 'K' && c != ':'
    ensures Quiet([Marker("Key changes")], c)
  {
    PresentQuiet("Key changes", "", c);
  }

  lemma KeyLinesQuiet(r: Row, c: char)
    requires PlainRow(r) && c != 'K' && c != ':'
    ensures Quiet(KeyLines(r.keyChanges), c)
  {
    hide NoOpening, NoNewline, SplitLines, KeyLines, PlainRow;
    KeyLinesAre(r);
    BulletsQuiet(r, c);
    KeyMarkerQuiet(c);
    QuietAppend([Marker("Key changes")], SplitLines(r.keyChanges), c);
  }

  lemma QuietAppend(xs: seq<string>, ys: seq<string>, c: char)
    requires Quiet(xs, c) && Quiet(ys, c)
    ensures Quiet(xs + ys, c)
  {}

  lemma TopQuiet(r: Row, c: char)
    requires PlainRow(r) && c != ':'
    ensures Quiet([HEAD + r.id], c)
    ensures c != 'T' ==> Quiet([HEAD + r.id, Labelled("Theme", r.theme)], c)
  {
    HeaderQuiet(r, c);
    if c != 'T' { PresentQuiet("Theme", r.theme, c); }
  }

  lemma LastLineOpens(r: Row, c: char)
    requires PlainRow(r) && c != 'I' && c != ':'
    ensures NoOpening(LastLine(r), c)
  {
    PresentQuiet("In-flight", r.inFlight, c);
  }

  lemma MarkersAreMarkers()
    ensures IsMarker(Marker("Theme")) && IsMarker(Marker("Decisions")) && IsMarker(Marker("Key changes"))
    ensures IsMarker(Marker("Next session")) && IsMarker(Marker("In-flight"))
    ensures Marker("Theme")[2] == 'T' && Marker("Decisions")[2] == 'D' && Marker("Key changes")[2] == 'K'
    ensures Marker("Next session")[2] == 'N' && Marker("In-flight")[2] == 'I'
  {}

  lemma LabelledSplits(name: string, v: string)
    ensures Marker(name) <= Labelled(name, v) && Labelled(name, v)[|Marker(name)|..] == " " + v
    ensures "**" <= Labelled(name, v) && "**" <= Marker(name)
  {
    assert Labelled(name, v) == Marker(name) + (" " + v);
  }

  lemma AllMayFollow(r: Row)
    ensures MayFollow([LastLine(r)]) && MayFollow(Next(r) + [LastLine(r)])
    ensures MayFollow(KeyLines(r.keyChanges) + Next(r) + [LastLine(r)])
    ensures MayFollow(Decisions(r) + KeyLines(r.keyChanges) + Next(r) + [LastLine(r)])
  {
    hide Labelled, Marker, SplitLines, Strip;
    LabelledSplits("In-flight", r.inFlight);
    LabelledSplits("Next session", r.nextSession);
    LabelledSplits("Key changes", "");
    LabelledSplits("Decisions", r.decisions);
  }

  lemma ThemeFound(r: Row)
    requires PlainRow(r)
    ensures Field(Join(BlockLines(r), "\n"), "Theme") == r.theme
  {
    hide Labelled, Marker, KeyLines, Join, Value, Tail, After, NoOpening, IsMarker;
    var rest := Decisions(r) + KeyLines(r.keyChanges) + Next(r) + [LastLine(r)];
    assert BlockLines(r) == [HEAD + r.id] + [Labelled("Theme", r.theme)] + rest;
    MarkersAreMarkers();
    TopQuiet(r, 'T');
    LabelledSplits("Theme", r.theme);
    AfterFindsLine([HEAD + r.id], Labelled("Theme", r.theme), rest, Marker("Theme"));
    AllMayFollow(r);
    ValueFound(r.theme, rest);
  }

  lemma DecisionsFound(r: Row)
    requires PlainRow(r)
    ensures Field(Join(BlockLines(r), "\n"), "Decisions") == r.decisions
  {
    hide Labelled, Marker, KeyLines, Join, Value, Tail, After, NoOpening, IsMarker, Quiet, LastLine;
    var top, keys := [HEAD + r.id, Labelled("Theme", r.theme)], KeyLines(r.keyChanges);
    MarkersAreMarkers();
    TopQuiet(r, 'D');
    if r.decisions != "" {
      var rest := keys + Next(r) + [LastLine(r)];
      assert BlockLines(r) == top + [Labelled("Decisions", r.decisions)] + rest;
      LabelledSplits("Decisions", r.decisions);
      AfterFindsLine(top, Labelled("Decisions", r.decisions), rest, Marker("Decisions"));
      AllMayFollow(r);
      ValueFound(r.decisions, rest);
    } else {
      assert BlockLines(r) == top + keys + Next(r) + [LastLine(r)];
      KeyLinesQuiet(r, 'D');
      QuietAppend(top, keys, 'D');
      PresentQuiet("Next session", r.nextSession, 'D');
      QuietAppend(top + keys, Next(r), 'D');
      LastLineOpens(r, 'D');
      AfterFindsNothing(top + keys + Next(r), LastLine(r), Marker("Decisions"));
      NoValue();
    }
  }

  lemma NoValue()
    ensures Value(None) == "" && Value(Some("")) == ""
  {}

  lemma NextFound(r: Row)
    requires PlainRow(r)
    ensures Field(Join(BlockLines(r), "\n"), "Next session") == r.nextSession
  {
    hide Labelled, Marker, KeyLines, Join, Value, Tail, After, NoOpening, IsMarker, Quiet, LastLine;
    var top, keys := [HEAD + r.id, Labelled("Theme", r.theme)], KeyLines(r.keyChanges);
    var before := top + Decisions(r) + keys;
    MarkersAreMarkers();
    TopQuiet(r, 'N');
    PresentQuiet("Decisions", r.decisions, 'N');
    QuietAppend(top, Decisions(r), 'N');
    KeyLinesQuiet(r, 'N');
    QuietAppend(top + Decisions(r), keys, 'N');
    if r.nextSession != "" {
      assert BlockLines(r) == before + [Labelled("Next session", r.nextSession)] + [LastLine(r)];
      LabelledSplits("Next session", r.nextSession);
      AfterFindsLine(before, Labelled("Next session", r.nextSession), [LastLine(r)], Marker("Next session"));
      AllMayFollow(r);
      ValueFound(r.nextSession, [LastLine(r)]);
    } else {
      assert BlockLines(r) == before + [LastLine(r)];
      LastLineOpens(r, 'N');
      AfterFindsNothing(before, LastLine(r), Marker("Next session"));
      NoValue();
    }
  }

  lemma InFlightFound(r: Row)
    requires PlainRow(r)
    ensures Field(Join(BlockLines(r), "\n"), "In-flight") == r.inFlight
  {
    hide Labelled, Marker, KeyLines, Join, Value, Tail, After, NoOpening, IsMarker, Quiet;
    var top, keys := [HEAD + r.id, Labelled("Theme", r.theme)], KeyLines(r.keyChanges);
    var before := top + Decisions(r) + keys + Next(r);
    MarkersAreMarkers();
    TopQuiet(r, 'I');
    PresentQuiet("Decisions", r.decisions, 'I');
    QuietAppend(top, Decisions(r), 'I');
    KeyLinesQuiet(r, 'I');
    QuietAppend(top + Decisions(r), keys, 'I');
    PresentQuiet("Next session", r.nextSession, 'I');
    QuietAppend(top + Decisions(r) + keys, Next(r), 'I');
    assert BlockLines(r) == before + [LastLine(r)] + [];
    LabelledSplits("In-flight", r.inFlight);
    AfterFindsLine(before, LastLine(r), [], Marker("In-flight"));
    EmptyTail();
    if r.inFlight != "" {
      ValueFound(r.inFlight, []);
      assert " " + r.inFlight + Tail([]) == " " + r.inFlight;
    } else {
      assert LastLine(r)[|Marker("In-flight")|..] == "";
      NoValue();
    }
  }

  lemma EmptyTail()
    ensures Tail([]) == "" && forall s: string :: s + Tail([]) == s
  {}

  // ---------- The bullet list ----------

  lemma {:induction false} NewlineAfter(a: string, b: string)
    requires NoNewline(a)
    ensures NewlineAt(a + "\n" + b) == |a|
  {
    var s := a + "\n" + b;
    if a != "" {
      assert s[0] == a[0] && s[1..] == a[1..] + "\n" + b;
      NewlineAfter(a[1..], b);
    }
  }

  /** The list ends at the first line that is no bullet. */
  lemma {:induction false} BulletsFound(bullets: seq<string>, rest: seq<string>)
    requires bullets != [] && rest != [] && "**" <= rest[0] && forall b :: b in bullets ==> IsBullet(b)
    ensures Bullets(Join(bullets + rest, "\n")) == Join(bullets, "\n") + "\n"
  {
    hide Bullets, Join, NoStars;
    var b, more := bullets[0], bullets[1..] + rest;
    assert b in bullets;
    assert bullets + rest == [b] + more && bullets == [b] + bullets[1..];
    JoinHead(b, more);
    JoinHead(b, bullets[1..]);
    var tail := Join(more, "\n");
    assert b + Tail(more) == b + "\n" + tail;
    BulletStep(b, tail);
    if |bullets| == 1 {
      assert more == rest == [rest[0]] + rest[1..];
      JoinHead(rest[0], rest[1..]);
      NoBullet(rest[0], Tail(rest[1..]));
      assert Tail(bullets[1..]) == "";
    } else {
      assert forall c :: c in bullets[1..] ==> c in bullets;
      BulletsFound(bullets[1..], rest);
      assert b + ("\n" + Join(bullets[1..], "\n")) + "\n" == b + "\n" + (Join(bullets[1..], "\n") + "\n");
    }
  }

  lemma BulletStep(b: string, tail: string)
    requires IsBullet(b)
    ensures Bullets(b + "\n" + tail) == b + "\n" + Bullets(tail)
  {
    var s := b + "\n" + tail;
    NewlineAfter(b, tail);
    assert s[..|b| + 1] == b + "\n" && s[|b| + 1..] == tail;
    assert s[..2] == b[..2] && s[2] == b[2];
  }

  lemma NoBullet(line: string, tail: string)
    requires "**" <= line
    ensures Bullets(line + tail) == ""
  {
    assert (line + tail)[0] == '*';
  }

  lemma AfterOneBreak(s: string)
    requires s != "" && !IsSpace(s[0])
    ensures AfterLastBreak("\n" + s) == Some(s)
  {
    assert ("\n" + s)[1..] == s;
  }

  lemma {:induction false} SplitLinesSome(s: string)
    requires s != ""
    ensures SplitLines(s) != []
  {}

  lemma KeyChangesFound(r: Row)
    requires PlainRow(r)
    ensures KeyChanges(Join(BlockLines(r), "\n")) == r.keyChanges
  {
    hide KeyChanges, PlainRow, BlockLines;
    if r.keyChanges != "" { BulletsFoundInRow(r); } else { NoBulletsInRow(r); }
  }

  lemma BulletsFoundInRow(r: Row)
    requires PlainRow(r) && r.keyChanges != ""
    ensures KeyChanges(Join(BlockLines(r), "\n")) == r.keyChanges
  {
    hide Labelled, Marker, Join, Tail, After, NoOpening, IsMarker, Quiet, LastLine, KeyLines, Bullets, AfterLastBreak, IsSpace, SplitLines, Strip;
    var top, bullets := [HEAD + r.id, Labelled("Theme", r.theme)], SplitLines(r.keyChanges);
    var before, rest := top + Decisions(r), Next(r) + [LastLine(r)];
    var m := Marker("Key changes");
    MarkersAreMarkers();
    TopQuiet(r, 'K');
    PresentQuiet("Decisions", r.decisions, 'K');
    QuietAppend(top, Decisions(r), 'K');
    KeyLinesAre(r);
    assert BlockLines(r) == before + [m] + (bullets + rest);
    AfterFindsLine(before, m, bullets + rest, m);
    SplitLinesSome(r.keyChanges);
    AllMayFollow(r);
    BulletListParsed(r.keyChanges, rest);
    assert m[|m|..] + Tail(bullets + rest) == Tail(bullets + rest);
  }

  lemma NoBulletsInRow(r: Row)
    requires PlainRow(r) && r.keyChanges == ""
    ensures KeyChanges(Join(BlockLines(r), "\n")) == ""
  {
    hide Labelled, Marker, Join, After, NoOpening, IsMarker, Quiet, LastLine, KeyLines, Bullets, AfterLastBreak, IsSpace, SplitLines, Strip;
    var top := [HEAD + r.id, Labelled("Theme", r.theme)];
    var before := top + Decisions(r);
    MarkersAreMarkers();
    TopQuiet(r, 'K');
    PresentQuiet("Decisions", r.decisions, 'K');
    QuietAppend(top, Decisions(r), 'K');
    KeyLinesAre(r);
    assert BlockLines(r) == before + Next(r) + [LastLine(r)];
    PresentQuiet("Next session", r.nextSession, 'K');
    QuietAppend(before, Next(r), 'K');
    LastLineOpens(r, 'K');
    AfterFindsNothing(before + Next(r), LastLine(r), Marker("Key changes"));
  }

  lemma BulletListParsed(keyChanges: string, rest: seq<string>)
    requires keyChanges != "" && PlainBullets(keyChanges) && rest != [] && MayFollow(rest)
    ensures
      var list := AfterLastBreak(Tail(SplitLines(keyChanges) + rest));
      list.Some? && Strip(Bullets(list.value)) == keyChanges
  {
    hide SplitLines, Bullets, IsSpace;
    var bullets := SplitLines(keyChanges);
    SplitLinesSome(keyChanges);
    var list := Join(bullets + rest, "\n");
    assert bullets[0] in bullets;
    assert bullets + rest == [bullets[0]] + (bullets[1..] + rest);
    JoinHead(bullets[0], bullets[1..] + rest);
    DashIsNoSpace();
    AfterOneBreak(list);
    BulletsFound(bullets, rest);
    SpaceIsBlank();
    StripBothEnds("", keyChanges, "\n");
    assert "" + keyChanges + "\n" == keyChanges + "\n";
  }

  lemma DashIsNoSpace()
    ensures !IsSpace('-') && !IsSpace('#') && !IsSpace(':')
  {}

  lemma StripBothEnds(w1: string, v: string, w2: string)
    requires v != "" && Trimmed(v) && Blank(w1) && Blank(w2)
    ensures Strip(w1 + v + w2) == v
  {
    hide IsSpace;
    assert w1 + v + w2 == w1 + (v + w2);
    LStripSpaces(w1, v + w2);
    RStripSpaces(v, w2);
  }

  // ---------- The file ----------

  function RowText(r: Row): string { Join(RowLines(r), "\n") }

  /** Printing adds only blanks behind the trimmed block. */
  lemma RowTextIsBlock(r: Row)
    ensures RowText(r) == Join(BlockLines(r), "\n") + (if r.inFlight == "" then " \n" else "\n")
  {
    hide Join, Labelled, Marker, KeyLines;
    var before := [HEAD + r.id, Labelled("Theme", r.theme)] + Decisions(r) + KeyLines(r.keyChanges) + Next(r);
    var last := Labelled("In-flight", r.inFlight);
    assert RowLines(r) == before + [last] + [""];
    JoinAppend(before + [last], [""], "\n");
    JoinAppend(before, [last], "\n");
    JoinAppend(before, [LastLine(r)], "\n");
    JoinOne("");
    JoinOne(last);
    JoinOne(LastLine(r));
    LastLineCompletes(r);
    var front := Join(before, "\n") + "\n";
    assert BlockLines(r) == before + [LastLine(r)];
    assert front + (LastLine(r) + " ") + "\n" + "" == front + LastLine(r) + " \n";
    assert front + last + "\n" + "" == front + last + "\n";
  }

  lemma JoinOne(s: string)
    ensures Join([s], "\n") == s
  {}

  lemma LastLineCompletes(r: Row)
    ensures Labelled("In-flight", r.inFlight) == LastLine(r) + if r.inFlight == "" then " " else ""
  {
    assert Marker("In-flight") + " " + "" == Marker("In-flight") + " ";
  }

  lemma BlockIsTrimmed(r: Row)
    requires PlainRow(r)
    ensures var b := Join(BlockLines(r), "\n"); b != "" && Trimmed(b)
  {
    hide Join, KeyLines, IsSpace;
    var before := [HEAD + r.id, Labelled("Theme", r.theme)] + Decisions(r) + KeyLines(r.keyChanges) + Next(r);
    assert BlockLines(r) == before + [LastLine(r)];
    JoinAppend(before, [LastLine(r)], "\n");
    JoinOne(LastLine(r));
    assert BlockLines(r) == [HEAD + r.id] + BlockLines(r)[1..];
    JoinHead(HEAD + r.id, BlockLines(r)[1..]);
    DashIsNoSpace();
    var b, l := Join(BlockLines(r), "\n"), LastLine(r);
    assert b[0] == '#' && b[|b| - 1] == l[|l| - 1];
    if r.inFlight != "" { assert l[|l| - 1] == r.inFlight[|r.inFlight| - 1]; }
  }

  lemma {:induction false} WordEndsAt(w: string, rest: string)
    requires (forall i :: 0 <= i < |w| ==> !IsSpace(w[i])) && (rest == "" || IsSpace(rest[0]))
    ensures WordEnd(w + rest) == |w|
  {
    if w == "" {
      assert w + rest == rest;
    } else {
      assert (w + rest)[1..] == w[1..] + rest;
      WordEndsAt(w[1..], rest);
    }
  }

  lemma HeaderParsed(r: Row)
    requires PlainRow(r)
    ensures
      var b := Join(BlockLines(r), "\n");
      HEAD <= b && WordEnd(b[|HEAD|..]) == |r.id| && b[|HEAD|..][..|r.id|] == r.id
  {
    hide Join, KeyLines, Labelled;
    var b, rest := Join(BlockLines(r), "\n"), BlockLines(r)[1..];
    assert BlockLines(r) == [HEAD + r.id] + rest;
    JoinHead(HEAD + r.id, rest);
    assert b == HEAD + (r.id + Tail(rest));
    WordEndsAt(r.id, Tail(rest));
  }

  function Recovered(r: Row): Row { r.(inFlight := OrNone(r.inFlight)) }

  lemma BlockParsed(r: Row, extra: string)
    requires PlainRow(r) && (extra == "" || extra == "\n")
    ensures ParseBlock(RowText(r) + extra) == Some(Recovered(r))
  {
    hide Join, BlockLines, Field, KeyChanges, WordEnd, RowText, IsSpace, PlainText;
    var b := Join(BlockLines(r), "\n");
    RowTextIsBlock(r);
    BlockIsTrimmed(r);
    SpaceIsBlank();
    var w := (if r.inFlight == "" then " \n" else "\n") + extra;
    BlankAppend(if r.inFlight == "" then " \n" else "\n", extra);
    assert RowText(r) + extra == "" + b + w;
    StripBothEnds("", b, w);
    HeaderParsed(r);
    ThemeFound(r);
    DecisionsFound(r);
    KeyChangesFound(r);
    NextFound(r);
    InFlightFound(r);
  }

  /** A line that is no session header. */
  predicate NoHeader(l: string) { NoNewline(l) && (l == "" || l[0] != '#') }

  lemma {:induction false} NextHeaderBehind(lines: seq<string>, more: string)
    requires lines != [] && NoNewline(lines[0]) && HEAD <= more
    requires forall i :: 0 < i < |lines| ==> NoHeader(lines[i])
    ensures NextHeader(Join(lines, "\n") + "\n" + more) == |Join(lines, "\n")| + 1
  {
    hide NextHeader, Join;
    var l, rest := lines[0], lines[1..];
    assert lines == [l] + rest;
    JoinHead(l, rest);
    if rest == [] {
      assert l + "" + "\n" + more == l + "\n" + more;
      NextHeaderStep(l, more);
    } else {
      var joined := Join(rest, "\n");
      NextHeaderBehind(rest, more);
      NotAHeader(rest, "\n" + more);
      NextHeaderSplit(l, joined, more);
    }
  }

  lemma NextHeaderSplit(l: string, joined: string, more: string)
    requires NoNewline(l) && !(HEAD <= joined + ("\n" + more))
    ensures NextHeader(l + ("\n" + joined) + "\n" + more) == |l| + 1 + NextHeader(joined + "\n" + more)
  {
    hide NextHeader;
    Regroup(l, "\n", joined, more);
    NextHeaderStep(l, joined + "\n" + more);
  }

  lemma Regroup(a: string, b: string, c: string, d: string)
    ensures a + (b + c) + b + d == a + b + (c + b + d)
    ensures c + b + d == c + (b + d)
  {}

  lemma NextHeaderStep(l: string, tail: string)
    requires NoNewline(l)
    ensures NextHeader(l + "\n" + tail) == |l| + 1 + if HEAD <= tail then 0 else NextHeader(tail)
  {
    NewlineAfter(l, tail);
    assert (l + "\n" + tail)[|l| + 1..] == tail;
  }

  lemma NotAHeader(lines: seq<string>, more: string)
    requires lines != [] && NoHeader(lines[0]) && (more == "" || more[0] == '\n')
    ensures !(HEAD <= Join(lines, "\n") + more)
  {
    var s := Join(lines, "\n") + more;
    assert lines == [lines[0]] + lines[1..];
    JoinHead(lines[0], lines[1..]);
    if s != "" { assert s[0] != '#'; }
  }

  lemma {:induction false} NoNextHeader(lines: seq<string>)
    requires lines != [] && NoNewline(lines[0])
    requires forall i :: 0 < i < |lines| ==> NoHeader(lines[i])
    ensures NextHeader(Join(lines, "\n")) == |Join(lines, "\n")|
  {
    var l, rest := lines[0], lines[1..];
    assert lines == [l] + rest;
    JoinHead(l, rest);
    if rest == [] {
      NoNewlineAt(l);
      assert l + "" == l;
    } else {
      var tail := Join(rest, "\n");
      assert l + Tail(rest) == l + "\n" + tail;
      NewlineAfter(l, tail);
      assert (l + "\n" + tail)[|l| + 1..] == tail;
      NoNextHeader(rest);
      NotAHeader(rest, "");
      assert tail + "" == tail;
    }
  }

  lemma {:induction false} NoNewlineAt(s: string)
    requires NoNewline(s)
    ensures NewlineAt(s) == |s|
  {
    if s != "" { NoNewlineAt(s[1..]); }
  }

  lemma RowLinesNoHeader(r: Row)
    requires PlainRow(r)
    ensures NoNewline(RowLines(r)[0]) && forall i :: 0 < i < |RowLines(r)| ==> NoHeader(RowLines(r)[i])
  {
    hide KeyLines, NoNewline, SplitLines, NoStars, IsSpace, Labelled, NoHeader;
    HeaderQuiet(r, 'x');
    LabelledPlain("Theme", r.theme);
    LabelledPlain("Decisions", r.decisions);
    LabelledPlain("Next session", r.nextSession);
    LabelledPlain("In-flight", r.inFlight);
    EmptyPlain();
    KeyLinesPlain(r);
    var first, keys, last := [Labelled("Theme", r.theme)] + Decisions(r), KeyLines(r.keyChanges), Next(r) + [Labelled("In-flight", r.inFlight)] + [""];
    RowLinesSplit(r);
    HeadersAppend(first, keys, last);
  }

  lemma RowLinesSplit(r: Row)
    ensures RowLines(r) == [HEAD + r.id] + ([Labelled("Theme", r.theme)] + Decisions(r) + KeyLines(r.keyChanges)
      + (Next(r) + [Labelled("In-flight", r.inFlight)] + [""]))
  {
    hide KeyLines, Labelled;
  }

  predicate NoHeaders(lines: seq<string>) {
    forall i :: 0 <= i < |lines| ==> NoHeader(lines[i])
  }

  lemma HeadersAppend(xs: seq<string>, ys: seq<string>, zs: seq<string>)
    requires NoHeaders(xs) && NoHeaders(ys) && NoHeaders(zs)
    ensures NoHeaders(xs + ys + zs)
  {
    hide NoHeader;
  }

  lemma KeyLinesPlain(r: Row)
    requires PlainRow(r)
    ensures NoHeaders(KeyLines(r.keyChanges))
  {
    hide KeyLines, NoNewline, SplitLines, NoStars, IsSpace;
    KeyLinesAre(r);
    LabelledPlain("Key changes", "");
    forall l | l in KeyLines(r.keyChanges) ensures NoHeader(l) {
      if l in SplitLines(r.keyChanges) { assert IsBullet(l); }
    }
  }

  lemma EmptyPlain()
    ensures NoHeader("")
  {}

  lemma LabelledPlain(name: string, v: string)
    requires IsName(name) && NoNewline(v)
    ensures NoHeader(Labelled(name, v)) && NoHeader(Marker(name))
  {
    LabelledNoNewline(name, v);
  }

  lemma {:induction false} AllLinesCons(r: Row, rows: seq<Row>)
    ensures AllLines([r] + rows) == RowLines(r) + AllLines(rows)
  {
    hide RowLines;
    var all := [r] + rows;
    if rows == [] {
      assert all[..|all| - 1] == [];
    } else {
      assert all[..|all| - 1] == [r] + rows[..|rows| - 1];
      AllLinesCons(r, rows[..|rows| - 1]);
    }
  }

  lemma {:induction false} AllLinesSome(rows: seq<Row>)
    requires rows != []
    ensures AllLines(rows) != []
  {}

  lemma RenderCons(r: Row, rows: seq<Row>)
    ensures Render([r] + rows) == RowText(r) + if rows == [] then "" else "\n" + Render(rows)
  {
    hide RowLines, Join;
    AllLinesCons(r, rows);
    if rows == [] {
      assert RowLines(r) + [] == RowLines(r);
    } else {
      AllLinesSome(rows);
      RowLinesSome(r);
      JoinAppend(RowLines(r), AllLines(rows), "\n");
    }
  }

  lemma RowLinesSome(r: Row)
    ensures RowLines(r) != [] && HEAD <= RowText(r)
  {
    hide KeyLines;
    var rest := RowLines(r)[1..];
    assert RowLines(r) == [HEAD + r.id] + rest;
    JoinHead(HEAD + r.id, rest);
    assert (HEAD + r.id + Tail(rest))[..|HEAD|] == HEAD;
  }

  /** The printed file is cut back into one block per row. */
  lemma {:induction false} BlocksOfRender(r: Row, rows: seq<Row>)
    requires PlainRow(r) && forall x :: x in rows ==> PlainRow(x)
    ensures Blocks(Render([r] + rows)) ==
      [RowText(r) + if rows == [] then "" else "\n"] + if rows == [] then [] else Blocks(Render(rows))
  {
    hide RowLines, Join, NextHeader, PlainRow, Render, RowText;
    RenderCons(r, rows);
    RowLinesNoHeader(r);
    RowLinesSome(r);
    var s, text := Render([r] + rows), RowText(r);
    if rows == [] {
      NextHeaderOfRow(r, "");
      assert text + "" == text;
      assert s[..|s|] == s && s[|s|..] == "";
    } else {
      var more := Render(rows);
      RenderStarts(rows);
      NextHeaderOfRow(r, more);
      assert s == text + "\n" + more;
      assert s[..|text| + 1] == text + "\n" && s[|text| + 1..] == more;
    }
  }

  lemma RenderStarts(rows: seq<Row>)
    requires rows != []
    ensures HEAD <= Render(rows)
  {
    hide RowText, Render;
    assert rows == [rows[0]] + rows[1..];
    RenderCons(rows[0], rows[1..]);
    RowLinesSome(rows[0]);
  }

  lemma NextHeaderOfRow(r: Row, more: string)
    requires PlainRow(r) && (more == "" || HEAD <= more)
    ensures more == "" ==> NextHeader(RowText(r)) == |RowText(r)|
    ensures more != "" ==> NextHeader(RowText(r) + "\n" + more) == |RowText(r)| + 1
  {
    hide RowLines, Join, NextHeader;
    RowLinesNoHeader(r);
    RowLinesSome(r);
    if more == "" { NoNextHeader(RowLines(r)); } else { NextHeaderBehind(RowLines(r), more); }
  }

  lemma {:induction false} ParseBlocksCons(block: string, blocks: seq<string>)
    ensures ParseBlocks([block] + blocks) ==
      (var row := ParseBlock(block); if row.Some? then [row.value] else []) + ParseBlocks(blocks)
  {
    hide ParseBlock;
    var all := [block] + blocks;
    if blocks == [] {
      assert all[..|all| - 1] == [];
    } else {
      assert all[..|all| - 1] == [block] + blocks[..|blocks| - 1];
      ParseBlocksCons(block, blocks[..|blocks| - 1]);
    }
  }

  function AllRecovered(rows: seq<Row>): seq<Row> {
    seq(|rows|, i requires 0 <= i < |rows| => Recovered(rows[i]))
  }

  /** Parsing the printed text, before it has been a file. */
  lemma {:induction false} PrintedTextParses(rows: seq<Row>)
    requires forall r :: r in rows ==> PlainRow(r)
    ensures Parse(Render(rows)) == AllRecovered(rows)
  {
    hide ParseBlock, ParseBlocks, Blocks, Render, RowText, PlainRow, Recovered;
    if rows == [] {
      EmptyFile();
    } else {
      var r, rest := rows[0], rows[1..];
      assert rows == [r] + rest && r in rows;
      assert forall x :: x in rest ==> x in rows;
      BlocksOfRender(r, rest);
      BlockParsed(r, "");
      BlockParsed(r, "\n");
      assert RowText(r) + "" == RowText(r);
      if rest == [] {
        ParseBlocksCons(RowText(r), []);
        NoBlocks();
      } else {
        PrintedTextParses(rest);
        ParseBlocksCons(RowText(r) + "\n", Blocks(Render(rest)));
      }
      assert AllRecovered(rows) == [Recovered(r)] + AllRecovered(rest);
    }
  }

  lemma NoBlocks()
    ensures ParseBlocks([]) == [] && AllRecovered([]) == []
  {}

  lemma EmptyFile()
    ensures Parse(Render([])) == []
  {}

  lemma RecoveredIsSame(rows: seq<Row>)
    ensures AllRecovered(rows) == rows <==> forall r :: r in rows ==> r.inFlight != ""
  {
    if AllRecovered(rows) == rows {
      forall r | r in rows ensures r.inFlight != "" {
        var i :| 0 <= i < |rows| && rows[i] == r;
        assert AllRecovered(rows)[i] == Recovered(rows[i]);
      }
    } else if forall r :: r in rows ==> r.inFlight != "" {
      forall i | 0 <= i < |rows| ensures AllRecovered(rows)[i] == rows[i] { assert rows[i] in rows; }
    }
  }

  // ---------- Through the file ----------

  /** No carriage return in any text field. */
  predicate NoReturns(r: Row) {
    '\r' !in r.theme && '\r' !in r.decisions && '\r' !in r.keyChanges && '\r' !in r.nextSession && '\r' !in r.inFlight
  }

  lemma {:induction false} SplitLinesNoReturns(s: string, l: string)
    requires l in SplitLines(s)
    ensures '\r' !in l
    decreases |s|
  {
    hide LineLength;
    var n := LineLength(s);
    if n < |s| && l != s[..n] {
      SplitLinesNoReturns(if n + 1 < |s| && s[n] == '\r' && s[n + 1] == '\n' then s[n + 2..] else s[n + 1..], l);
    } else {
      assert l == s[..n];
      BreaksAreLineBreaks(l);
    }
  }

  lemma BreaksAreLineBreaks(l: string)
    requires forall i :: 0 <= i < |l| ==> !IsLineBreak(l[i])
    ensures '\r' !in l
  {}

  lemma {:induction false} JoinNoReturns(lines: seq<string>)
    requires forall i :: 0 <= i < |lines| ==> '\r' !in lines[i]
    ensures '\r' !in Join(lines, "\n")
  {
    if |lines| > 1 { JoinNoReturns(lines[1..]); }
  }

  lemma RowLinesNoReturns(r: Row)
    requires NoReturns(r) && '\r' !in r.id
    ensures forall i :: 0 <= i < |RowLines(r)| ==> '\r' !in RowLines(r)[i]
  {
    hide Strip, SplitLines, IsSpace;
    forall l | l in KeyLines(r.keyChanges) ensures '\r' !in l {
      var bullets := SplitLines(Strip(r.keyChanges));
      if l != Marker("Key changes") {
        var i :| 0 <= i < |bullets| && AsBullet(bullets[i]) == l;
        SplitLinesNoReturns(Strip(r.keyChanges), bullets[i]);
      }
    }
    hide KeyLines;
    forall l | l in RowLines(r) ensures '\r' !in l {}
  }

  lemma {:induction false} AllLinesNoReturns(rows: seq<Row>)
    requires forall r :: r in rows ==> NoReturns(r) && '\r' !in r.id
    ensures forall i :: 0 <= i < |AllLines(rows)| ==> '\r' !in AllLines(rows)[i]
  {
    hide RowLines, NoReturns;
    if rows != [] {
      AllLinesNoReturns(rows[..|rows| - 1]);
      RowLinesNoReturns(rows[|rows| - 1]);
    }
  }

  lemma {:induction false} AfterNoReturns(s: string, marker: string)
    requires '\r' !in s && After(s, marker).Some?
    ensures '\r' !in After(s, marker).value
  {
    if !(marker <= s) { AfterNoReturns(s[1..], marker); }
  }

  lemma StripNoReturns(s: string)
    requires '\r' !in s
    ensures '\r' !in Strip(s) && '\r' !in LStrip(s)
  {}

  lemma FieldNoReturns(block: string, name: string)
    requires '\r' !in block
    ensures '\r' !in Field(block, name)
  {
    hide After, LStrip, Strip, ValueEnd;
    var rest := After(block, Marker(name));
    if rest.Some? {
      AfterNoReturns(block, Marker(name));
      StripNoReturns(rest.value);
      var t := LStrip(rest.value);
      if t != "" { StripNoReturns(t[..ValueEnd(t)]); }
    }
  }

  lemma {:induction false} BulletsNoReturns(s: string)
    requires '\r' !in s
    ensures '\r' !in Bullets(s)
    decreases |s|
  {
    if "- " <= s && |s| > 2 && s[2] != '\n' && NewlineAt(s) < |s| { BulletsNoReturns(s[NewlineAt(s) + 1..]); }
  }

  lemma {:induction false} LastBreakNoReturns(s: string)
    requires '\r' !in s && AfterLastBreak(s).Some?
    ensures '\r' !in AfterLastBreak(s).value
  {
    if AfterLastBreak(s[1..]).Some? { LastBreakNoReturns(s[1..]); }
  }

  lemma {:induction false} KeyChangesNoReturns(block: string)
    requires '\r' !in block
    ensures '\r' !in KeyChanges(block)
    decreases |block|
  {
    hide After, AfterLastBreak, Bullets, Strip, Marker;
    var rest := After(block, Marker("Key changes"));
    if rest.Some? {
      AfterNoReturns(block, Marker("Key changes"));
      MarkerShrinks(block);
      var list := AfterLastBreak(rest.value);
      if list.Some? {
        LastBreakNoReturns(rest.value);
        BulletsNoReturns(list.value);
        StripNoReturns(Bullets(list.value));
      } else {
        KeyChangesNoReturns(rest.value);
      }
    }
  }

  lemma MarkerShrinks(block: string)
    requires After(block, Marker("Key changes")).Some?
    ensures |After(block, Marker("Key changes")).value| < |block|
  {}

  lemma BlockNoReturns(raw: string)
    requires '\r' !in raw && ParseBlock(raw).Some?
    ensures NoReturns(ParseBlock(raw).value)
  {
    hide Strip, Field, KeyChanges, WordEnd;
    var block := Strip(raw);
    StripNoReturns(raw);
    FieldNoReturns(block, "Theme");
    FieldNoReturns(block, "Decisions");
    FieldNoReturns(block, "Next session");
    FieldNoReturns(block, "In-flight");
    KeyChangesNoReturns(block);
  }

  lemma {:induction false} BlocksNoReturns(s: string)
    requires '\r' !in s
    ensures forall b :: b in Blocks(s) ==> '\r' !in b
    decreases |s|
  {
    hide NextHeader;
    if s != "" { BlocksNoReturns(s[NextHeader(s)..]); }
  }

  lemma {:induction false} RowsNoReturns(blocks: seq<string>)
    requires forall b :: b in blocks ==> '\r' !in b
    ensures forall r :: r in ParseBlocks(blocks) ==> NoReturns(r)
  {
    hide ParseBlock, NoReturns;
    if blocks != [] {
      var last := blocks[|blocks| - 1];
      RowsNoReturns(blocks[..|blocks| - 1]);
      if ParseBlock(last).Some? { BlockNoReturns(last); }
    }
  }

  /** Round trip through the file: parsing the printed file gives back every row in order,
    * with an empty in-flight note read as NONE, exactly when no field holds a carriage
    * return; and the rows come back unchanged exactly when, besides, no note is empty. */
  lemma SessionsRoundTrip(rows: seq<Row>)
    requires forall r :: r in rows ==> PlainRow(r)
    ensures Parse(ReadText(Render(rows))) == AllRecovered(rows) <==> forall r :: r in rows ==> NoReturns(r)
    ensures Parse(ReadText(Render(rows))) == rows <==> forall r :: r in rows ==> NoReturns(r) && r.inFlight != ""
  {
    hide ReadText, Render, ParseBlocks, Blocks, NoReturns, Recovered, PlainRow;
    var text := ReadText(Render(rows));
    RecoveredIsSame(rows);
    BlocksNoReturns(text);
    RowsNoReturns(Blocks(text));
    if forall r :: r in rows ==> NoReturns(r) {
      forall r | r in rows ensures '\r' !in r.id { IdNoReturns(r); }
      AllLinesNoReturns(rows);
      RenderNoReturns(rows);
      ReadPlainText(Render(rows));
      PrintedTextParses(rows);
    } else {
      var r :| r in rows && !NoReturns(r);
      var i :| 0 <= i < |rows| && rows[i] == r;
      RecoveredReturns(r);
      assert AllRecovered(rows)[i] == Recovered(r);
    }
  }

  lemma IdNoReturns(r: Row)
    requires PlainRow(r)
    ensures '\r' !in r.id
  {
    hide PlainText, PlainBullets, NoStars;
  }

  lemma RenderNoReturns(rows: seq<Row>)
    requires forall i :: 0 <= i < |AllLines(rows)| ==> '\r' !in AllLines(rows)[i]
    ensures '\r' !in Render(rows)
  {
    JoinNoReturns(AllLines(rows));
  }

  lemma RecoveredReturns(r: Row)
    ensures NoReturns(Recovered(r)) <==> NoReturns(r)
  {}

  /** A carriage return starts a line when the file is read: this one row comes back as
    * two sessions. */
  lemma ReturnSplitsSession()
    ensures
      var r := Row("1", "t", "a\r## Session x", "", "n", "NONE");
      PlainRow(r) && |Parse(ReadText(Render([r])))| == 2
  {
    hide ReadText, Parse, Render, IsSpace, Join;
    var r := Row("1", "t", "a\r## Session x", "", "n", "NONE");
    assert r.decisions[1] == '\r';
    SplitLinesOfEmpty();
    NotSpaces();
    assert PlainRow(r);
    BrokenRow(r);
    TwoSessions();
  }

  const BEFORE_RETURN := [HEAD + "1", Labelled("Theme", "t"), Labelled("Decisions", "a")]
  const BEHIND_RETURN := [HEAD + "x", Labelled("Next session", "n"), Labelled("In-flight", "NONE"), ""]

  /** What the row reads as. */
  lemma BrokenRow(r: Row)
    requires r == Row("1", "t", "a\r## Session x", "", "n", "NONE")
    ensures ReadText(Render([r])) == Join(BEFORE_RETURN, "\n") + "\n" + Join(BEHIND_RETURN, "\n")
  {
    hide ReadText, KeyLines, Join;
    NoKeyLines();
    var front, back := BEFORE_RETURN[..2], BEHIND_RETURN[1..];
    var d, h := Labelled("Decisions", "a"), HEAD + "x";
    assert Labelled("Decisions", r.decisions) == d + "\r" + h;
    assert RowLines(r) == front + [d + "\r" + h] + back;
    assert AllLines([r]) == RowLines(r) by { assert [r][..0] == []; }
    ReturnInLine(front, d, h, back);
    assert front + [d] == BEFORE_RETURN && [h] + back == BEHIND_RETURN;
    ReturnRead(BEFORE_RETURN, BEHIND_RETURN);
  }

  lemma NoKeyLines()
    ensures KeyLines("") == []
  {}

  lemma ReturnInLine(p: seq<string>, d: string, h: string, q: seq<string>)
    requires p != [] && q != []
    ensures Join(p + [d + "\r" + h] + q, "\n") == Join(p + [d], "\n") + "\r" + Join([h] + q, "\n")
  {
    var l := d + "\r" + h;
    JoinAppend(p + [l], q, "\n");
    JoinAppend(p, [l], "\n");
    JoinAppend(p, [d], "\n");
    JoinAppend([h], q, "\n");
    hide Join;
    assert Join([l], "\n") == l && Join([d], "\n") == d && Join([h], "\n") == h by { JoinSingle(l); JoinSingle(d); JoinSingle(h); }
    var x, y := Join(p, "\n") + "\n", "\n" + Join(q, "\n");
    assert x + (d + "\r" + h) + y == x + d + "\r" + (h + y);
  }

  lemma JoinSingle(l: string)
    ensures Join([l], "\n") == l
  {}

  lemma ReturnRead(p: seq<string>, q: seq<string>)
    requires forall i :: 0 <= i < |p| ==> '\r' !in p[i]
    requires q != [] && HEAD <= q[0] && forall i :: 0 <= i < |q| ==> '\r' !in q[i]
    ensures ReadText(Join(p, "\n") + "\r" + Join(q, "\n")) == Join(p, "\n") + "\n" + Join(q, "\n")
  {
    hide ReadText, Join;
    JoinNoReturns(p);
    JoinNoReturns(q);
    JoinStarts(q, HEAD);
    ReadReturn(Join(p, "\n"), Join(q, "\n"));
  }

  lemma JoinStarts(lines: seq<string>, start: string)
    requires lines != [] && start <= lines[0]
    ensures start <= Join(lines, "\n")
  {}

  lemma ReadReturn(a: string, b: string)
    requires '\r' !in a && '\r' !in b && b != "" && b[0] != '\n'
    ensures ReadText(a + "\r" + b) == a + "\n" + b
  {
    hide ReadText;
    ReadTextAppend(a + "\r", b);
    ReadTextAppend(a, "\r");
    ReadPlainText(a);
    ReadPlainText(b);
    assert ReadText("\r") == "\n" by { ReadTextStep("\r"); ReadTextStep(""); }
  }

  /** Two blocks, and each of them is a session. */
  lemma TwoSessions()
    ensures |Parse(Join(BEFORE_RETURN, "\n") + "\n" + Join(BEHIND_RETURN, "\n"))| == 2
  {
    hide ParseBlock, ParseBlocks, Blocks, NextHeader, Join, IsSpace;
    var first, second := Join(BEFORE_RETURN, "\n"), Join(BEHIND_RETURN, "\n");
    JoinStarts(BEFORE_RETURN, HEAD + ['1']);
    JoinStarts(BEHIND_RETURN, HEAD + ['x']);
    NextHeaderBehind(BEFORE_RETURN, second);
    NoNextHeader(BEHIND_RETURN);
    TwoBlocks(first + "\n", second);
    NotSpaces();
    IsSession(first + "\n", '1');
    IsSession(second, 'x');
    TwoParsed(first + "\n", second);
  }

  lemma TwoParsed(s: string, t: string)
    requires ParseBlock(s).Some? && ParseBlock(t).Some?
    ensures |ParseBlocks([s, t])| == 2
  {
    hide ParseBlock, ParseBlocks;
    ParseBlocksCons(s, [t]);
    ParseBlocksCons(t, []);
    assert [s] + [t] == [s, t] && [t] + [] == [t];
    NoBlocks();
  }

  lemma TwoBlocks(s: string, t: string)
    requires s != "" && t != "" && NextHeader(s + t) == |s| && NextHeader(t) == |t|
    ensures Blocks(s + t) == [s, t]
  {
    hide NextHeader;
    assert (s + t)[..|s|] == s && (s + t)[|s|..] == t;
    assert t[..|t|] == t && t[|t|..] == "";
    assert Blocks(t) == [t];
  }

  /** A block that starts with a header and a name is a session. */
  lemma IsSession(raw: string, c: char)
    requires HEAD + [c] <= raw && !IsSpace(c)
    ensures ParseBlock(raw).Some?
  {
    hide Field, KeyChanges, IsSpace;
    HeadIsNoSpace();
    assert raw[0] == HEAD[0] && raw[|HEAD|] == c;
    var n := |RStrip(raw)|;
    assert LStrip(raw) == raw;
    assert n > |HEAD|;
    assert Strip(raw) == raw[..n];
    assert raw[..n][..|HEAD|] == HEAD && raw[..n][|HEAD|..][0] == c;
  }

  lemma HeadIsNoSpace()
    ensures !IsSpace(HEAD[0])
  {}

  lemma SplitLinesOfEmpty()
    ensures SplitLines("") == [] && Join([], "\n") == ""
  {}

  lemma NotSpaces()
    ensures !IsSpace('1') && !IsSpace('t') && !IsSpace('a') && !IsSpace('x') && !IsSpace('n') && !IsSpace('N') && !IsSpace('E')
  {}
}
