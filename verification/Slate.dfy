/** Adding a closed ticket to the "## Done" section of the day's slate. */
module Slate {
  import opened Text
  import opened WordText

  // ---------- Lines ----------

  /** The characters at which str.splitlines cuts, without the carriage return: text read
    * in text mode holds none. */
  predicate IsBreak(c: char) {
    '\n' <= c <= '\U{0c}' || '\U{1c}' <= c <= '\U{1e}' || c == '\U{85}' || c == '\U{2028}' || c == '\U{2029}'
  }

  lemma BreakTable(c: char)
    ensures IsBreak(c) <==> c in "\n\U{b}\U{c}\U{1c}\U{1d}\U{1e}\U{85}\U{2028}\U{2029}"
  {}

  predicate OneLine(s: string) {
    forall i :: 0 <= i < |s| ==> !IsBreak(s[i])
  }

  /** The length of the first line with its break. */
  function LineEnd(s: string): (n: nat)
    ensures n <= |s| && (s != "" ==> n > 0)
    ensures forall i :: 0 <= i < n - 1 ==> !IsBreak(s[i])
    ensures 0 < n < |s| ==> IsBreak(s[n - 1])
  {
    if s == "" then 0 else if IsBreak(s[0]) then 1 else 1 + LineEnd(s[1..])
  }

  /** splitlines(keepends=True) */
  function Lines(s: string): seq<string>
    decreases |s|
  {
    if s == "" then [] else [s[..LineEnd(s)]] + Lines(s[LineEnd(s)..])
  }

  function Concat(lines: seq<string>): string {
    if lines == [] then "" else lines[0] + Concat(lines[1..])
  }

  /** A line with its break; only the last line of a file may lack it. */
  predicate IsFullLine(l: string) {
    l != "" && OneLine(l[..|l| - 1]) && IsBreak(l[|l| - 1])
  }

  predicate AreLines(lines: seq<string>) {
    lines == [] ||
      if |lines| == 1 then lines[0] != "" && OneLine(lines[0][..|lines[0]| - 1])
      else IsFullLine(lines[0]) && AreLines(lines[1..])
  }

  lemma ConcatCons(l: string, lines: seq<string>)
    ensures Concat([l] + lines) == l + Concat(lines)
  {}

  lemma {:induction false} ConcatOfLines(s: string)
    ensures Concat(Lines(s)) == s
    decreases |s|
  {
    hide LineEnd;
    if s != "" {
      var n := LineEnd(s);
      ConcatOfLines(s[n..]);
      ConcatCons(s[..n], Lines(s[n..]));
      assert s[..n] + s[n..] == s;
    }
  }

  lemma {:induction false} LinesAreLines(s: string)
    ensures AreLines(Lines(s)) && Concat(Lines(s)) == s
    decreases |s|
  {
    hide LineEnd, IsBreak, Concat;
    ConcatOfLines(s);
    if s != "" {
      var n := LineEnd(s);
      var rest := s[n..];
      LinesAreLines(rest);
      assert Lines(s) == [s[..n]] + Lines(rest) && Lines(s)[1..] == Lines(rest);
      assert OneLine(s[..n][..n - 1]);
      if n < |s| { assert Lines(rest) != []; }
    }
  }

  lemma {:induction false} FirstLineEnd(l: string, rest: string)
    requires l != "" && OneLine(l[..|l| - 1]) && (IsBreak(l[|l| - 1]) || rest == "")
    ensures LineEnd(l + rest) == |l|
  {
    if |l| > 1 {
      assert (l + rest)[1..] == l[1..] + rest;
      assert l[0] == l[..|l| - 1][0];
      assert l[1..][..|l| - 2] == l[..|l| - 1][1..];
      FirstLineEnd(l[1..], rest);
    } else if |l| == 1 && !IsBreak(l[0]) {
      assert (l + rest)[1..] == "";
    }
  }

  /** Writing lines and splitting again gives the lines back. */
  lemma {:induction false} LinesOfConcat(lines: seq<string>)
    requires AreLines(lines)
    ensures Lines(Concat(lines)) == lines
  {
    hide IsBreak, OneLine, LineEnd;
    if lines != [] {
      var rest := Concat(lines[1..]);
      if |lines| > 1 { LinesOfConcat(lines[1..]); }
      FirstLineEnd(lines[0], rest);
      assert (lines[0] + rest)[..|lines[0]|] == lines[0] && (lines[0] + rest)[|lines[0]|..] == rest;
    }
  }

  lemma {:induction false} ConcatAppend(xs: seq<string>, ys: seq<string>)
    ensures Concat(xs + ys) == Concat(xs) + Concat(ys)
  {
    if xs == [] {
      assert xs + ys == ys;
    } else {
      ConcatAppend(xs[1..], ys);
      assert (xs + ys)[1..] == xs[1..] + ys;
    }
  }

  // ---------- The slate ----------

  const DONE := "## Done"
  const HEADER := "## "

  predicate IsDone(line: string) { DONE <= line }

  predicate IsHeader(line: string) { HEADER <= line }

  /** A header that closes a Done section. */
  predicate Closes(line: string) { IsHeader(line) && !IsDone(line) }

  /** The lines that open and close the Done section. */
  lemma SectionLines(line: string)
    ensures IsDone(line) <==> "## Done" <= line
    ensures Closes(line) <==> "## " <= line && !("## Done" <= line)
  {}

  predicate Contains(s: string, t: string) {
    t <= s || (s != "" && Contains(s[1..], t))
  }

  /** After leading whitespace the line starts with a dash. */
  predicate IsBullet(line: string) {
    line != "" && (line[0] == '-' || (IsSpace(line[0]) && IsBullet(line[1..])))
  }

  predicate Mentions(line: string, tid: string) {
    Contains(line, tid) && IsBullet(line)
  }

  function Entry(tid: string, title: string, result: string): string {
    "- " + tid + " \U{2014} " + title + if result == "" then "" else " (" + result + ")"
  }

  lemma {:induction false} ContainsIff(s: string, t: string)
    ensures Contains(s, t) <==> exists i :: 0 <= i <= |s| && t <= s[i..]
  {
    assert s[0..] == s;
    if s != "" {
      ContainsIff(s[1..], t);
      forall i | 1 <= i <= |s| ensures s[i..] == s[1..][i - 1..] {}
    }
  }

  lemma {:induction false} BulletIff(line: string)
    ensures IsBullet(line) <==> exists i :: 0 <= i < |line| && line[i] == '-' && forall j :: 0 <= j < i ==> IsSpace(line[j])
  {
    hide IsSpace;
    if line != "" && line[0] != '-' && IsSpace(line[0]) {
      var rest := line[1..];
      BulletIff(rest);
      if i :| 0 <= i < |rest| && rest[i] == '-' && forall j :: 0 <= j < i ==> IsSpace(rest[j]) {
        assert line[i + 1] == rest[i];
        forall j | 0 <= j < i + 1 ensures IsSpace(line[j]) { if j > 0 { assert line[j] == rest[j - 1]; } }
      }
      if i :| 0 <= i < |line| && line[i] == '-' && forall j :: 0 <= j < i ==> IsSpace(line[j]) {
        assert rest[i - 1] == '-';
        forall j | 0 <= j < i - 1 ensures IsSpace(rest[j]) { assert rest[j] == line[j + 1]; }
      }
    }
  }

  /** A line mentions a ticket when the ticket's name stands somewhere in it and the first
    * character that is no space is a dash. */
  lemma MentionsIff(line: string, tid: string)
    ensures Mentions(line, tid) <==>
      && (exists i :: 0 <= i <= |line| && tid <= line[i..])
      && (exists i :: 0 <= i < |line| && line[i] == '-' && forall j :: 0 <= j < i ==> IsSpace(line[j]))
  {
    ContainsIff(line, tid);
    BulletIff(line);
  }

  /** What an entry says, and in which order: the ticket, its title and, if there is one, its
    * result in brackets. */
  lemma EntryParts(tid: string, title: string, result: string)
    ensures
      var e, n := Entry(tid, title, result), |tid| + |title| + 5;
      && n <= |e| && e[..2] == "- " && e[2..|tid| + 2] == tid && e[|tid| + 2..|tid| + 5] == " \U{2014} "
      && e[|tid| + 5..n] == title
      && (if result == "" then |e| == n else |e| == n + |result| + 3 && e[n..n + 2] == " (" && e[n + 2..|e| - 1] == result && e[|e| - 1] == ')')
  {}

  /** The first Done header, or the number of lines. */
  function DoneAt(lines: seq<string>): (n: nat)
    ensures n <= |lines|
    ensures forall i :: 0 <= i < n ==> !IsDone(lines[i])
    ensures n < |lines| ==> IsDone(lines[n])
  {
    if lines == [] || IsDone(lines[0]) then 0 else 1 + DoneAt(lines[1..])
  }

  /** The first closing header from position i on, or the number of lines. */
  function SectionEnd(lines: seq<string>, i: nat): (n: nat)
    requires i <= |lines|
    ensures i <= n <= |lines|
    ensures forall j :: i <= j < n ==> !Closes(lines[j])
    ensures n < |lines| ==> Closes(lines[n])
    decreases |lines| - i
  {
    if i == |lines| || Closes(lines[i]) then i else SectionEnd(lines, i + 1)
  }

  predicate Mentioned(lines: seq<string>, lo: nat, hi: nat, tid: string)
    requires hi <= |lines|
  {
    exists j :: lo <= j < hi && Mentions(lines[j], tid)
  }

  /** There is a Done section, and its first one has no bullet that mentions the ticket. */
  predicate NeedsEntry(lines: seq<string>, tid: string) {
    var d := DoneAt(lines);
    d < |lines| && !Mentioned(lines, d + 1, SectionEnd(lines, d), tid)
  }

  /** The first line that starts the Done section is d, and no bullet between it and the next
    * header of another kind mentions the ticket. */
  ghost predicate OpenFor(lines: seq<string>, tid: string, d: nat) {
    && d < |lines| && "## Done" <= lines[d] && (forall i :: 0 <= i < d ==> !("## Done" <= lines[i]))
    && forall j :: d < j < |lines| && Mentions(lines[j], tid) ==> ClosedBefore(lines, d, j)
  }

  predicate ClosedBefore(lines: seq<string>, d: nat, j: nat) {
    j < |lines| && exists k :: d < k <= j && Closes(lines[k])
  }

  lemma NeedsEntryIff(lines: seq<string>, tid: string)
    ensures NeedsEntry(lines, tid) <==> exists d :: OpenFor(lines, tid, d)
  {
    hide Mentions, Closes;
    var n := DoneAt(lines);
    if n < |lines| {
      DoneIsOpen(lines[n]);
      forall j | n < j < |lines| ensures ClosedBefore(lines, n, j) <==> SectionEnd(lines, n) <= j {
        var end := SectionEnd(lines, n);
        if end <= j { assert Closes(lines[end]); }
      }
    }
    if NeedsEntry(lines, tid) { assert OpenFor(lines, tid, n); }
    if d :| OpenFor(lines, tid, d) { assert d == n; }
  }

  /** The file ends with a newline before something is added at its end. */
  function Completed(lines: seq<string>): seq<string> {
    if lines == [] then []
    else
      var n := |lines| - 1;
      var last := lines[n];
      if last != "" && last[|last| - 1] == '\n' then lines
      else if last != "" && IsBreak(last[|last| - 1]) then lines + ["\n"]
      else lines[..n] + [last + "\n"]
  }

  /** New lines go to the end of the first Done section. */
  function WithLines(lines: seq<string>, tid: string, added: seq<string>): seq<string> {
    if !NeedsEntry(lines, tid) then lines
    else
      var end := SectionEnd(lines, DoneAt(lines));
      if end < |lines| then lines[..end] + added + lines[end..] else Completed(lines) + added
  }

  predicate HasDone(lines: seq<string>) {
    DoneAt(lines) < |lines|
  }

  /** The file after one run: untouched without a Done section, otherwise written anew. */
  function Updated(file: string, tid: string, title: string, result: string): string {
    var lines := Lines(ReadText(file));
    if HasDone(lines) then Concat(WithLines(lines, tid, [Entry(tid, title, result) + "\n"])) else file
  }

  // ---------- The program's loop ----------

  /** Where the loop stands after i lines. */
  ghost predicate LoopState(lines: seq<string>, i: nat, out: seq<string>, appended: bool, inDone: bool, tid: string, entry: string) {
    var d := DoneAt(lines);
    i <= |lines| &&
    if i <= d then out == lines[..i] && !appended && !inDone
    else
      var end := SectionEnd(lines, d);
      if Mentioned(lines, d + 1, if i < end then i else end, tid) then out == lines[..i] && appended
      else if i <= end then out == lines[..i] && !appended && inDone
      else out == lines[..end] + [entry + "\n"] + lines[end..i] && appended
  }

  lemma StepMention(lines: seq<string>, d: nat, i: nat, end: nat, tid: string)
    requires d < i && i < |lines| && end <= |lines|
    ensures Mentioned(lines, d + 1, if i + 1 < end then i + 1 else end, tid) <==>
      Mentioned(lines, d + 1, if i < end then i else end, tid) || (i < end && Mentions(lines[i], tid))
  {}

  lemma HeaderIsNoBullet(line: string)
    ensures IsDone(line) ==> IsHeader(line)
    ensures IsHeader(line) ==> !IsBullet(line)
  {
    if IsDone(line) { assert DONE[..3] == HEADER; }
  }

  method AppendToSlate(file: string, tid: string, title: string, result: string) returns (out: string)
    ensures out == Updated(file, tid, title, result)
  {
    hide Contains, IsBullet, Entry, Concat, Lines, IsDone, IsHeader, Completed;
    var entry := Entry(tid, title, result);
    var content := ReadText(file);
    var lines := Lines(content);
    LinesAreLines(content);
    var outLines: seq<string> := [];
    var appended, inDone := false, false;
    ghost var d := DoneAt(lines);
    ghost var end := if d < |lines| then SectionEnd(lines, d) else d;
    var i: nat := 0;
    while i < |lines|
      invariant LoopState(lines, i, outLines, appended, inDone, tid, entry)
    {
      var line := lines[i];
      if d < i { StepMention(lines, d, i, end, tid); }
      HeaderIsNoBullet(line);
      assert lines[..i] + [line] == lines[..i + 1];
      assert end <= i ==> lines[end..i] + [line] == lines[end..i + 1];
      if inDone && Contains(line, tid) && IsBullet(line) {
        appended := true;
        outLines := outLines + [line];
      } else {
        outLines := outLines + [line];
        if IsDone(line) {
          inDone := true;
        } else if inDone && IsHeader(line) && !appended {
          outLines := outLines[..|outLines| - 1] + [entry + "\n"] + [line];
          appended := true;
          inDone := false;
        }
      }
      i := i + 1;
    }
    assert lines[..i] == lines && (end <= i ==> lines[end..i] == lines[end..]);
    if inDone && !appended {
      if outLines != [] && !EndsWithNewline(outLines[|outLines| - 1]) {
        outLines := outLines + ["\n"];
      }
      outLines := outLines + [entry + "\n"];
      appended := true;
      AppendCompletes(lines, entry);
    }
    out := if appended then Concat(outLines) else file;
  }

  predicate EndsWithNewline(s: string) {
    s != "" && s[|s| - 1] == '\n'
  }

  lemma AppendCompletes(lines: seq<string>, entry: string)
    requires lines != []
    ensures
      Concat((if EndsWithNewline(lines[|lines| - 1]) then lines else lines + ["\n"]) + [entry + "\n"]) ==
      Concat(Completed(lines) + [entry + "\n"])
  {
    hide Completed, Concat, EndsWithNewline;
    var n, e := |lines| - 1, [entry + "\n"];
    var front, last := lines[..n], lines[n];
    CompletedKinds(lines);
    if !EndsWithNewline(last) {
      assert lines == front + [last];
      FinishLastLine(front, last, "\n");
      ConcatAppend(lines + ["\n"], e);
      ConcatAppend(front + [last + "\n"], e);
    }
  }

  lemma CompletedKinds(lines: seq<string>)
    requires lines != []
    ensures
      var n := |lines| - 1;
      if EndsWithNewline(lines[n]) then Completed(lines) == lines
      else Completed(lines) == lines + ["\n"] || Completed(lines) == lines[..n] + [lines[n] + "\n"]
  {}

  lemma FinishLastLine(front: seq<string>, last: string, end: string)
    ensures Concat(front + [last] + [end]) == Concat(front + [last + end])
  {
    hide Concat;
    ConcatSnoc(front, last);
    ConcatSnoc(front + [last], end);
    ConcatSnoc(front, last + end);
    assert Concat(front) + last + end == Concat(front) + (last + end);
  }

  lemma ConcatSnoc(lines: seq<string>, l: string)
    ensures Concat(lines + [l]) == Concat(lines) + l
  {
    ConcatAppend(lines, [l]);
    assert Concat([l]) == l + "";
  }

  // ---------- What the update does to the file ----------

  lemma {:induction false} AreLinesAppend(xs: seq<string>, ys: seq<string>)
    requires AreLines(xs) && AreLines(ys) && (xs != [] && ys != [] ==> IsFullLine(xs[|xs| - 1]))
    ensures AreLines(xs + ys)
  {
    if xs == [] {
      assert xs + ys == ys;
    } else if |xs| == 1 {
      assert (xs + ys)[1..] == ys;
    } else {
      AreLinesAppend(xs[1..], ys);
      assert (xs + ys)[1..] == xs[1..] + ys;
    }
  }

  lemma {:induction false} AreLinesSplit(lines: seq<string>, k: nat)
    requires AreLines(lines) && k < |lines|
    ensures AreLines(lines[..k]) && AreLines(lines[k..])
    ensures forall i :: 0 <= i < k ==> IsFullLine(lines[i])
  {
    if k > 0 {
      AreLinesSplit(lines[1..], k - 1);
      assert lines[..k][1..] == lines[1..][..k - 1] && lines[k..] == lines[1..][k - 1..];
      forall i | 0 <= i < k ensures IsFullLine(lines[i]) {
        if i > 0 { assert lines[i] == lines[1..][i - 1]; }
      }
    }
  }

  lemma CompletedAreLines(lines: seq<string>)
    requires AreLines(lines) && lines != []
    ensures AreLines(Completed(lines)) && IsFullLine(Completed(lines)[|Completed(lines)| - 1])
  {
    var n := |lines| - 1;
    var last := lines[n];
    AreLinesSplit(lines, n);
    assert lines[n..] == [last] && lines[..n] + [last] == lines;
    if IsBreak(last[|last| - 1]) {
      AreLinesAppend(lines[..n], [last]);
      assert IsFullLine("\n") by { assert "\n"[..0] == ""; }
      AreLinesAppend(lines, ["\n"]);
    } else {
      assert (last + "\n")[..|last|] == last;
      assert OneLine(last) by {
        forall i | 0 <= i < |last| ensures !IsBreak(last[i]) {
          if i < |last| - 1 { assert last[i] == last[..|last| - 1][i]; }
        }
      }
      AreLinesAppend(lines[..n], [last + "\n"]);
    }
  }

  /** How the entry reads when the file is read again. */
  function EntryLines(tid: string, title: string, result: string): seq<string> {
    Lines(ReadText(Entry(tid, title, result) + "\n"))
  }

  lemma FullLines(s: string)
    requires s != "" && s[|s| - 1] == '\n'
    ensures AreLines(Lines(s)) && Lines(s) != [] && IsFullLine(Lines(s)[|Lines(s)| - 1])
  {
    hide LineEnd;
    var lines := Lines(s);
    LinesAreLines(s);
    LastCharacter(lines);
    AreLinesSplit(lines, |lines| - 1);
    assert lines[|lines| - 1..] == [lines[|lines| - 1]];
  }

  lemma EndsInNewline(e: string)
    ensures ReadText(e + "\n") != "" && ReadText(e + "\n")[|ReadText(e + "\n")| - 1] == '\n'
  {
    var n := |e| - 1;
    assert ReadText("\n") == "\n" by { ReadPlainText("\n"); }
    if e != "" && e[n] == '\r' {
      assert e + "\n" == e[..n] + "\r\n";
      ReadTextAppend(e[..n], "\r\n");
      assert "\r\n"[2..] == "";
    } else {
      ReadTextAppend(e, "\n");
    }
  }

  lemma ReadPieces(front: seq<string>, e: string, back: seq<string>)
    requires '\r' !in Concat(front) && '\r' !in Concat(back)
    ensures ReadText(Concat(front + [e + "\n"] + back)) == Concat(front + Lines(ReadText(e + "\n")) + back)
  {
    hide Concat, Lines, ReadText, LineEnd;
    var p, q, r := Concat(front), e + "\n", Concat(back);
    ConcatSnoc(front, q);
    ConcatAppend(front + [q], back);
    ReadTextAppend(p, q);
    ReadTextAppend(p + q, r);
    ReadPlainText(p);
    ReadPlainText(r);
    ConcatOfLines(ReadText(q));
    ConcatAppend(front, Lines(ReadText(q)));
    ConcatAppend(front + Lines(ReadText(q)), back);
  }

  lemma CompletedConcat(lines: seq<string>)
    requires lines != []
    ensures Concat(Completed(lines)) == Concat(lines) || Concat(Completed(lines)) == Concat(lines) + "\n"
  {
    hide IsBreak, Concat;
    var n := |lines| - 1;
    assert lines == lines[..n] + [lines[n]];
    FinishLastLine(lines[..n], lines[n], "\n");
    ConcatSnoc(lines, "\n");
  }

  /** The lines of the file after a run, as they are read again: the lines of the file
    * before, in order, with those of the entry put in. */
  lemma UpdatedLines(file: string, tid: string, title: string, result: string)
    ensures Lines(ReadText(Updated(file, tid, title, result))) == WithLines(Lines(ReadText(file)), tid, EntryLines(tid, title, result))
  {
    hide Entry, LineEnd, IsBreak, Mentioned, IsFullLine, OneLine, Completed;
    var content := ReadText(file);
    var lines, entry, added := Lines(content), Entry(tid, title, result), EntryLines(tid, title, result);
    LinesAreLines(content);
    EndsInNewline(entry);
    FullLines(ReadText(entry + "\n"));
    if HasDone(lines) {
      if NeedsEntry(lines, tid) {
        InsertedLines(lines, SectionEnd(lines, DoneAt(lines)), entry);
        LinesOfConcat(WithLines(lines, tid, added));
      } else {
        ReadPlainText(content);
      }
    }
  }

  lemma InsertedLines(lines: seq<string>, end: nat, entry: string)
    requires AreLines(lines) && lines != [] && '\r' !in Concat(lines) && end <= |lines|
    ensures
      var added := Lines(ReadText(entry + "\n"));
      if end < |lines| then
        && ReadText(Concat(lines[..end] + [entry + "\n"] + lines[end..])) == Concat(lines[..end] + added + lines[end..])
        && AreLines(lines[..end] + added + lines[end..])
      else
        && ReadText(Concat(Completed(lines) + [entry + "\n"])) == Concat(Completed(lines) + added)
        && AreLines(Completed(lines) + added)
  {
    hide Lines, LineEnd, IsBreak, OneLine, Concat, IsFullLine, Completed;
    var added := Lines(ReadText(entry + "\n"));
    EndsInNewline(entry);
    FullLines(ReadText(entry + "\n"));
    if end < |lines| {
      assert lines[..end] + lines[end..] == lines;
      ConcatAppend(lines[..end], lines[end..]);
      ReadPieces(lines[..end], entry, lines[end..]);
      AreLinesSplit(lines, end);
      AreLinesAppend(lines[..end], added);
      AreLinesAppend(lines[..end] + added, lines[end..]);
    } else {
      CompletedConcat(lines);
      CompletedAreLines(lines);
      assert Concat([]) == "" by { EmptyConcat(); }
      ReadPieces(Completed(lines), entry, []);
      AreLinesAppend(Completed(lines), added);
      assert Completed(lines) + [entry + "\n"] + [] == Completed(lines) + [entry + "\n"];
      assert Completed(lines) + added + [] == Completed(lines) + added;
    }
  }

  lemma EmptyConcat()
    ensures Concat([]) == ""
  {}

  /** The line at position k stands in a Done section. */
  predicate InDoneSection(lines: seq<string>, k: nat)
    requires k <= |lines|
  {
    exists h :: 0 <= h < k && IsDone(lines[h]) && forall j :: h < j < k ==> !Closes(lines[j])
  }

  /** The entry goes to the end of a file whose last break is not a plain newline; the
    * program then adds a newline of its own, which becomes a line. */
  predicate GainsBlankLine(lines: seq<string>, tid: string) {
    && NeedsEntry(lines, tid) && SectionEnd(lines, DoneAt(lines)) == |lines|
    && var last := lines[|lines| - 1];
      last != "" && IsBreak(last[|last| - 1]) && last[|last| - 1] != '\n'
  }

  /** The entry reads as one line: no break in it, but one carriage return at its end is
    * taken together with the newline behind it. */
  predicate ReadsAsOneLine(entry: string) {
    var e := if entry != "" && entry[|entry| - 1] == '\r' then entry[..|entry| - 1] else entry;
    OneLine(e) && '\r' !in e
  }

  lemma OneEntryLine(entry: string)
    ensures |Lines(ReadText(entry + "\n"))| == 1 <==> ReadsAsOneLine(entry)
  {
    hide OneLine, Lines, ReadText, LineEnd;
    var e := if entry != "" && entry[|entry| - 1] == '\r' then entry[..|entry| - 1] else entry;
    if e == entry {
      NewlineBehind(e);
    } else {
      assert entry == e + "\r";
      ReturnBehind(e);
    }
    OneTextLine(ReadText(e));
    if '\r' in e {
      ReturnsBecomeNewlines(e);
      NewlineBreaks(ReadText(e));
    } else {
      ReadPlainText(e);
    }
  }

  lemma NewlineBehind(e: string)
    requires e == "" || e[|e| - 1] != '\r'
    ensures ReadText(e + "\n") == ReadText(e) + "\n"
  {
    ReadTextAppend(e, "\n");
    ReadPlainText("\n");
  }

  lemma ReturnBehind(e: string)
    ensures ReadText(e + "\r" + "\n") == ReadText(e) + "\n"
  {
    assert e + "\r" + "\n" == e + "\r\n" && "\r\n"[2..] == "";
    ReadTextAppend(e, "\r\n");
  }

  lemma OneTextLine(q: string)
    ensures |Lines(q + "\n")| == 1 <==> OneLine(q)
  {
    hide LineEnd, IsBreak, OneLine, Lines;
    var p := q + "\n";
    assert p[..|p| - 1] == q;
    var lines := Lines(p);
    LinesAreLines(p);
    if |lines| == 1 {
      assert lines == [lines[0]];
      ConcatOne(lines[0]);
    }
    if OneLine(q) {
      ConcatOne(p);
      LinesOfConcat([p]);
    }
  }

  lemma ConcatOne(l: string)
    ensures Concat([l]) == l
  {
    assert Concat([l]) == l + "";
  }

  lemma NewlineBreaks(s: string)
    requires '\n' in s
    ensures !OneLine(s)
  {
    var i :| 0 <= i < |s| && s[i] == '\n';
    assert IsBreak(s[i]);
  }

  /** A run adds at most one line exactly when no entry is needed, or the entry reads as
    * one line and does not go behind a last break that is no plain newline. */
  lemma AddsAtMostOneLine(file: string, tid: string, title: string, result: string)
    ensures
      var before, after := Lines(ReadText(file)), Lines(ReadText(Updated(file, tid, title, result)));
      |after| <= |before| + 1 <==>
        !NeedsEntry(before, tid) || (ReadsAsOneLine(Entry(tid, title, result)) && !GainsBlankLine(before, tid))
  {
    hide Entry, IsBreak, Mentioned, DoneAt, SectionEnd, Updated, ReadsAsOneLine, LineEnd, ReadText, Lines;
    var before, entry := Lines(ReadText(file)), Entry(tid, title, result);
    LinesAreLines(ReadText(file));
    UpdatedLines(file, tid, title, result);
    OneEntryLine(entry);
    EndsInNewline(entry);
    FullLines(ReadText(entry + "\n"));
    if before != [] { LastCharacter(before); }
  }

  /** Where a run puts what. A file with a Done section whose first one has no bullet that
    * mentions the ticket gains the lines of the entry, inside a Done section, and a blank
    * line before them if its last break is no plain newline; all its other lines stay, in
    * order. Any other file reads as before. */
  lemma SlateInsertion(file: string, tid: string, title: string, result: string)
    ensures
      var before, after := Lines(ReadText(file)), Lines(ReadText(Updated(file, tid, title, result)));
      var added, blank := EntryLines(tid, title, result), if GainsBlankLine(before, tid) then ["\n"] else [];
      if NeedsEntry(before, tid) then
        var end := SectionEnd(before, DoneAt(before));
        var k := end + |blank|;
        && |after| == |before| + |blank| + |added|
        && after[end..k] == blank && after[k..k + |added|] == added && InDoneSection(after, k)
        && (forall i :: 0 <= i < end ==> after[i] == before[i] || (i == |before| - 1 && after[i] == before[i] + "\n"))
        && after[k + |added|..] == before[end..]
      else after == before
  {
    hide Entry, Lines, IsBreak, LineEnd, ReadText, Mentioned, Updated, EntryLines, DoneAt, SectionEnd, InDoneSection, Completed;
    var before, added := Lines(ReadText(file)), EntryLines(tid, title, result);
    LinesAreLines(ReadText(file));
    UpdatedLines(file, tid, title, result);
    if NeedsEntry(before, tid) {
      LastCharacter(before);
      if SectionEnd(before, DoneAt(before)) == |before| {
        InsertedAtEnd(before, tid, added);
      } else {
        InsertedBefore(before, tid, added);
      }
    }
  }

  lemma DoneIsOpen(line: string)
    requires IsDone(line)
    ensures !Closes(line)
  {}

  lemma InsertedBefore(before: seq<string>, tid: string, added: seq<string>)
    requires NeedsEntry(before, tid) && SectionEnd(before, DoneAt(before)) < |before|
    ensures
      var k, after := SectionEnd(before, DoneAt(before)), WithLines(before, tid, added);
      && |after| == |before| + |added| && after[k..k] == [] && after[k..k + |added|] == added && InDoneSection(after, k)
      && after[..k] == before[..k] && after[k + |added|..] == before[k..]
  {
    hide Mentioned, DoneAt, SectionEnd, IsDone, Closes, InDoneSection;
    var k, after := SectionEnd(before, DoneAt(before)), WithLines(before, tid, added);
    DoneIsOpen(before[DoneAt(before)]);
    assert after[k..k + |added|] == added && after[..k] == before[..k];
    OpenUntil(before, after, k);
  }

  lemma OpenUntil(before: seq<string>, after: seq<string>, k: nat)
    requires DoneAt(before) < k <= |before| && k <= |after| && after[..k] == before[..k] && SectionEnd(before, DoneAt(before)) == k
    ensures InDoneSection(after, k)
  {
    hide DoneAt, SectionEnd, IsDone, Closes;
    var d := DoneAt(before);
    forall j | d <= j < k ensures after[j] == before[j] { assert after[..k][j] == before[..k][j]; }
    assert IsDone(after[d]) && forall j :: d < j < k ==> !Closes(after[j]);
  }

  lemma CompletedLines(lines: seq<string>)
    requires lines != [] && lines[|lines| - 1] != ""
    ensures
      var last := lines[|lines| - 1];
      var blank := if IsBreak(last[|last| - 1]) && last[|last| - 1] != '\n' then ["\n"] else [];
      && |Completed(lines)| == |lines| + |blank| && Completed(lines)[|lines|..] == blank
      && forall i :: 0 <= i < |lines| ==>
        Completed(lines)[i] == lines[i] || (i == |lines| - 1 && Completed(lines)[i] == lines[i] + "\n")
  {
    hide IsBreak;
  }

  lemma InsertedAtEnd(before: seq<string>, tid: string, added: seq<string>)
    requires NeedsEntry(before, tid) && SectionEnd(before, DoneAt(before)) == |before|
    requires before[|before| - 1] != ""
    ensures
      var after, blank := WithLines(before, tid, added), if GainsBlankLine(before, tid) then ["\n"] else [];
      var k := |before| + |blank|;
      && |after| == k + |added| && after[|before|..k] == blank && after[k..k + |added|] == added && InDoneSection(after, k)
      && after[k + |added|..] == []
      && (forall i :: 0 <= i < |before| ==> after[i] == before[i] || (i == |before| - 1 && after[i] == before[i] + "\n"))
  {
    hide IsBreak, Mentioned, DoneAt, SectionEnd, IsDone, Closes;
    var d, after := DoneAt(before), WithLines(before, tid, added);
    CompletedKeepsHeaders(before);
    CompletedLines(before);
    var k := |Completed(before)|;
    hide Completed;
    if GainsBlankLine(before, tid) { BlankStaysOpen(); }
    assert IsDone(after[d]) && forall j :: d < j < k ==> !Closes(after[j]);
  }

  lemma BlankStaysOpen()
    ensures !Closes("\n")
  {}

  lemma {:induction false} LastCharacter(lines: seq<string>)
    requires AreLines(lines) && lines != []
    ensures Concat(lines) != "" && lines[|lines| - 1] != ""
    ensures Concat(lines)[|Concat(lines)| - 1] == lines[|lines| - 1][|lines[|lines| - 1]| - 1]
  {
    if |lines| > 1 { LastCharacter(lines[1..]); }
  }

  /** A newline at the end does not make a line a header. */
  lemma CompletedKeepsHeaders(lines: seq<string>)
    requires lines != []
    ensures |Completed(lines)| >= |lines|
    ensures forall i :: 0 <= i < |lines| ==>
      (IsDone(Completed(lines)[i]) <==> IsDone(lines[i])) && (Closes(Completed(lines)[i]) <==> Closes(lines[i]))
  {
    var last := lines[|lines| - 1];
    NewlineKeepsPrefix(last, DONE);
    NewlineKeepsPrefix(last, HEADER);
  }

  lemma NewlineKeepsPrefix(line: string, p: string)
    requires forall i :: 0 <= i < |p| ==> p[i] != '\n'
    ensures p <= line + "\n" <==> p <= line
  {
    var long := line + "\n";
    assert long[|line|] == '\n' && long[..|line|] == line;
    if p <= long {
      assert forall i :: 0 <= i < |p| ==> p[i] == long[i];
    }
  }

  lemma {:induction false} ContainsMiddle(a: string, t: string, b: string)
    ensures Contains(a + t + b, t)
  {
    if a == "" {
      assert a + t + b == t + b;
    } else {
      ContainsMiddle(a[1..], t, b);
      assert (a + t + b)[1..] == a[1..] + t + b;
    }
  }

  /** No break in it but at its end: only such a ticket id can stand in a line. */
  predicate FitsInLine(tid: string) {
    tid == "" || OneLine(tid[..|tid| - 1])
  }

  lemma {:induction false} LineHoldsOneLine(line: string, t: string)
    requires Contains(line, t) && (line == "" || OneLine(line[..|line| - 1]))
    ensures FitsInLine(t)
  {
    hide IsBreak;
    if t <= line {
      if t != "" {
        var body := t[..|t| - 1];
        forall i | 0 <= i < |body| ensures !IsBreak(body[i]) { assert body[i] == line[..|line| - 1][i]; }
      }
    } else {
      var rest := line[1..];
      if rest != "" {
        var body := rest[..|rest| - 1];
        forall i | 0 <= i < |body| ensures !IsBreak(body[i]) { assert body[i] == line[..|line| - 1][i + 1]; }
      }
      LineHoldsOneLine(rest, t);
    }
  }

  lemma {:induction false} LineBodies(lines: seq<string>, i: nat)
    requires AreLines(lines) && i < |lines|
    ensures lines[i] != "" && OneLine(lines[i][..|lines[i]| - 1])
  {
    if i > 0 { LineBodies(lines[1..], i - 1); }
  }

  /** The first line of the entry mentions the ticket. */
  lemma EntryMentions(tid: string, title: string, result: string)
    requires '\r' !in Entry(tid, title, result) && FitsInLine(tid)
    ensures
      var added := EntryLines(tid, title, result);
      added != [] && Mentions(added[0], tid) && !Closes(added[0]) && !IsDone(added[0])
  {
    hide IsBreak, Mentions, Closes, IsDone, FitsInLine, LineEnd;
    var tail := " \U{2014} " + title + (if result == "" then "" else " (" + result + ")") + "\n";
    var text := Entry(tid, title, result) + "\n";
    assert text == "- " + tid + tail;
    ReadPlainText(text);
    LongFirstLine(tid, tail);
    FirstLineMentions(tid, tail, LineEnd(text));
  }

  lemma FirstLineMentions(tid: string, tail: string, n: nat)
    requires |tid| + 2 <= n <= |"- " + tid + tail|
    ensures
      var first := ("- " + tid + tail)[..n];
      Mentions(first, tid) && !Closes(first) && !IsDone(first)
  {
    hide Contains;
    var rest := tail[..n - 2 - |tid|];
    assert ("- " + tid + tail)[..n] == "- " + tid + rest;
    ContainsMiddle("- ", tid, rest);
    assert ("- " + tid + rest)[0] == '-';
  }

  lemma LongFirstLine(tid: string, tail: string)
    requires FitsInLine(tid) && tail != ""
    ensures LineEnd("- " + tid + tail) >= |tid| + 2
  {
    var text := "- " + tid + tail;
    forall i | 0 <= i < |tid| + 1 ensures !IsBreak(text[i]) {
      if i >= 2 { assert text[i] == tid[..|tid| - 1][i - 2]; }
    }
  }

  lemma DoneAtIs(lines: seq<string>, d: nat)
    requires d < |lines| && IsDone(lines[d]) && forall i :: 0 <= i < d ==> !IsDone(lines[i])
    ensures DoneAt(lines) == d
  {}

  lemma SectionEndAfter(lines: seq<string>, d: nat, k: nat)
    requires d <= k < |lines| && forall j :: d <= j <= k ==> !Closes(lines[j])
    ensures SectionEnd(lines, d) > k
  {}

  /** After a run that put an entry in, the first Done section is where it was. */
  lemma StillDone(lines: seq<string>, tid: string, added: seq<string>)
    requires NeedsEntry(lines, tid)
    ensures
      var after, end := WithLines(lines, tid, added), SectionEnd(lines, DoneAt(lines));
      var k := if end < |lines| then end else |Completed(lines)|;
      && DoneAt(after) == DoneAt(lines) < k <= |after| - |added| && after[k..k + |added|] == added
      && forall j :: DoneAt(lines) <= j < k ==> !Closes(after[j])
  {
    hide IsBreak, IsDone, Closes, NeedsEntry, WithLines, Completed, DoneAt;
    WithLinesIs(lines, tid, added);
    var d, after := DoneAt(lines), WithLines(lines, tid, added);
    DoneIsOpen(lines[d]);
    var end := SectionEnd(lines, d);
    if end < |lines| {
      KeptInFront(lines[..end], added + lines[end..], after);
    } else {
      CompletedKeepsHeaders(lines);
      CompletedTail(lines);
      KeptInFront(Completed(lines), added, after);
    }
    DoneAtIs(after, d);
  }

  lemma WithLinesIs(lines: seq<string>, tid: string, added: seq<string>)
    requires NeedsEntry(lines, tid)
    ensures
      var end := SectionEnd(lines, DoneAt(lines));
      && DoneAt(lines) < |lines|
      && WithLines(lines, tid, added) == if end < |lines| then lines[..end] + (added + lines[end..]) else Completed(lines) + added
  {
    hide Mentioned, Completed, DoneAt, SectionEnd, Closes, IsDone;
    var end := SectionEnd(lines, DoneAt(lines));
    Grouped(lines[..end], added, lines[end..]);
  }

  lemma Grouped(a: seq<string>, b: seq<string>, c: seq<string>)
    ensures a + b + c == a + (b + c)
  {}

  lemma KeptInFront(front: seq<string>, back: seq<string>, all: seq<string>)
    requires all == front + back
    ensures all[..|front|] == front && all[|front|..] == back && forall i :: 0 <= i < |front| ==> all[i] == front[i]
  {}

  lemma CompletedTail(lines: seq<string>)
    requires lines != []
    ensures forall j :: |lines| <= j < |Completed(lines)| ==> !Closes(Completed(lines)[j])
  {
    hide IsBreak;
    BlankStaysOpen();
  }

  /** The next run finds the entry of this one when it can stand in a line. */
  lemma EntryIsFound(lines: seq<string>, tid: string, title: string, result: string)
    requires NeedsEntry(lines, tid) && '\r' !in Entry(tid, title, result) && FitsInLine(tid)
    ensures !NeedsEntry(WithLines(lines, tid, EntryLines(tid, title, result)), tid)
  {
    hide Entry, EntryLines, Mentions, Closes, IsDone, FitsInLine, Completed, WithLines, DoneAt, SectionEnd;
    var added := EntryLines(tid, title, result);
    var after := WithLines(lines, tid, added);
    StillDone(lines, tid, added);
    EntryMentions(tid, title, result);
    var k := FirstAdded(lines, tid, added);
    SectionEndAfter(after, DoneAt(lines), k);
  }

  /** Where the first of the new lines stands. */
  lemma FirstAdded(lines: seq<string>, tid: string, added: seq<string>) returns (k: nat)
    requires NeedsEntry(lines, tid) && added != []
    ensures
      var after := WithLines(lines, tid, added);
      k < |after| && after[k] == added[0] && k == if SectionEnd(lines, DoneAt(lines)) < |lines| then SectionEnd(lines, DoneAt(lines)) else |Completed(lines)|
  {
    hide Completed, Mentioned, DoneAt, SectionEnd;
    var end := SectionEnd(lines, DoneAt(lines));
    k := if end < |lines| then end else |Completed(lines)|;
  }

  /** A ticket id with a break inside is found in no line. */
  lemma NeverFound(lines: seq<string>, tid: string)
    requires AreLines(lines) && HasDone(lines) && !FitsInLine(tid)
    ensures NeedsEntry(lines, tid)
  {
    hide IsBullet, IsBreak, OneLine;
    forall j | 0 <= j < |lines| ensures !Mentions(lines[j], tid) {
      LineBodies(lines, j);
      if Contains(lines[j], tid) { LineHoldsOneLine(lines[j], tid); }
    }
  }

  lemma MoreLines(lines: seq<string>, tid: string, added: seq<string>)
    requires NeedsEntry(lines, tid) && added != []
    ensures |WithLines(lines, tid, added)| > |lines|
  {
    hide IsBreak;
  }

  /** Running the update twice gives the same file as running it once exactly when no entry
    * is needed, or it holds no carriage return and the ticket id no break inside. */
  lemma SlateIdempotent(file: string, tid: string, title: string, result: string)
    ensures
      var once := Updated(file, tid, title, result);
      Updated(once, tid, title, result) == once <==>
        !NeedsEntry(Lines(ReadText(file)), tid) || ('\r' !in Entry(tid, title, result) && FitsInLine(tid))
  {
    hide Entry, ReadText, Lines, LineEnd, IsBreak, NeedsEntry, EntryLines, WithLines, HasDone, FitsInLine;
    var content := ReadText(file);
    var lines := Lines(content);
    LinesAreLines(content);
    ReadPlainText(content);
    if NeedsEntry(lines, tid) {
      SecondRun(file, tid, title, result);
    } else {
      SameLines(lines, tid, [Entry(tid, title, result) + "\n"]);
    }
  }

  lemma SameLines(lines: seq<string>, tid: string, added: seq<string>)
    requires !NeedsEntry(lines, tid)
    ensures WithLines(lines, tid, added) == lines
  {}

  lemma SecondRun(file: string, tid: string, title: string, result: string)
    requires NeedsEntry(Lines(ReadText(file)), tid)
    ensures
      var once := Updated(file, tid, title, result);
      Updated(once, tid, title, result) == once <==> '\r' !in Entry(tid, title, result) && FitsInLine(tid)
  {
    hide Entry, ReadText, Lines, LineEnd, IsBreak, Mentioned, Completed, FitsInLine, DoneAt, SectionEnd;
    var entry, lines := Entry(tid, title, result), Lines(ReadText(file));
    var once := Updated(file, tid, title, result);
    var again := Lines(ReadText(once));
    UpdatedLines(file, tid, title, result);
    LinesAreLines(ReadText(once));
    StillDone(lines, tid, EntryLines(tid, title, result));
    if !FitsInLine(tid) { NeverFound(again, tid); }
    if NeedsEntry(again, tid) {
      UpdatedLines(once, tid, title, result);
      EndsInNewline(entry);
      FullLines(ReadText(entry + "\n"));
      MoreLines(again, tid, EntryLines(tid, title, result));
      if '\r' !in entry && FitsInLine(tid) { EntryIsFound(lines, tid, title, result); }
    } else {
      assert Updated(once, tid, title, result) == ReadText(once);
      if '\r' in entry {
        ReturnsStay(lines, tid, entry);
      } else {
        assert '\r' !in Concat(lines) by { LinesAreLines(ReadText(file)); }
        NoReturnsAdded(lines, tid, entry);
        ReadPlainText(once);
      }
    }
  }

  lemma ReturnsStay(lines: seq<string>, tid: string, entry: string)
    requires NeedsEntry(lines, tid) && '\r' in entry
    ensures '\r' in Concat(WithLines(lines, tid, [entry + "\n"]))
  {
    hide Concat, IsBreak, Mentioned, Completed;
    var end := SectionEnd(lines, DoneAt(lines));
    if end < |lines| {
      ConcatSnoc(lines[..end], entry + "\n");
      ConcatAppend(lines[..end] + [entry + "\n"], lines[end..]);
    } else {
      ConcatSnoc(Completed(lines), entry + "\n");
    }
  }

  lemma NoReturnsAdded(lines: seq<string>, tid: string, entry: string)
    requires NeedsEntry(lines, tid) && '\r' !in entry && '\r' !in Concat(lines)
    ensures '\r' !in Concat(WithLines(lines, tid, [entry + "\n"]))
  {
    hide Concat, IsBreak, Mentioned, Completed;
    var end := SectionEnd(lines, DoneAt(lines));
    if end < |lines| {
      assert lines == lines[..end] + lines[end..];
      ConcatAppend(lines[..end], lines[end..]);
      ConcatSnoc(lines[..end], entry + "\n");
      ConcatAppend(lines[..end] + [entry + "\n"], lines[end..]);
    } else {
      CompletedConcat(lines);
      ConcatSnoc(Completed(lines), entry + "\n");
    }
  }

  /** A result whose first line ended in "\r\n": one run adds two lines, and the next one
    * changes the file again. */
  lemma ReturnInResult(tid: string, title: string, first: string)
    ensures
      var file, result := "## Done\n", first + "\r";
      var once := Updated(file, tid, title, result);
      && |Lines(ReadText(once))| > |Lines(ReadText(file))| + 1
      && Updated(once, tid, title, result) != once
  {
    hide Entry, Updated, NeedsEntry, Lines, ReadText, IsBreak;
    var file, result := "## Done\n", first + "\r";
    EmptyDoneSection(tid);
    EntryHoldsReturn(tid, title, first);
    AddsAtMostOneLine(file, tid, title, result);
    SlateIdempotent(file, tid, title, result);
  }

  lemma EmptyDoneSection(tid: string)
    ensures NeedsEntry(Lines(ReadText("## Done\n")), tid)
  {
    hide LineEnd, Lines, ReadText;
    var file := "## Done\n";
    ReadPlainText(file);
    assert file[..|file| - 1] == DONE && AreLines([file]) && Concat([file]) == file;
    LinesOfConcat([file]);
  }

  lemma EntryHoldsReturn(tid: string, title: string, first: string)
    ensures '\r' in Entry(tid, title, first + "\r") && !ReadsAsOneLine(Entry(tid, title, first + "\r"))
  {
    hide IsBreak;
    var entry, front := Entry(tid, title, first + "\r"), "- " + tid + " \U{2014} " + title + " (" + first;
    assert entry == front + "\r" + ")";
    assert entry[|front|] == '\r' && entry[|entry| - 1] == ')';
  }
}
