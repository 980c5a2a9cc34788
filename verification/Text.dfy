/** Splitting and joining strings, and reading files in text mode. */
module Text {

  // ---------- Text mode ----------

  /** What reading a file in text mode makes of it: each of the line ends "\r\n" and "\r"
    * turns into "\n". Writing changes nothing. */
  function ReadText(file: string): (r: string)
    ensures '\r' !in r
    ensures file != "" ==> r != ""
    decreases |file|
  {
    if file == "" then ""
    else if file[0] != '\r' then [file[0]] + ReadText(file[1..])
    else if |file| > 1 && file[1] == '\n' then "\n" + ReadText(file[2..])
    else "\n" + ReadText(file[1..])
  }

  /** Each kind of line end is read as one newline. */
  lemma LineEndsRead()
    ensures ReadText("\r\n") == ReadText("\r") == ReadText("\n") == "\n"
  {}

  lemma {:induction false} ReadPlainText(s: string)
    requires '\r' !in s
    ensures ReadText(s) == s
  {
    if s != "" {
      assert s[0] in s && '\r' !in s[1..];
      ReadPlainText(s[1..]);
      assert [s[0]] + s[1..] == s;
    }
  }

  lemma {:induction false} ReadTextAppend(a: string, b: string)
    requires a == "" || b == "" || a[|a| - 1] != '\r' || b[0] != '\n'
    ensures ReadText(a + b) == ReadText(a) + ReadText(b)
    decreases |a|
  {
    hide ReadText;
    ReadTextStep(a);
    ReadTextStep(a + b);
    if a == "" {
      assert a + b == b;
    } else if a[0] == '\r' && |a| > 1 && a[1] == '\n' {
      ReadTextAppend(a[2..], b);
      assert (a + b)[2..] == a[2..] + b;
    } else {
      ReadTextAppend(a[1..], b);
      assert (a + b)[1..] == a[1..] + b;
    }
  }

  lemma ReadTextStep(s: string)
    ensures ReadText(s) ==
      if s == "" then "" else
      (if s[0] == '\r' then "\n" else [s[0]]) + ReadText(s[if s[0] == '\r' && |s| > 1 && s[1] == '\n' then 2 else 1..])
  {}

  lemma {:induction false} ReturnsBecomeNewlines(s: string)
    requires '\r' in s
    ensures '\n' in ReadText(s)
    decreases |s|
  {
    if s[0] != '\r' {
      assert '\r' in s[1..];
      ReturnsBecomeNewlines(s[1..]);
    }
  }

  // ---------- Splitting and joining ----------

  function Split(s: string, c: char): (r: seq<string>)
    ensures |r| >= 1
  {
    if s == "" then [""]
    else if s[0] == c then [""] + Split(s[1..], c)
    else var r := Split(s[1..], c); [[s[0]] + r[0]] + r[1..]
  }

  function Join(parts: seq<string>, sep: string): string {
    if parts == [] then "" else if |parts| == 1 then parts[0] else parts[0] + sep + Join(parts[1..], sep)
  }

  lemma {:induction false} JoinAppend(xs: seq<string>, ys: seq<string>, sep: string)
    requires xs != [] && ys != []
    ensures Join(xs + ys, sep) == Join(xs, sep) + sep + Join(ys, sep)
  {
    assert (xs + ys)[1..] == xs[1..] + ys;
    if |xs| > 1 {
      JoinAppend(xs[1..], ys, sep);
    }
  }

  lemma {:induction false} JoinSplit(s: string, c: char)
    ensures Join(Split(s, c), [c]) == s
  {
    if s != "" {
      JoinSplit(s[1..], c);
      var rest := Split(s[1..], c);
      if s[0] == c {
        assert ([""] + rest)[1..] == rest;
        assert [c] + s[1..] == s;
      } else {
        var r := [[s[0]] + rest[0]] + rest[1..];
        assert r[1..] == rest[1..];
        assert Join(r, [c]) == [s[0]] + Join(rest, [c]);
      }
    }
  }

  lemma SplitStep(s: string, c: char)
    ensures s == "" ==> Split(s, c) == [""]
    ensures s != "" && s[0] == c ==> Split(s, c) == [""] + Split(s[1..], c)
    ensures s != "" && s[0] != c ==> Split(s, c) == [[s[0]] + Split(s[1..], c)[0]] + Split(s[1..], c)[1..]
  {}

  lemma {:induction false} SplitAppend(s: string, t: string, c: char)
    ensures Split(s + [c] + t, c) == Split(s, c) + Split(t, c)
  {
    hide Split;
    var u := s + [c] + t;
    SplitStep(s, c);
    SplitStep(u, c);
    if s == "" {
      assert u[1..] == t;
    } else {
      SplitAppend(s[1..], t, c);
      assert u[1..] == s[1..] + [c] + t && u[0] == s[0];
      var rest, tail := Split(s[1..], c), Split(t, c);
      assert (rest + tail)[1..] == rest[1..] + tail;
    }
  }
}
