/** Whitespace, words and trimming, as Python's str.split and str.strip see them. */
module WordText {
  import opened Text

  predicate IsSpace(c: char) {
    || '\t' <= c <= '\r' || '\U{1c}' <= c <= ' ' || c == '\U{85}' || c == '\U{a0}' || c == '\U{1680}'
    || '\U{2000}' <= c <= '\U{200a}' || c == '\U{2028}' || c == '\U{2029}' || c == '\U{202f}'
    || c == '\U{205f}' || c == '\U{3000}'
  }

  /** The whitespace characters, one by one. */
  lemma SpaceTable(c: char)
    ensures IsSpace(c) <==>
      || c in "\t\n\U{b}\U{c}\r\U{1c}\U{1d}\U{1e}\U{1f} \U{85}\U{a0}\U{1680}\U{2000}\U{2001}\U{2002}\U{2003}\U{2004}"
      || c in "\U{2005}\U{2006}\U{2007}\U{2008}\U{2009}\U{200a}\U{2028}\U{2029}\U{202f}\U{205f}\U{3000}"
  {}

  /** There is only whitespace from lo to hi. */
  predicate AllSpace(s: string, lo: nat, hi: nat) {
    hi <= |s| && forall i :: lo <= i < hi ==> IsSpace(s[i])
  }

  predicate IsWord(w: string) {
    w != "" && forall c :: c in w ==> !IsSpace(c)
  }

  /** The length of the leading run of non-space characters. */
  function WordEnd(s: string): (n: nat)
    ensures n <= |s|
    ensures forall i :: 0 <= i < n ==> !IsSpace(s[i])
    ensures n < |s| ==> IsSpace(s[n])
  {
    if s == "" || IsSpace(s[0]) then 0 else 1 + WordEnd(s[1..])
  }

  function Words(s: string): (r: seq<string>)
    decreases |s|
  {
    if s == "" then []
    else if IsSpace(s[0]) then Words(s[1..])
    else [s[..WordEnd(s)]] + Words(s[WordEnd(s)..])
  }

  function LStrip(s: string): (r: string)
    ensures |r| <= |s| && r == s[|s| - |r|..]
    ensures r != "" ==> !IsSpace(r[0])
    ensures forall i :: 0 <= i < |s| - |r| ==> IsSpace(s[i])
  {
    if s != "" && IsSpace(s[0]) then LStrip(s[1..]) else s
  }

  function RStrip(s: string): (r: string)
    ensures |r| <= |s| && r == s[..|r|]
    ensures r != "" ==> !IsSpace(r[|r| - 1])
    ensures forall i :: |r| <= i < |s| ==> IsSpace(s[i])
  {
    if s != "" && IsSpace(s[|s| - 1]) then RStrip(s[..|s| - 1]) else s
  }

  function Strip(s: string): string {
    RStrip(LStrip(s))
  }

  lemma Inner(t: string, a: nat, n: nat)
    requires a + n <= |t|
    ensures t[a..][..n] == t[a..a + n]
  {}

  /** Trimming takes a slice with only whitespace around it. */
  lemma StripSlice(t: string) returns (a: nat, b: nat)
    ensures a <= b <= |t| && Strip(t) == t[a..b] && AllSpace(t, 0, a) && AllSpace(t, b, |t|)
    ensures Strip(t) != "" ==> !IsSpace(t[a]) && !IsSpace(t[b - 1])
  {
    hide IsSpace, LStrip, RStrip;
    var l := LStrip(t);
    var r := RStrip(l);
    a := |t| - |l|;
    b := a + |r|;
    Inner(t, a, |r|);
    forall i | b <= i < |t| ensures IsSpace(t[i]) { assert t[i] == l[i - a]; }
  }

  // ---------- Words of composed strings ----------

  lemma WordsOfNothing()
    ensures Words("") == []
  {}

  lemma WordsStep(s: string)
    requires s != ""
    ensures Words(s) == if IsSpace(s[0]) then Words(s[1..]) else [s[..WordEnd(s)]] + Words(s[WordEnd(s)..])
  {
    hide IsSpace, WordEnd;
  }

  lemma {:induction false} WordsAppend(a: string, c: char, b: string)
    requires IsSpace(c)
    ensures Words(a + [c] + b) == Words(a) + Words(b)
    decreases |a|
  {
    hide IsSpace, Words, WordEnd;
    var s := a + [c] + b;
    WordsStep(s);
    if a == "" {
      WordsOfNothing();
      assert s[1..] == b;
    } else {
      assert s[0] == a[0];
      WordsStep(a);
      if IsSpace(a[0]) {
        WordsAppend(a[1..], c, b);
        assert s[1..] == a[1..] + [c] + b;
      } else {
        WordEndAppend(a, c, b);
        var n := WordEnd(a);
        assert n > 0 by { WordEndSome(a); }
        assert s[..n] == a[..n] && s[n..] == a[n..] + [c] + b;
        WordsAppend(a[n..], c, b);
      }
    }
  }

  lemma WordEndSome(s: string)
    requires s != "" && !IsSpace(s[0])
    ensures WordEnd(s) > 0
  {}

  lemma {:induction false} WordEndAppend(a: string, c: char, b: string)
    requires IsSpace(c)
    ensures WordEnd(a + [c] + b) == WordEnd(a)
  {
    if a != "" && !IsSpace(a[0]) {
      WordEndAppend(a[1..], c, b);
      assert (a + [c] + b)[1..] == a[1..] + [c] + b;
    }
  }

  lemma WordsOfWord(w: string)
    requires IsWord(w)
    ensures Words(w) == [w]
  {
    assert forall i :: 0 <= i < |w| ==> w[i] in w;
    var n := WordEnd(w);
    assert w[..n] == w && w[n..] == "";
  }

  lemma {:induction false} WordsAreWords(s: string)
    ensures forall w :: w in Words(s) ==> IsWord(w)
    decreases |s|
  {
    if s != "" {
      if IsSpace(s[0]) { WordsAreWords(s[1..]); }
      else { WordsAreWords(s[WordEnd(s)..]); }
    }
  }

  /** Joining words with a space and splitting again gives the words back. */
  lemma {:induction false} WordsOfJoin(ws: seq<string>)
    requires forall w :: w in ws ==> IsWord(w)
    ensures Words(Join(ws, " ")) == ws
  {
    if |ws| == 1 {
      WordsOfWord(ws[0]);
    } else if |ws| > 1 {
      WordsOfJoin(ws[1..]);
      WordsOfWord(ws[0]);
      WordsAppend(ws[0], ' ', Join(ws[1..], " "));
    }
  }

  predicate Blank(s: string) {
    forall c :: c in s ==> IsSpace(c)
  }

  lemma {:induction false} WordsEmptyIffBlank(s: string)
    ensures Words(s) == [] <==> Blank(s)
    decreases |s|
  {
    if s != "" {
      assert s == [s[0]] + s[1..];
      if IsSpace(s[0]) { WordsEmptyIffBlank(s[1..]); } else { assert s[0] in s; }
    }
  }

  lemma {:induction false} WordsLStrip(s: string)
    ensures Words(LStrip(s)) == Words(s)
  {
    if s != "" && IsSpace(s[0]) { WordsLStrip(s[1..]); }
  }

  lemma {:induction false} WordsRStrip(s: string)
    ensures Words(RStrip(s)) == Words(s)
  {
    hide Words;
    if s != "" && IsSpace(s[|s| - 1]) {
      var t := s[..|s| - 1];
      WordsRStrip(t);
      assert s == t + [s[|s| - 1]] + "";
      WordsAppend(t, s[|s| - 1], "");
      WordsOfNothing();
    }
  }

  lemma WordsStrip(s: string)
    ensures Words(Strip(s)) == Words(s)
    ensures Strip(s) == "" <==> Blank(s)
  {
    WordsLStrip(s);
    WordsRStrip(LStrip(s));
    WordsEmptyIffBlank(s);
    if Strip(s) != "" {
      var r := Strip(s);
      assert !IsSpace(r[|r| - 1]);
      WordsEmptyIffBlank(r);
      assert r[|r| - 1] in r;
    }
  }
}
